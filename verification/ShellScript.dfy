/**
 * Shell quoting and the scripts built with it, read back by a lexer for the part of the shell language they use:
 * POSIX.1-2017 Shell Command Language, sections 2.2.1 (escape), 2.2.2 (single quotes) and 2.3 (token recognition).
 */
module ShellScript {
  import opened Basics

  datatype Token = Word(text: string) | OrIf | Pipe | NewLine

  const NUL: char := 0 as char

  predicate Blank(c: char) {
    c == ' ' || c == '\t'
  }

  /** What ends an unquoted word here. */
  predicate Ends(c: char) {
    Blank(c) || c == '\n' || c == '|'
  }

  /** Characters that would start an expansion, a redirection, another operator or a pattern if left unquoted. */
  predicate Active(c: char) {
    c in "&;<>()$`\"*?[~=%" || c == NUL
  }

  predicate NulFree(s: string) {
    forall i :: 0 <= i < |s| ==> s[i] != NUL
  }

  type Scanned = Option<(string, string)>

  function Prefixed(w: string, r: Scanned): Scanned {
    match r
    case None => None
    case Some((text, rest)) => Some((w + text, rest))
  }

  /** The rest of a word and what follows it; quoted tells whether a single quote is open. None: not understood. */
  function Scan(s: string, quoted: bool): (r: Scanned)
    ensures r.Some? ==> |r.value.1| <= |s|
  {
    if s == "" then (if quoted then None else Some(("", "")))
    else if quoted then
      if s[0] == '\'' then Scan(s[1..], false)
      else if s[0] == NUL then None
      else Prefixed([s[0]], Scan(s[1..], true))
    else if Ends(s[0]) then Some(("", s))
    else if s[0] == '\'' then Scan(s[1..], true)
    else if s[0] == '\\' then
      if |s| == 1 || s[1] == NUL then None
      else if s[1] == '\n' then Scan(s[2..], false)
      else Prefixed([s[1]], Scan(s[2..], false))
    else if Active(s[0]) then None
    else Prefixed([s[0]], Scan(s[1..], false))
  }

  /** From a comment sign up to the end of the line. */
  function AfterComment(s: string): (r: string)
    ensures |r| <= |s|
  {
    if s == "" || s[0] == '\n' then s else AfterComment(s[1..])
  }

  function Tokens(t: Token, r: Option<seq<Token>>): Option<seq<Token>> {
    match r
    case None => None
    case Some(ts) => Some([t] + ts)
  }

  function Lex(s: string): Option<seq<Token>>
    decreases |s|
  {
    if s == "" then Some([])
    else if Blank(s[0]) then Lex(s[1..])
    else if s[0] == '\n' then Tokens(NewLine, Lex(s[1..]))
    else if s[0] == '#' then Lex(AfterComment(s[1..]))
    else if s[0] == '|' then
      if |s| > 1 && s[1] == '|' then Tokens(OrIf, Lex(s[2..])) else Tokens(Pipe, Lex(s[1..]))
    else if |s| > 1 && s[0] == '\\' && s[1] == '\n' then Lex(s[2..])
    else
      ScanAdvances(s);
      match Scan(s, false)
      case None => None
      case Some((text, rest)) => Tokens(Word(text), Lex(rest))
  }

  lemma ScanAdvances(s: string)
    requires s != "" && !Ends(s[0])
    ensures Scan(s, false).Some? ==> |Scan(s, false).value.1| < |s|
  {
  }

  // ---------- Quoting ----------

  /** strings.ReplaceAll(v, "'", "'\\''"). */
  function Escaped(v: string): string {
    if v == "" then ""
    else (if v[0] == '\'' then "'\\''" else [v[0]]) + Escaped(v[1..])
  }

  /** quoteShellArg in the agent and shellQuote in the server. */
  function Quote(v: string): string {
    "'" + Escaped(v) + "'"
  }

  lemma {:induction false} EscapedScans(v: string, rest: string)
    ensures Scan(Escaped(v) + "'" + rest, true) ==
      (if NulFree(v) then Prefixed(v, Scan(rest, false)) else None)
  {
    var s := Escaped(v) + "'" + rest;
    if v == "" {
      assert s[1..] == rest;
      PrefixedEmpty(Scan(rest, false));
    } else {
      EscapedScans(v[1..], rest);
      var tail := Escaped(v[1..]) + "'" + rest;
      if v[0] == '\'' {
        assert s == "'\\''" + tail;
        EscapedQuoteScans(tail);
      } else {
        assert s[1..] == tail;
      }
      PrefixedTwice([v[0]], v[1..], Scan(rest, false));
      assert v == [v[0]] + v[1..];
    }
  }

  /** Close the quotes, an escaped quote, open them again. */
  lemma EscapedQuoteScans(tail: string)
    ensures Scan("'\\''" + tail, true) == Prefixed("'", Scan(tail, true))
  {
    var s0 := "'\\''" + tail;
    var s1, s2 := "\\''" + tail, "'" + tail;
    assert s0[0] == '\'' && s0[1..] == s1;
    assert s1[0] == '\\' && s1[1] == '\'' && s1[2..] == s2;
    assert s2[0] == '\'' && s2[1..] == tail;
    assert Scan(s0, true) == Scan(s1, false);
    assert Scan(s1, false) == Prefixed([s1[1]], Scan(s2, false));
    assert Scan(s2, false) == Scan(tail, true);
  }

  lemma PrefixedEmpty(r: Scanned)
    ensures Prefixed("", r) == r
  {
    if r.Some? {
      assert "" + r.value.0 == r.value.0;
    }
  }

  lemma PrefixedTwice(a: string, b: string, r: Scanned)
    ensures Prefixed(a, Prefixed(b, r)) == Prefixed(a + b, r)
  {
    if r.Some? {
      assert a + (b + r.value.0) == (a + b) + r.value.0;
    }
  }

  /** A word ends at the end of the input, a blank, a newline or an operator. */
  predicate Stops(rest: string) {
    rest == "" || Ends(rest[0])
  }

  /** A quoted argument is read back as one word with exactly its own text, whatever that is, unless it holds a NUL. */
  lemma QuotedLexes(v: string, rest: string)
    requires Stops(rest)
    ensures Lex(Quote(v) + rest) == (if NulFree(v) then Tokens(Word(v), Lex(rest)) else None)
  {
    var s := Quote(v) + rest;
    assert s[0] == '\'' && s[1..] == Escaped(v) + "'" + rest;
    EscapedScans(v, rest);
    assert Scan(rest, false) == Some(("", rest));
    assert v + "" == v;
  }

  /** Characters that stand for themselves outside quotes. */
  predicate Plain(w: string) {
    forall i :: 0 <= i < |w| ==> !Ends(w[i]) && !Active(w[i]) && w[i] != '\'' && w[i] != '\\' && w[i] != '#'
  }

  lemma {:induction false} PlainScans(w: string, rest: string)
    requires Plain(w) && Stops(rest)
    ensures Scan(w + rest, false) == Some((w, rest))
  {
    if w == "" {
      assert w + rest == rest;
    } else {
      PlainScans(w[1..], rest);
      assert (w + rest)[1..] == w[1..] + rest;
      assert [w[0]] + w[1..] == w;
    }
  }

  lemma PlainLexes(w: string, rest: string)
    requires w != "" && Plain(w) && Stops(rest)
    ensures Lex(w + rest) == Tokens(Word(w), Lex(rest))
  {
    PlainScans(w, rest);
    assert (w + rest)[0] == w[0];
  }

  // ---------- Command lines as pieces ----------

  /** What the programs write next to each other: bare words, quoted arguments, and punctuation. */
  datatype Piece = Bare(w: string) | Quoted(v: string) | Space | Line | Or | Bar | Comment(text: string)

  function Text(p: Piece): string {
    match p
    case Bare(w) => w
    case Quoted(v) => Quote(v)
    case Space => " "
    case Line => "\n"
    case Or => "||"
    case Bar => "|"
    case Comment(t) => "#" + t
  }

  function Render(ps: seq<Piece>): string {
    if ps == [] then "" else Text(ps[0]) + Render(ps[1..])
  }

  function Meant(p: Piece): seq<Token> {
    match p
    case Bare(w) => [Word(w)]
    case Quoted(v) => [Word(v)]
    case Space => []
    case Line => [NewLine]
    case Or => [OrIf]
    case Bar => [Pipe]
    case Comment(_) => []
  }

  function Meaning(ps: seq<Piece>): seq<Token> {
    if ps == [] then [] else Meant(ps[0]) + Meaning(ps[1..])
  }

  /** Words are followed by punctuation, comments by a line break, and two pipes do not touch. */
  predicate Fits(p: Piece, next: seq<Piece>) {
    var separated := next == [] || next[0].Space? || next[0].Line? || next[0].Or? || next[0].Bar?;
    match p
    case Bare(w) => w != "" && Plain(w) && separated
    case Quoted(_) => separated
    case Bar => next == [] || !(next[0].Bar? || next[0].Or?)
    case Comment(t) => '\n' !in t && next != [] && next[0].Line?
    case _ => true
  }

  predicate WellFormed(ps: seq<Piece>) {
    ps == [] || (Fits(ps[0], ps[1..]) && WellFormed(ps[1..]))
  }

  /** No quoted argument contains a NUL. */
  predicate Clean(ps: seq<Piece>) {
    ps == [] || ((ps[0].Quoted? ==> NulFree(ps[0].v)) && Clean(ps[1..]))
  }

  lemma {:induction false} CommentSkipped(comment: string, rest: string)
    requires '\n' !in comment && rest != "" && rest[0] == '\n'
    ensures AfterComment(comment + rest) == rest
  {
    if comment == "" {
      assert comment + rest == rest;
    } else {
      assert (comment + rest)[1..] == comment[1..] + rest;
      CommentSkipped(comment[1..], rest);
    }
  }

  lemma RenderStops(ps: seq<Piece>)
    requires ps == [] || ps[0].Space? || ps[0].Line? || ps[0].Or? || ps[0].Bar?
    ensures Stops(Render(ps))
  {
  }

  /** Only a pipe piece makes the text begin with a pipe. */
  lemma NoPipeAhead(ps: seq<Piece>)
    requires WellFormed(ps) && (ps != [] ==> !ps[0].Bar? && !ps[0].Or?)
    ensures Render(ps) == "" || Render(ps)[0] != '|'
  {
    if ps != [] {
      assert Render(ps)[0] == Text(ps[0])[0];
    }
  }

  /** One punctuation piece in front of a text. */
  lemma PunctuationLexes(p: Piece, rest: string)
    requires p.Space? || p.Line? || p.Or? || (p.Bar? && (rest == "" || rest[0] != '|'))
      || (p.Comment? && '\n' !in p.text && rest != "" && rest[0] == '\n')
    ensures Lex(Text(p) + rest) ==
      (match Lex(rest) case None => None case Some(ts) => Some(Meant(p) + ts))
  {
    var s := Text(p) + rest;
    assert forall ts: seq<Token> :: [] + ts == ts;
    match p {
      case Space => assert s[1..] == rest;
      case Line => assert s[1..] == rest;
      case Or => assert s[2..] == rest;
      case Bar => assert s[1..] == rest;
      case Comment(t) =>
        assert s[1..] == t + rest;
        CommentSkipped(t, rest);
      case _ =>
    }
  }

  /** Whatever is rendered from well-formed pieces is read back as their meaning, exactly when it contains no NUL. */
  lemma {:induction false} RenderedLexes(ps: seq<Piece>)
    requires WellFormed(ps)
    ensures Lex(Render(ps)) == (if Clean(ps) then Some(Meaning(ps)) else None)
  {
    hide Lex, Quote, Plain, NulFree;
    if ps == [] {
      EmptyLexes();
    } else {
      var p, next := ps[0], ps[1..];
      RenderedLexes(next);
      match p {
        case Bare(w) =>
          RenderStops(next);
          PlainLexes(w, Render(next));
        case Quoted(v) =>
          RenderStops(next);
          QuotedLexes(v, Render(next));
        case Bar =>
          NoPipeAhead(next);
          PunctuationLexes(p, Render(next));
        case _ => PunctuationLexes(p, Render(next));
      }
    }
  }

  lemma EmptyLexes()
    ensures Lex("") == Some([])
  {
  }

  lemma {:induction false} RenderConcat(a: seq<Piece>, b: seq<Piece>)
    ensures Render(a + b) == Render(a) + Render(b)
  {
    if a == [] {
      assert a + b == b;
    } else {
      assert (a + b)[1..] == a[1..] + b;
      RenderConcat(a[1..], b);
    }
  }

  // ---------- The recovery script ----------

  function ArgumentPieces(args: seq<string>): seq<Piece> {
    if args == [] then [] else [Space, Quoted(args[0])] + ArgumentPieces(args[1..])
  }

  /** cd -- 'cwd' || exit 126, in front of what follows; nothing when no directory was recorded. */
  function CdThen(cwd: string, next: seq<Piece>): seq<Piece> {
    if cwd == "" then next else [Bare("cd")] + ([Space] + DirectoryThen(cwd, next))
  }

  function DirectoryThen(cwd: string, next: seq<Piece>): seq<Piece> {
    [Bare("--")] + ([Space] + ([Quoted(cwd)] + OrExitThen(next)))
  }

  function OrExitThen(next: seq<Piece>): seq<Piece> {
    [Space] + ([Or] + ([Space] + ExitThen(next)))
  }

  function ExitThen(next: seq<Piece>): seq<Piece> {
    [Bare("exit")] + ([Space] + ([Bare("126")] + ([Line] + next)))
  }

  function ExecLine(exe: string, args: seq<string>): seq<Piece> {
    [Bare("exec")] + ([Space] + ([Quoted(exe)] + (ArgumentPieces(args) + [Line])))
  }

  /** The script startRecord writes: argv[0] is replaced by the executable's own path. */
  function Script(cwd: string, exe: string, args: seq<string>): seq<Piece>
    requires args != []
  {
    [Comment("!/bin/sh")] + ([Line] + CdThen(cwd, ExecLine(exe, args[1..])))
  }

  // ---------- Its text ----------

  lemma PieceRenders(p: Piece, next: seq<Piece>)
    ensures Render([p] + next) == Text(p) + Render(next)
  {
    assert ([p] + next)[1..] == next;
  }

  lemma ExitRenders(next: seq<Piece>)
    ensures Render(ExitThen(next)) == "exit 126\n" + Render(next)
  {
    hide Render, Quote;
    PieceRenders(Line, next);
    PieceRenders(Bare("126"), [Line] + next);
    PieceRenders(Space, [Bare("126")] + ([Line] + next));
    PieceRenders(Bare("exit"), [Space] + ([Bare("126")] + ([Line] + next)));
    assert "exit" + (" " + ("126" + ("\n" + Render(next)))) == "exit 126\n" + Render(next);
  }

  lemma OrExitRenders(next: seq<Piece>)
    ensures Render(OrExitThen(next)) == " || exit 126\n" + Render(next)
  {
    hide Render, Quote, ExitThen;
    var b := ExitThen(next);
    ExitRenders(next);
    PieceRenders(Space, b);
    PieceRenders(Or, [Space] + b);
    PieceRenders(Space, [Or] + ([Space] + b));
    assert " " + ("||" + (" " + ("exit 126\n" + Render(next)))) == " || exit 126\n" + Render(next);
  }

  lemma CdRenders(cwd: string, next: seq<Piece>)
    ensures Render(CdThen(cwd, next)) ==
      (if cwd == "" then "" else "cd -- " + Quote(cwd) + " || exit 126\n") + Render(next)
  {
    hide Render, Quote, OrExitThen;
    if cwd != "" {
      OrExitRenders(next);
      var c := [Quoted(cwd)] + OrExitThen(next);
      PieceRenders(Quoted(cwd), OrExitThen(next));
      PieceRenders(Space, c);
      PieceRenders(Bare("--"), [Space] + c);
      var b := [Bare("--")] + ([Space] + c);
      PieceRenders(Space, b);
      PieceRenders(Bare("cd"), [Space] + b);
      assert "cd" + (" " + ("--" + (" " + Render(c)))) == "cd -- " + Render(c);
    }
  }

  lemma ExecRenders(exe: string, args: seq<string>)
    ensures Render(ExecLine(exe, args)) == "exec " + Quote(exe) + Render(ArgumentPieces(args)) + "\n"
  {
    hide Render, Quote;
    var a := ArgumentPieces(args) + [Line];
    RenderConcat(ArgumentPieces(args), [Line]);
    LineRenders();
    PieceRenders(Quoted(exe), a);
    PieceRenders(Space, [Quoted(exe)] + a);
    PieceRenders(Bare("exec"), [Space] + ([Quoted(exe)] + a));
    assert "exec" + (" " + (Quote(exe) + Render(a))) == "exec " + Quote(exe) + Render(a);
  }

  lemma LineRenders()
    ensures Render([Line]) == "\n"
  {
  }

  lemma ScriptRenders(cwd: string, exe: string, args: seq<string>)
    requires args != []
    ensures Render(Script(cwd, exe, args)) == "#!/bin/sh\n"
      + (if cwd == "" then "" else "cd -- " + Quote(cwd) + " || exit 126\n")
      + ("exec " + Quote(exe) + Render(ArgumentPieces(args[1..])) + "\n")
  {
    hide Render, Quote, CdThen, ExecLine;
    var body := CdThen(cwd, ExecLine(exe, args[1..]));
    ExecRenders(exe, args[1..]);
    CdRenders(cwd, ExecLine(exe, args[1..]));
    PieceRenders(Line, body);
    PieceRenders(Comment("!/bin/sh"), [Line] + body);
    assert "#" + "!/bin/sh" + ("\n" + Render(body)) == "#!/bin/sh\n" + Render(body);
  }

  lemma {:induction false} ArgumentsRenderSnoc(args: seq<string>, v: string)
    ensures Render(ArgumentPieces(args + [v])) == Render(ArgumentPieces(args)) + " " + Quote(v)
  {
    hide Render, Quote;
    if args == [] {
      assert args + [v] == [v];
      assert ArgumentPieces([v]) == [Space] + ([Quoted(v)] + []);
      PieceRenders(Quoted(v), []);
      PieceRenders(Space, [Quoted(v)] + []);
      EmptyRenders();
    } else {
      assert (args + [v])[1..] == args[1..] + [v];
      ArgumentsRenderSnoc(args[1..], v);
      RenderConcat([Space, Quoted(args[0])], ArgumentPieces(args[1..] + [v]));
      RenderConcat([Space, Quoted(args[0])], ArgumentPieces(args[1..]));
    }
  }

  lemma EmptyRenders()
    ensures Render([]) == ""
  {
  }

  /** The string builder of startRecord. */
  method BuildScript(cwd: string, exe: string, args: seq<string>) returns (line: string)
    requires args != []
    ensures line == Render(Script(cwd, exe, args))
  {
    hide Render, Quote, Script;
    line := "#!/bin/sh\n";
    if cwd != "" {
      line := line + "cd -- ";
      line := line + Quote(cwd);
      line := line + " || exit 126\n";
    }
    assert line == "#!/bin/sh\n" + (if cwd == "" then "" else "cd -- " + Quote(cwd) + " || exit 126\n");
    ghost var head := line;
    line := line + "exec ";
    line := line + Quote(exe);
    ghost var before := line;
    var rest := args[1..];
    EmptyRenders();
    for i := 0 to |rest|
      invariant line == before + Render(ArgumentPieces(rest[..i]))
    {
      line := line + " ";
      line := line + Quote(rest[i]);
      ArgumentsRenderSnoc(rest[..i], rest[i]);
      assert rest[..i + 1] == rest[..i] + [rest[i]];
    }
    assert rest[..|rest|] == rest;
    line := line + "\n";
    ScriptRenders(cwd, exe, args);
    assert line == head + ("exec " + Quote(exe) + Render(ArgumentPieces(rest)) + "\n");
  }

  // ---------- What the shell reads ----------

  function Words(args: seq<string>): seq<Token> {
    if args == [] then [] else [Word(args[0])] + Words(args[1..])
  }

  predicate AllNulFree(args: seq<string>) {
    forall i :: 0 <= i < |args| ==> NulFree(args[i])
  }

  /** An optional directory change that exits on failure, then exec with the executable and the remaining arguments. */
  function Intended(cwd: string, exe: string, args: seq<string>): seq<Token>
    requires args != []
  {
    var exec := [Word("exec")] + ([Word(exe)] + (Words(args[1..]) + [NewLine]));
    [NewLine] + (if cwd == "" then exec else [Word("cd")] + ([Word("--")] + ([Word(cwd)] + OrExitTokens(exec))))
  }

  function OrExitTokens(next: seq<Token>): seq<Token> {
    [OrIf] + ExitTokens(next)
  }

  function ExitTokens(next: seq<Token>): seq<Token> {
    [Word("exit")] + ([Word("126")] + ([NewLine] + next))
  }

  /** Putting a fitting piece in front. */
  lemma PieceMeans(p: Piece, next: seq<Piece>)
    requires WellFormed(next) && Fits(p, next)
    ensures WellFormed([p] + next) && ([p] + next)[0] == p
    ensures Meaning([p] + next) == (if p.Space? || p.Comment? then Meaning(next) else Meant(p) + Meaning(next))
    ensures Clean([p] + next) <==> (p.Quoted? ==> NulFree(p.v)) && Clean(next)
  {
    assert ([p] + next)[1..] == next;
  }

  lemma {:induction false} ArgumentsMean(args: seq<string>)
    ensures var ps := ArgumentPieces(args) + [Line];
      && WellFormed(ps) && (ps[0].Space? || ps[0].Line?)
      && Meaning(ps) == Words(args) + [NewLine]
      && (Clean(ps) <==> AllNulFree(args))
  {
    hide NulFree, WellFormed, Meaning, Clean;
    if args == [] {
      EmptyMeans();
      PieceMeans(Line, []);
      assert ArgumentPieces(args) + [Line] == [Line] + [];
    } else {
      var next := ArgumentPieces(args[1..]) + [Line];
      ArgumentsMean(args[1..]);
      PieceMeans(Quoted(args[0]), next);
      PieceMeans(Space, [Quoted(args[0])] + next);
      assert ArgumentPieces(args) + [Line] == [Space] + ([Quoted(args[0])] + next);
      assert AllNulFree(args) <==> NulFree(args[0]) && AllNulFree(args[1..]) by {
        assert args == [args[0]] + args[1..];
      }
    }
  }

  lemma EmptyMeans()
    ensures WellFormed([]) && Meaning([]) == [] && Clean([])
  {
  }

  lemma ExecMeans(exe: string, args: seq<string>)
    ensures var ps := ExecLine(exe, args);
      && WellFormed(ps) && ps[0] == Bare("exec")
      && Meaning(ps) == [Word("exec")] + ([Word(exe)] + (Words(args) + [NewLine]))
      && (Clean(ps) <==> NulFree(exe) && AllNulFree(args))
  {
    hide NulFree, WellFormed, Meaning, Clean, AllNulFree, Words, ArgumentPieces, Plain;
    PlainWords();
    var a := ArgumentPieces(args) + [Line];
    ArgumentsMean(args);
    PieceMeans(Quoted(exe), a);
    PieceMeans(Space, [Quoted(exe)] + a);
    PieceMeans(Bare("exec"), [Space] + ([Quoted(exe)] + a));
  }

  lemma PlainWords()
    ensures Plain("exit") && Plain("126") && Plain("cd") && Plain("--") && Plain("exec")
  {
  }

  lemma ExitMeans(next: seq<Piece>)
    requires WellFormed(next)
    ensures WellFormed(ExitThen(next)) && ExitThen(next)[0] == Bare("exit")
    ensures Meaning(ExitThen(next)) == ExitTokens(Meaning(next)) && (Clean(ExitThen(next)) <==> Clean(next))
  {
    hide NulFree, WellFormed, Meaning, Clean, Plain;
    PlainWords();
    PieceMeans(Line, next);
    PieceMeans(Bare("126"), [Line] + next);
    PieceMeans(Space, [Bare("126")] + ([Line] + next));
    PieceMeans(Bare("exit"), [Space] + ([Bare("126")] + ([Line] + next)));
  }

  lemma OrExitMeans(next: seq<Piece>)
    requires WellFormed(next)
    ensures WellFormed(OrExitThen(next)) && OrExitThen(next)[0] == Space
    ensures Meaning(OrExitThen(next)) == OrExitTokens(Meaning(next)) && (Clean(OrExitThen(next)) <==> Clean(next))
  {
    hide NulFree, WellFormed, Meaning, Clean, ExitThen, ExitTokens;
    var b := ExitThen(next);
    ExitMeans(next);
    PieceMeans(Space, b);
    PieceMeans(Or, [Space] + b);
    PieceMeans(Space, [Or] + ([Space] + b));
  }

  lemma DirectoryMeans(cwd: string, next: seq<Piece>)
    requires WellFormed(next)
    ensures WellFormed(DirectoryThen(cwd, next)) && DirectoryThen(cwd, next)[0] == Bare("--")
    ensures Meaning(DirectoryThen(cwd, next)) == [Word("--")] + ([Word(cwd)] + OrExitTokens(Meaning(next)))
    ensures Clean(DirectoryThen(cwd, next)) <==> NulFree(cwd) && Clean(next)
  {
    hide NulFree, WellFormed, Meaning, Clean, OrExitThen, OrExitTokens, Plain;
    PlainWords();
    OrExitMeans(next);
    PieceMeans(Quoted(cwd), OrExitThen(next));
    PieceMeans(Space, [Quoted(cwd)] + OrExitThen(next));
    PieceMeans(Bare("--"), [Space] + ([Quoted(cwd)] + OrExitThen(next)));
  }

  lemma CdMeans(cwd: string, next: seq<Piece>)
    requires cwd != "" && WellFormed(next)
    ensures WellFormed(CdThen(cwd, next))
    ensures Meaning(CdThen(cwd, next)) ==
      [Word("cd")] + ([Word("--")] + ([Word(cwd)] + OrExitTokens(Meaning(next))))
    ensures Clean(CdThen(cwd, next)) <==> NulFree(cwd) && Clean(next)
  {
    hide NulFree, WellFormed, Meaning, Clean, DirectoryThen, OrExitTokens, Plain;
    PlainWords();
    var a := DirectoryThen(cwd, next);
    DirectoryMeans(cwd, next);
    PieceMeans(Space, a);
    PieceMeans(Bare("cd"), [Space] + a);
  }

  /**
   * The recovery script round trip: for every working directory, executable and argument list the shell reads exactly
   * the intended words, quotes, line breaks, blanks and empty strings included, and it does so exactly when none of
   * them contains a NUL.
   */
  lemma ScriptRoundTrip(cwd: string, exe: string, args: seq<string>)
    requires args != []
    ensures Lex(Render(Script(cwd, exe, args))) ==
      (if NulFree(cwd) && NulFree(exe) && AllNulFree(args[1..]) then Some(Intended(cwd, exe, args)) else None)
  {
    hide Lex, Render, WellFormed, Meaning, Clean, ExecLine, OrExitTokens;
    var exec := ExecLine(exe, args[1..]);
    ExecMeans(exe, args[1..]);
    if cwd != "" {
      CdMeans(cwd, exec);
    }
    PieceMeans(Line, CdThen(cwd, exec));
    PieceMeans(Comment("!/bin/sh"), [Line] + CdThen(cwd, exec));
    RenderedLexes(Script(cwd, exe, args));
  }
}
