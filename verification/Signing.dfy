/** The agent's request signature: decimal timestamps, the signed message, and the "id.secret" authorization string. */
module Signing {
  import opened Basics

  const INT64_LIMIT := 0x8000_0000_0000_0000

  // ---------- strconv.FormatInt and strconv.ParseInt, base 10, 64 bits ----------

  function Digit(d: int): char
    requires 0 <= d < 10
  {
    '0' + d as char
  }

  function DecimalDigits(n: nat): string {
    if n < 10 then [Digit(n)] else DecimalDigits(n / 10) + [Digit(n % 10)]
  }

  function FormatInt(n: int): string {
    if n < 0 then "-" + DecimalDigits(-n) else DecimalDigits(n)
  }

  function ParseDigits(s: string): Option<nat> {
    if s == "" then None
    else
      var c := s[|s| - 1];
      if !('0' <= c <= '9') then None
      else
        var d := c as int - '0' as int;
        if |s| == 1 then Some(d)
        else
          match ParseDigits(s[..|s| - 1])
          case None => None
          case Some(n) => Some(10 * n + d)
  }

  function ParseInt(s: string): Option<int> {
    if s == "" then None
    else
      var negative := s[0] == '-';
      var digits := if s[0] == '-' || s[0] == '+' then s[1..] else s;
      match ParseDigits(digits)
      case None => None
      case Some(n) =>
        var value := if negative then -(n as int) else n as int;
        if -INT64_LIMIT <= value < INT64_LIMIT then Some(value) else None
  }

  lemma {:induction false} ParseDecimalDigits(n: nat)
    ensures DecimalDigits(n) != "" && '0' <= DecimalDigits(n)[0] <= '9'
    ensures ParseDigits(DecimalDigits(n)) == Some(n)
  {
    if n >= 10 {
      ParseDecimalDigits(n / 10);
      var s := DecimalDigits(n);
      assert s[..|s| - 1] == DecimalDigits(n / 10);
    }
  }

  /** Every 64-bit timestamp survives being written into a header and read back. */
  lemma TimestampRoundTrip(n: int)
    requires -INT64_LIMIT <= n < INT64_LIMIT
    ensures FormatInt(n) != "" && ParseInt(FormatInt(n)) == Some(n)
  {
    ParseDecimalDigits(if n < 0 then -n else n);
  }

  predicate AllDigits(s: string) {
    forall i :: 0 <= i < |s| ==> '0' <= s[i] <= '9'
  }

  /** The number a string of digits stands for, read from the left. */
  function ValueOf(s: string, before: nat): nat
    requires AllDigits(s)
  {
    if s == "" then before else ValueOf(s[1..], 10 * before + (s[0] as int - '0' as int))
  }

  lemma {:induction false} ValueOfSnoc(s: string, before: nat, c: char)
    requires AllDigits(s) && '0' <= c <= '9'
    ensures AllDigits(s + [c]) && ValueOf(s + [c], before) == 10 * ValueOf(s, before) + (c as int - '0' as int)
  {
    var t := s + [c];
    if s == "" {
      assert t[1..] == "";
    } else {
      assert t[1..] == s[1..] + [c];
      ValueOfSnoc(s[1..], 10 * before + (s[0] as int - '0' as int), c);
    }
  }

  lemma ParseDigitsSnoc(front: string, c: char)
    ensures ParseDigits(front + [c]) ==
      if !('0' <= c <= '9') then None
      else if front == "" then Some(c as int - '0' as int)
      else match ParseDigits(front)
           case None => None
           case Some(n) => Some(10 * n + (c as int - '0' as int))
    ensures ParseDigits("") == None
  {
    var s := front + [c];
    assert s[..|s| - 1] == front && s[|s| - 1] == c;
  }

  lemma {:induction false} ParseDigitsExactly(s: string)
    ensures ParseDigits(s).Some? <==> s != "" && AllDigits(s)
    ensures s != "" && AllDigits(s) ==> ParseDigits(s) == Some(ValueOf(s, 0))
  {
    hide ParseDigits, ValueOf, AllDigits;
    ParseDigitsSnoc("", '0');
    NoDigits();
    if s != "" {
      var front, c := s[..|s| - 1], s[|s| - 1];
      assert s == front + [c];
      ParseDigitsExactly(front);
      ParseDigitsSnoc(front, c);
      AllDigitsSnoc(front, c);
      if AllDigits(front) && '0' <= c <= '9' {
        ValueOfSnoc(front, 0, c);
      }
    }
  }

  lemma AllDigitsSnoc(s: string, c: char)
    ensures AllDigits(s + [c]) <==> AllDigits(s) && '0' <= c <= '9'
  {
    assert forall i :: 0 <= i < |s| ==> (s + [c])[i] == s[i];
    assert (s + [c])[|s|] == c;
  }

  lemma NoDigits()
    ensures AllDigits("") && ValueOf("", 0) == 0
  {
  }

  function ParsedValue(sign: string, digits: string): int
    requires AllDigits(digits)
  {
    var n: int := ValueOf(digits, 0);
    if sign == "-" then -n else n
  }

  /** Exactly which headers are timestamps: an optional sign, at least one digit and no other character, and 64 bits. */
  lemma TimestampsExactly(sign: string, digits: string)
    requires sign == "" || sign == "+" || sign == "-"
    requires digits == "" || (digits[0] != '+' && digits[0] != '-')
    ensures ParseInt(sign + digits).Some? <==>
      && digits != "" && AllDigits(digits)
      && -0x8000_0000_0000_0000 <= ParsedValue(sign, digits) < 0x8000_0000_0000_0000
    ensures ParseInt(sign + digits).Some? ==>
      AllDigits(digits) && ParseInt(sign + digits).value == ParsedValue(sign, digits)
  {
    var s := sign + digits;
    ParseDigitsExactly(digits);
    hide ParseDigits, ValueOf;
    if sign == "" {
      assert s == digits;
    } else {
      assert s[1..] == digits && s[0] == sign[0];
    }
  }

  /** Several headers denote the same second, so the timestamp text itself has to be signed. */
  lemma TimestampTextNotUnique()
    ensures ParseInt("+7") == ParseInt("7") == ParseInt("07") == Some(7)
  {
    assert ParseDigits("0") == Some(0);
    assert "07"[..1] == "0" && "+7"[1..] == "7";
  }

  // ---------- The signed message ----------

  /** A keyed hash with hexadecimal (so never empty) output, and a body hash; both are left uninterpreted. */
  type Signature = s: string | s != "" witness "0"
  datatype Crypto = Crypto(mac: (string, string) -> Signature, bodyHash: string -> string)

  function Message(httpMethod: string, uri: string, timestamp: string, nonce: string, bodyHash: string): string {
    httpMethod + "\n" + (uri + "\n" + (timestamp + "\n" + (nonce + "\n" + bodyHash)))
  }

  predicate OneLine(s: string) {
    '\n' !in s
  }

  lemma FirstLineUnique(a: string, rest: string, a': string, rest': string)
    requires OneLine(a) && OneLine(a') && a + "\n" + rest == a' + "\n" + rest'
    ensures a == a' && rest == rest'
  {
    var s, s' := a + "\n" + rest, a' + "\n" + rest';
    assert s[|a|] == '\n' && s'[|a'|] == '\n';
    assert forall i :: 0 <= i < |a| ==> s[i] == a[i];
    assert forall i :: 0 <= i < |a'| ==> s'[i] == a'[i];
    assert |a| == |a'|;
    assert s[..|a|] == a && s'[..|a|] == a';
    assert s[|a| + 1..] == rest && s'[|a| + 1..] == rest';
  }

  /** One signed message belongs to one request, because no header or request line contains a line break. */
  lemma MessageInjective(
    m: string, u: string, t: string, n: string, h: string, m': string, u': string, t': string, n': string, h': string)
    requires OneLine(m) && OneLine(u) && OneLine(t) && OneLine(n)
    requires OneLine(m') && OneLine(u') && OneLine(t') && OneLine(n')
    requires Message(m, u, t, n, h) == Message(m', u', t', n', h')
    ensures m == m' && u == u' && t == t' && n == n' && h == h'
  {
    FirstLineUnique(m, u + "\n" + (t + "\n" + (n + "\n" + h)), m', u' + "\n" + (t' + "\n" + (n' + "\n" + h')));
    FirstLineUnique(u, t + "\n" + (n + "\n" + h), u', t' + "\n" + (n' + "\n" + h'));
    FirstLineUnique(t, n + "\n" + h, t', n' + "\n" + h');
    FirstLineUnique(n, h, n', h');
  }

  /** The lines of a text. */
  function Lines(s: string): seq<string> {
    if s == "" then [""]
    else
      var rest := Lines(s[1..]);
      if s[0] == '\n' then [""] + rest else [[s[0]] + rest[0]] + rest[1..]
  }

  lemma {:induction false} LinesOf(line: string, rest: string)
    requires OneLine(line)
    ensures Lines(line + "\n" + rest) == [line] + Lines(rest)
    ensures Lines(line) == [line]
  {
    var s := line + "\n" + rest;
    if line == "" {
      assert s[1..] == rest;
    } else {
      assert s[0] == line[0] && s[1..] == line[1..] + "\n" + rest;
      LinesOf(line[1..], rest);
      assert [line[0]] + line[1..] == line;
      assert ([line[1..]] + Lines(rest))[1..] == Lines(rest) && [line[1..]][1..] == [];
    }
  }

  /** What is signed, line by line: method, request URI, timestamp, nonce and body hash, in this order. */
  lemma MessageLines(m: string, u: string, t: string, n: string, h: string)
    requires OneLine(m) && OneLine(u) && OneLine(t) && OneLine(n) && OneLine(h)
    ensures Lines(Message(m, u, t, n, h)) == [m, u, t, n, h]
  {
    LinesOf(m, u + "\n" + (t + "\n" + (n + "\n" + h)));
    LinesOf(u, t + "\n" + (n + "\n" + h));
    LinesOf(t, n + "\n" + h);
    LinesOf(n, h);
    LinesOf(h, "");
    hide Lines, OneLine;
  }

  /** With line breaks allowed in the fields the join would be ambiguous. */
  lemma MessageAmbiguousWithLineBreaks()
    ensures Message("a\nb", "c", "d", "e", "f") == Message("a", "b\nc", "d", "e", "f")
  {
    assert "a\nb" == "a" + "\n" + "b" && "b\nc" == "b" + "\n" + "c";
  }

  // ---------- "NodeID.Secret" ----------

  function Authorization(nodeID: string, secret: string): string {
    nodeID + "." + secret
  }

  /** strings.SplitN(s, ".", 2), when it yields two parts. */
  function SplitAtDot(s: string): Option<(string, string)> {
    if s == "" then None
    else if s[0] == '.' then Some(("", s[1..]))
    else
      match SplitAtDot(s[1..])
      case None => None
      case Some((a, b)) => Some(([s[0]] + a, b))
  }

  lemma {:induction false} SplitFindsFirstDot(s: string)
    ensures SplitAtDot(s).None? <==> '.' !in s
    ensures SplitAtDot(s).Some? ==>
      '.' !in SplitAtDot(s).value.0 && s == SplitAtDot(s).value.0 + "." + SplitAtDot(s).value.1
  {
    if s != "" && s[0] != '.' {
      SplitFindsFirstDot(s[1..]);
      assert s == [s[0]] + s[1..];
    }
  }

  /** The agent recovers its id and secret from the authorization string exactly when the id has no dot. */
  lemma AuthorizationSplits(nodeID: string, secret: string)
    ensures SplitAtDot(Authorization(nodeID, secret)) == Some((nodeID, secret)) <==> '.' !in nodeID
  {
    var s := Authorization(nodeID, secret);
    SplitFindsFirstDot(s);
    assert s[|nodeID|] == '.';
    var (a, b) := SplitAtDot(s).value;
    if '.' !in nodeID {
      assert s[|a|] == '.';
      assert forall i :: 0 <= i < |a| ==> s[i] == a[i];
      assert forall i :: 0 <= i < |nodeID| ==> s[i] == nodeID[i];
      assert s[..|a|] == a && s[..|nodeID|] == nodeID;
      assert s[|a| + 1..] == b && s[|nodeID| + 1..] == secret;
    }
  }
}
