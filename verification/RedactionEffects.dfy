/**
 * Which arguments the redaction recognises, word by word, and what is then displayed: stated over the text of the
 * arguments alone.
 */
module RedactionEffects {
  import opened Redaction

  // ---------- Searching ----------

  /** s holds part somewhere, at its beginning and its end too. */
  ghost predicate Holds(s: string, part: string) {
    exists pre, post :: s == pre + part + post
  }

  lemma ContainsExactly(s: string, part: string)
    ensures Contains(s, part) <==> Holds(s, part)
  {
    if Contains(s, part) {
      var i :| 0 <= i <= |s| && OccursAt(s, part, i);
      assert s == s[..i] + part + s[i + |part|..];
    }
    forall pre, post | s == pre + part + post ensures Contains(s, part) {
      assert s[|pre|..|pre| + |part|] == part;
      assert OccursAt(s, part, |pre|);
    }
  }

  lemma ContainsAnyExactly(s: string, parts: seq<string>)
    ensures ContainsAny(s, parts) <==> exists w :: w in parts && Holds(s, w)
  {
    hide Contains, Holds;
    forall i | 0 <= i < |parts| ensures Contains(s, parts[i]) <==> Holds(s, parts[i]) {
      ContainsExactly(s, parts[i]);
    }
    forall w | w in parts && Holds(s, w) ensures ContainsAny(s, parts) {
      var i :| 0 <= i < |parts| && parts[i] == w;
      assert Contains(s, parts[i]);
    }
  }

  // ---------- Case and dashes ----------

  /** Two letters that differ at most in case, as far as ASCII goes. */
  predicate SameLetter(c: char, low: char) {
    if 'A' <= c <= 'Z' then low as int == c as int + 32 else low == c
  }

  /** low is s in lower case. */
  ghost predicate Lowered(s: string, low: string) {
    |s| == |low| && forall i :: 0 <= i < |s| ==> SameLetter(s[i], low[i])
  }

  lemma LowerExactly(s: string, low: string)
    ensures Lowered(s, Lower(s))
    ensures Lowered(s, low) ==> low == Lower(s)
  {
    forall i | 0 <= i < |s| ensures SameLetter(s[i], Lower(s)[i]) {
    }
    if Lowered(s, low) {
      forall i | 0 <= i < |s| ensures low[i] == Lower(s)[i] {
        assert SameLetter(s[i], low[i]) && SameLetter(s[i], Lower(s)[i]);
      }
    }
  }

  ghost predicate Dashes(s: string) {
    forall i :: 0 <= i < |s| ==> s[i] == '-'
  }

  lemma {:induction false} TrimDashesExactly(dashes: string, rest: string)
    requires Dashes(dashes) && (rest == "" || rest[0] != '-')
    ensures TrimDashes(dashes + rest) == rest
  {
    if dashes == "" {
      assert dashes + rest == rest;
    } else {
      assert (dashes + rest)[1..] == dashes[1..] + rest;
      TrimDashesExactly(dashes[1..], rest);
    }
  }

  // ---------- The words ----------

  /**
   * An argument is a sensitive flag or key exactly when, its leading dashes aside and in whatever case, it holds one of
   * these ten words.
   */
  lemma SensitiveArgExactly(dashes: string, rest: string, low: string)
    requires Dashes(dashes) && (rest == "" || rest[0] != '-') && Lowered(rest, low)
    ensures SensitiveArg(dashes + rest) <==> exists w ::
      && w in ["password", "passwd", "token", "secret", "api-key", "apikey", "authorization", "auth", "private-key",
               "access-key"]
      && Holds(low, w)
  {
    TrimDashesExactly(dashes, rest);
    LowerExactly(rest, low);
    ContainsAnyExactly(low, FLAG_WORDS);
    hide ContainsAny, Holds, Lower, TrimDashes;
  }

  /** An argument is a credential by itself exactly when, in whatever case, it holds one of these twelve texts. */
  lemma SensitiveInlineExactly(a: string, low: string)
    requires Lowered(a, low)
    ensures SensitiveInlineValue(a) <==> exists w ::
      && w in ["authorization:", "proxy-authorization:", "bearer ", "password=", "passwd=", "token=", "secret=",
               "api_key=", "apikey=", "api-key=", "access_key=", "private_key="]
      && Holds(low, w)
  {
    LowerExactly(a, low);
    ContainsAnyExactly(low, INLINE_WORDS);
    hide ContainsAny, Holds, Lower;
  }

  // ---------- What that means for a command line ----------

  /** One of the ten words stands in a, in whatever case. */
  ghost predicate HoldsFlagWord(a: string) {
    exists low, w ::
      && Lowered(a, low)
      && w in ["password", "passwd", "token", "secret", "api-key", "apikey", "authorization", "auth", "private-key",
               "access-key"]
      && Holds(low, w)
  }

  /** One of the twelve texts stands in a, in whatever case. */
  ghost predicate HoldsInlineText(a: string) {
    exists low, w ::
      && Lowered(a, low)
      && w in ["authorization:", "proxy-authorization:", "bearer ", "password=", "passwd=", "token=", "secret=",
               "api_key=", "apikey=", "api-key=", "access_key=", "private_key="]
      && Holds(low, w)
  }

  lemma FlagWordExactly(dashes: string, rest: string)
    requires Dashes(dashes) && (rest == "" || rest[0] != '-')
    ensures SensitiveArg(dashes + rest) <==> HoldsFlagWord(rest)
  {
    hide Holds, SensitiveArg;
    var low0 := Lower(rest);
    LowerExactly(rest, low0);
    SensitiveArgExactly(dashes, rest, low0);
    forall low | Lowered(rest, low) ensures low == low0 {
      LowerExactly(rest, low);
    }
    hide Lower, Lowered;
  }

  lemma InlineTextExactly(a: string)
    ensures SensitiveInlineValue(a) <==> HoldsInlineText(a)
  {
    hide Holds, SensitiveInlineValue;
    var low0 := Lower(a);
    LowerExactly(a, low0);
    SensitiveInlineExactly(a, low0);
    forall low | Lowered(a, low) ensures low == low0 {
      LowerExactly(a, low);
    }
    hide Lower, Lowered;
  }

  lemma {:induction false} SplitDashes(a: string) returns (dashes: string, rest: string)
    ensures a == dashes + rest && Dashes(dashes) && (rest == "" || rest[0] != '-')
    ensures a != "" && a[0] == '-' ==> dashes != ""
  {
    if a == "" || a[0] != '-' {
      dashes, rest := "", a;
    } else {
      dashes, rest := SplitDashes(a[1..]);
      dashes := "-" + dashes;
      assert a == [a[0]] + a[1..];
    }
  }

  // ---------- Keys and values ----------

  /** What stands before the first '=' holds a sensitive word. */
  ghost predicate KeyHoldsWord(a: string) {
    exists dashes, rest, value ::
      && a == dashes + rest + "=" + value
      && Dashes(dashes) && (rest == "" || rest[0] != '-') && '=' !in rest && HoldsFlagWord(rest)
  }

  lemma KeyEnds(dashes: string, rest: string, value: string)
    requires Dashes(dashes) && '=' !in rest
    ensures var key := dashes + rest;
      IndexOf(key + "=" + value, '=') == |key| && (key + "=" + value)[..|key|] == key
  {
    var key := dashes + rest;
    var a := key + "=" + value;
    var x := IndexOf(a, '=');
    assert a[|key|] == '=';
    assert forall i :: 0 <= i < |key| ==>
      a[i] == key[i] && (if i < |dashes| then key[i] == '-' else key[i] == rest[i - |dashes|]);
  }

  lemma FlagWordNotEmpty(rest: string)
    requires HoldsFlagWord(rest)
    ensures rest != ""
  {
  }

  lemma AssignmentExactly(a: string)
    ensures SensitiveAssignment(a) <==> KeyHoldsWord(a)
  {
    hide SensitiveArg, HoldsFlagWord;
    var x := IndexOf(a, '=');
    if x > 0 {
      var dashes, rest := SplitDashes(a[..x]);
      FlagWordExactly(dashes, rest);
      assert a == dashes + rest + "=" + a[x + 1..];
      assert forall i :: 0 <= i < |rest| ==> rest[i] == a[..x][|dashes| + i];
    }
    forall dashes, rest, value |
      && a == dashes + rest + "=" + value
      && Dashes(dashes) && (rest == "" || rest[0] != '-') && '=' !in rest && HoldsFlagWord(rest)
      ensures SensitiveAssignment(a)
    {
      KeyEnds(dashes, rest, value);
      FlagWordExactly(dashes, rest);
      FlagWordNotEmpty(rest);
    }
  }

  /** A sensitive key: the value is masked, unless the argument is masked already, and the restart guard fires. */
  lemma AssignmentHidesValue(url: UrlParser, args: seq<string>, i: nat, dashes: string, rest: string, value: string)
    requires i < |args| && args[i] == dashes + rest + "=" + value
    requires Dashes(dashes) && (rest == "" || rest[0] != '-') && HoldsFlagWord(rest) && '=' !in rest
    ensures Sensitive(url, args[i])
    ensures Items(url, args)[i] == (if MaskedAt(url, args, i) then "******" else dashes + rest + "=******")
  {
    var a, key := args[i], dashes + rest;
    AssignmentExactly(a);
    KeyEnds(dashes, rest, value);
    hide SensitiveArg, SensitiveInlineValue, SensitiveAssignment, Contains, HoldsFlagWord;
    assert KeyHoldsWord(a);
    assert key + "=" + MASK == key + "=******";
  }

  // ---------- Flags ----------

  /** Every flag with a sensitive word makes the restart guard fire. */
  lemma FlagIsGuarded(url: UrlParser, dashes: string, rest: string)
    requires dashes != "" && Dashes(dashes) && (rest == "" || rest[0] != '-') && HoldsFlagWord(rest)
    ensures Sensitive(url, dashes + rest)
  {
    FlagWordExactly(dashes, rest);
    hide SensitiveArg, SensitiveInlineValue, Contains, HoldsFlagWord;
  }

  /** It may be the URL parser's business. */
  ghost predicate LooksLikeUrl(a: string) {
    Holds(a, "://") && Holds(a, "@")
  }

  /**
   * And the item after it is masked, unless the flag itself was: if it is not an assignment with its own value, not a
   * credential by itself, and not a URL with user info. A flag in first place is displayed as it is.
   */
  lemma FlagHidesNext(url: UrlParser, args: seq<string>, i: nat, dashes: string, rest: string)
    requires i < |args| && args[i] == dashes + rest
    requires dashes != "" && Dashes(dashes) && (rest == "" || rest[0] != '-') && HoldsFlagWord(rest)
    requires !KeyHoldsWord(args[i]) && !HoldsInlineText(args[i]) && !LooksLikeUrl(args[i])
    ensures i + 1 < |args| ==> MaskedAt(url, args, i) || Items(url, args)[i + 1] == "******"
    ensures i == 0 ==> Items(url, args)[i] == args[i]
  {
    var a := args[i];
    FlagWordExactly(dashes, rest);
    AssignmentExactly(a);
    InlineTextExactly(a);
    ContainsExactly(a, "://");
    ContainsExactly(a, "@");
    hide SensitiveArg, SensitiveInlineValue, SensitiveAssignment, Contains;
    hide HoldsFlagWord, KeyHoldsWord, HoldsInlineText;
    assert MasksNext(url, a);
  }

  /** A credential by itself is masked whole, unless it is an assignment whose value is; the restart guard fires. */
  lemma InlineTextHidden(url: UrlParser, args: seq<string>, i: nat)
    requires i < |args| && HoldsInlineText(args[i])
    ensures Sensitive(url, args[i])
    ensures KeyHoldsWord(args[i]) || Items(url, args)[i] == "******"
  {
    InlineTextExactly(args[i]);
    AssignmentExactly(args[i]);
    hide SensitiveArg, SensitiveInlineValue, SensitiveAssignment, HoldsInlineText, KeyHoldsWord;
  }

  /**
   * The restart guard in full: it fires exactly for a sensitive key with a value, a credential by itself, a flag with a
   * sensitive word, or a URL in which the parser finds user info.
   */
  lemma GuardExactly(url: UrlParser, a: string)
    ensures Sensitive(url, a) <==>
      || KeyHoldsWord(a) || HoldsInlineText(a)
      || (exists dashes, rest ::
            && a == dashes + rest && dashes != "" && Dashes(dashes) && (rest == "" || rest[0] != '-')
            && HoldsFlagWord(rest))
      || (LooksLikeUrl(a) && url(a).Some?)
  {
    AssignmentExactly(a);
    InlineTextExactly(a);
    ContainsExactly(a, "://");
    ContainsExactly(a, "@");
    FlagExactly(a);
    hide SensitiveArg, SensitiveInlineValue, SensitiveAssignment, Contains;
    hide HoldsFlagWord, KeyHoldsWord, HoldsInlineText;
  }

  lemma FlagExactly(a: string)
    ensures SensitiveFlag(a) <==> exists dashes, rest ::
      && a == dashes + rest && dashes != "" && Dashes(dashes) && (rest == "" || rest[0] != '-') && HoldsFlagWord(rest)
  {
    hide SensitiveArg, HoldsFlagWord;
    var d, r := SplitDashes(a);
    FlagWordExactly(d, r);
    forall dashes, rest |
      && a == dashes + rest && dashes != "" && Dashes(dashes) && (rest == "" || rest[0] != '-') && HoldsFlagWord(rest)
      ensures SensitiveFlag(a)
    {
      FlagWordExactly(dashes, rest);
    }
  }

  // ---------- The plainest case ----------

  lemma PasswordIsWord()
    ensures HoldsFlagWord("password")
  {
    var none := "";
    assert "password" == none + "password" + none;
    assert Holds("password", "password") && Lowered("password", "password");
  }

  lemma NoneOf(a: string)
    requires '=' !in a && ':' !in a && ' ' !in a
    ensures !KeyHoldsWord(a) && !HoldsInlineText(a) && !LooksLikeUrl(a)
  {
    forall dashes: string, rest: string, value: string ensures a != dashes + rest + "=" + value {
      assert (dashes + rest + "=" + value)[|dashes + rest|] == '=';
    }
    forall pre: string, post: string ensures a != pre + "://" + post {
      assert (pre + "://" + post)[|pre|] == ':';
    }
    forall low, w, pre, post | Lowered(a, low) && low == pre + w + post && w != ""
      ensures w[|w| - 1] !in ['=', ':', ' ']
    {
      assert low[|pre| + |w| - 1] == w[|w| - 1];
      assert SameLetter(a[|pre| + |w| - 1], low[|pre| + |w| - 1]);
    }
  }

  lemma JoinedTwo(x: string, y: string)
    ensures Joined([x, y]) == x + " " + y
  {
    assert [x, y][..1] == [x];
  }

  /** A sensitive flag and one more argument. */
  lemma FlagAndValue(url: UrlParser, dashes: string, rest: string, value: string)
    requires dashes != "" && Dashes(dashes) && (rest == "" || rest[0] != '-') && HoldsFlagWord(rest)
    requires !KeyHoldsWord(dashes + rest) && !HoldsInlineText(dashes + rest) && !LooksLikeUrl(dashes + rest)
    ensures Joined(Items(url, [dashes + rest, value])) == dashes + rest + " " + "******"
  {
    hide *;
    var args := [dashes + rest, value];
    FirstNotMasked(url, args);
    FlagHidesNext(url, args, 0, dashes, rest);
    var items := Items(url, args);
    assert items == [items[0], items[1]];
    JoinedTwo(items[0], items[1]);
  }

  lemma FirstNotMasked(url: UrlParser, args: seq<string>)
    ensures !MaskedAt(url, args, 0)
  {
  }

  lemma PasswordFlagText()
    ensures Dashes("--") && "--" + "password" == "--password"
    ensures "--" + "password" + " " + "******" == "--password ******"
  {
  }

  /** A password after --password is not displayed, and such a command line is not stored. */
  lemma PasswordFlag(url: UrlParser, password: string)
    ensures Joined(Items(url, ["--password", password])) == "--password ******"
    ensures Sensitive(url, "--password")
  {
    hide *;
    PasswordIsWord();
    NoneOf("--" + "password");
    PasswordFlagText();
    FlagIsGuarded(url, "--", "password");
    FlagAndValue(url, "--", "password", password);
  }
}
