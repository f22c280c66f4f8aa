/**
 * Command-line redaction and the restart guard of agent/helper.go: sanitizeArgs, which prepares arguments for display,
 * and hasSensitiveRestartArgs, which decides whether they may be stored for a restart.
 */
module Redaction {
  import opened Basics

  const MASK := "******"

  /** What net/url makes of an argument: the argument with its user info masked, if it has any. */
  type UrlParser = string -> Option<string>

  // ---------- Recognising sensitive arguments ----------

  function LowerChar(c: char): char {
    if 'A' <= c <= 'Z' then c - 'A' + 'a' else c
  }

  function Lower(s: string): string {
    seq(|s|, i requires 0 <= i < |s| => LowerChar(s[i]))
  }

  predicate OccursAt(s: string, part: string, i: nat) {
    i + |part| <= |s| && s[i..i + |part|] == part
  }

  predicate Contains(s: string, part: string) {
    exists i | 0 <= i <= |s| :: OccursAt(s, part, i)
  }

  predicate ContainsAny(s: string, parts: seq<string>) {
    exists i :: 0 <= i < |parts| && Contains(s, parts[i])
  }

  function TrimDashes(s: string): string {
    if s != "" && s[0] == '-' then TrimDashes(s[1..]) else s
  }

  const FLAG_WORDS := ["password", "passwd", "token", "secret", "api-key", "apikey", "authorization", "auth",
                       "private-key", "access-key"]

  const INLINE_WORDS := ["authorization:", "proxy-authorization:", "bearer ", "password=", "passwd=", "token=",
                         "secret=", "api_key=", "apikey=", "api-key=", "access_key=", "private_key="]

  predicate SensitiveArg(s: string) {
    ContainsAny(Lower(TrimDashes(s)), FLAG_WORDS)
  }

  predicate SensitiveInlineValue(s: string) {
    ContainsAny(Lower(s), INLINE_WORDS)
  }

  /** strings.IndexByte: the first position of c, or -1. */
  function IndexOf(s: string, c: char): (i: int)
    ensures -1 <= i < |s|
    ensures i >= 0 ==> s[i] == c && c !in s[..i]
    ensures i < 0 <==> c !in s
  {
    if s == "" then -1
    else if s[0] == c then 0
    else
      var i := IndexOf(s[1..], c);
      assert s == [s[0]] + s[1..];
      if i < 0 then -1
      else
        assert s[..i + 1] == [s[0]] + s[1..][..i];
        i + 1
  }

  /** "key=value" with a sensitive key. */
  predicate SensitiveAssignment(a: string) {
    var i := IndexOf(a, '=');
    i > 0 && SensitiveArg(a[..i])
  }

  predicate SensitiveFlag(a: string) {
    a != "" && a[0] == '-' && SensitiveArg(a)
  }

  /** redactURLUserInfo: only arguments that look like a URL with user info are handed to the parser. */
  predicate HasUserInfo(url: UrlParser, a: string) {
    Contains(a, "://") && Contains(a, "@") && url(a).Some?
  }

  function RedactedUrl(url: UrlParser, a: string): string {
    if HasUserInfo(url, a) then url(a).value else a
  }

  predicate Sensitive(url: UrlParser, a: string) {
    SensitiveAssignment(a) || SensitiveInlineValue(a) || SensitiveFlag(a) || HasUserInfo(url, a)
  }

  // ---------- hasSensitiveRestartArgs ----------

  method HasSensitiveRestartArgs(url: UrlParser, args: seq<string>) returns (found: bool)
    ensures found <==> exists i :: 0 <= i < |args| && Sensitive(url, args[i])
  {
    for k := 0 to |args|
      invariant forall i :: 0 <= i < k ==> !Sensitive(url, args[i])
    {
      var a := args[k];
      var i := IndexOf(a, '=');
      if i > 0 && SensitiveArg(a[..i]) {
        return true;
      }
      if SensitiveInlineValue(a) {
        return true;
      }
      if a != "" && a[0] == '-' && SensitiveArg(a) {
        return true;
      }
      if Contains(a, "://") && Contains(a, "@") {
        if url(a).Some? {
          return true;
        }
      }
    }
    return false;
  }

  // ---------- sanitizeArgs ----------

  /** How one argument is shown when it is not masked because of the flag before it. */
  function Shown(url: UrlParser, a: string): string {
    if SensitiveAssignment(a) then a[..IndexOf(a, '=')] + "=" + MASK
    else if SensitiveInlineValue(a) then MASK
    else RedactedUrl(url, a)
  }

  /** Whether an argument shown this way makes the next one be masked. */
  predicate MasksNext(url: UrlParser, a: string) {
    !SensitiveAssignment(a) && !SensitiveInlineValue(a) && SensitiveFlag(RedactedUrl(url, a))
  }

  /** Whether argument i is masked because of its predecessor: a masked argument never masks the next. */
  predicate MaskedAt(url: UrlParser, args: seq<string>, i: nat)
    requires i <= |args|
  {
    i > 0 && !MaskedAt(url, args, i - 1) && MasksNext(url, args[i - 1])
  }

  function Joined(items: seq<string>): string {
    if items == [] then ""
    else if |items| == 1 then items[0]
    else Joined(items[..|items| - 1]) + " " + items[|items| - 1]
  }

  /** The shown item of every argument. */
  function Items(url: UrlParser, args: seq<string>): (items: seq<string>)
    ensures |items| == |args|
  {
    seq(|args|, i requires 0 <= i < |args| => if MaskedAt(url, args, i) then MASK else Shown(url, args[i]))
  }

  method SanitizeArgs(url: UrlParser, args: seq<string>) returns (text: string)
    ensures text == Joined(Items(url, args))
  {
    hide SensitiveArg, SensitiveInlineValue, Contains, Joined;
    if |args| == 0 {
      EmptyJoined();
      return "";
    }
    var out: seq<string> := [];
    var redactNext := false;
    for k := 0 to |args|
      invariant |out| == k && forall i :: 0 <= i < k ==> out[i] == Items(url, args)[i]
      invariant redactNext == MaskedAt(url, args, k)
    {
      var a := args[k];
      if redactNext {
        out := out + [MASK];
        redactNext := false;
        continue;
      }
      var i := IndexOf(a, '=');
      if i > 0 && SensitiveArg(a[..i]) {
        out := out + [a[..i] + "=" + MASK];
        continue;
      }
      if SensitiveInlineValue(a) {
        out := out + [MASK];
        continue;
      }
      a := RedactedUrl(url, a);
      out := out + [a];
      if a != "" && a[0] == '-' && SensitiveArg(a) {
        redactNext := true;
      }
    }
    assert out == Items(url, args);
    text := Joined(out);
  }

  lemma EmptyJoined()
    ensures Joined([]) == ""
  {
  }

  // ---------- How the two agree ----------

  /** Arguments that pass the restart guard are shown exactly as they are. */
  lemma UnguardedArgsShownVerbatim(url: UrlParser, args: seq<string>)
    requires forall i :: 0 <= i < |args| ==> !Sensitive(url, args[i])
    ensures Items(url, args) == args
  {
    hide SensitiveArg, SensitiveInlineValue;
    forall i | 0 <= i < |args| ensures !MaskedAt(url, args, i) && Items(url, args)[i] == args[i] {
      assert !Sensitive(url, args[i]);
      assert i > 0 ==> !Sensitive(url, args[i - 1]);
    }
  }

  /** Display hides something: a value, an inline secret, user info, or whatever would follow a sensitive flag. */
  ghost predicate Hides(url: UrlParser, args: seq<string>) {
    || (exists i :: 0 <= i <= |args| && MaskedAt(url, args, i))
    || (exists i :: 0 <= i < |args| &&
          (SensitiveAssignment(args[i]) || SensitiveInlineValue(args[i]) || HasUserInfo(url, args[i])))
  }

  /** The restart guard fires exactly when display would hide something, or would hide a next argument. */
  lemma GuardMatchesDisplay(url: UrlParser, args: seq<string>)
    ensures (exists i :: 0 <= i < |args| && Sensitive(url, args[i])) <==> Hides(url, args)
  {
    hide SensitiveArg, SensitiveInlineValue, Contains;
    forall i | 0 <= i < |args| && Sensitive(url, args[i]) ensures Hides(url, args) {
      if SensitiveFlag(args[i]) && !MaskedAt(url, args, i) && !HasUserInfo(url, args[i]) {
        assert SensitiveAssignment(args[i]) || SensitiveInlineValue(args[i]) || MaskedAt(url, args, i + 1);
      }
    }
    forall i | 0 < i <= |args| && MaskedAt(url, args, i) ensures Sensitive(url, args[i - 1]) {
    }
    assert !MaskedAt(url, args, 0);
  }

  /** After an emitted sensitive flag comes a mask, and the mask is never skipped over by a second flag. */
  lemma FlagValueMasked(url: UrlParser, args: seq<string>, i: nat)
    requires i + 1 < |args| && !MaskedAt(url, args, i) && MasksNext(url, args[i])
    ensures Items(url, args)[i + 1] == MASK
    ensures i + 2 <= |args| ==> !MaskedAt(url, args, i + 2)
  {
  }

  // ---------- Nothing that is hidden can be recovered ----------

  /** Two arguments that differ only in what is hidden: a sensitive key's value, an inline secret, or user info. */
  ghost predicate SameWhenShown(url: UrlParser, a: string, b: string) {
    a == b
    || (SensitiveAssignment(a) && SensitiveAssignment(b) && a[..IndexOf(a, '=')] == b[..IndexOf(b, '=')])
    || (!SensitiveAssignment(a) && !SensitiveAssignment(b) && SensitiveInlineValue(a) && SensitiveInlineValue(b))
    || (&& !SensitiveAssignment(a) && !SensitiveAssignment(b) && !SensitiveInlineValue(a) && !SensitiveInlineValue(b)
        && HasUserInfo(url, a) && HasUserInfo(url, b) && RedactedUrl(url, a) == RedactedUrl(url, b))
  }

  ghost predicate SameUpToSecrets(url: UrlParser, args: seq<string>, args': seq<string>) {
    && |args| == |args'|
    && forall i :: 0 <= i < |args| ==> MaskedAt(url, args, i) || SameWhenShown(url, args[i], args'[i])
  }

  lemma {:induction false} SameMasks(url: UrlParser, args: seq<string>, args': seq<string>, i: nat)
    requires SameUpToSecrets(url, args, args') && i <= |args|
    ensures MaskedAt(url, args, i) == MaskedAt(url, args', i)
  {
    if i > 0 {
      SameMasks(url, args, args', i - 1);
      hide SensitiveArg, SensitiveInlineValue;
      assert MaskedAt(url, args, i - 1) || SameWhenShown(url, args[i - 1], args'[i - 1]);
    }
  }

  /**
   * The displayed command line is a function of its public part: changing only secrets, in the value of a sensitive
   * key, in an inline credential, in a URL's user info, or in the argument after a sensitive flag, does not change what
   * is displayed.
   */
  lemma SecretsDoNotShow(url: UrlParser, args: seq<string>, args': seq<string>)
    requires SameUpToSecrets(url, args, args')
    ensures Joined(Items(url, args)) == Joined(Items(url, args'))
  {
    hide SensitiveArg, SensitiveInlineValue;
    forall i | 0 <= i < |args| ensures Items(url, args)[i] == Items(url, args')[i] {
      SameMasks(url, args, args', i);
      assert MaskedAt(url, args, i) || SameWhenShown(url, args[i], args'[i]);
    }
    assert Items(url, args) == Items(url, args');
  }
}
