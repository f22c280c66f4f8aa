/** Definitions the models share: an optional value and the Unix-second view of a nanosecond clock. */
module Basics {
  datatype Option<+T> = None | Some(value: T)

  const SECOND := 1_000_000_000

  /** time.Time.Unix: the whole seconds of an instant given in nanoseconds, rounded down. */
  function Unix(ns: int): int {
    ns / SECOND
  }

  /** small keeps some elements of big, in their order. */
  ghost predicate Subsequence<T>(small: seq<T>, big: seq<T>) {
    if small == [] then true
    else if big == [] then false
    else if small[|small| - 1] == big[|big| - 1] && Subsequence(small[..|small| - 1], big[..|big| - 1]) then true
    else Subsequence(small, big[..|big| - 1])
  }

  lemma {:induction false} SubsequenceRefl<T>(s: seq<T>)
    ensures Subsequence(s, s)
  {
    if s != [] {
      SubsequenceRefl(s[..|s| - 1]);
    }
  }

  /** Extending the long sequence, or both, keeps the relation. */
  lemma SubsequenceSnoc<T>(small: seq<T>, big: seq<T>, x: T)
    requires Subsequence(small, big)
    ensures Subsequence(small, big + [x]) && Subsequence(small + [x], big + [x])
  {
    assert (big + [x])[..|big|] == big;
    assert (small + [x])[..|small|] == small;
  }

  ghost predicate Distinct<T>(s: seq<T>) {
    forall i, j :: 0 <= i < j < |s| ==> s[i] != s[j]
  }

  lemma {:induction false} SubsequenceIn<T>(small: seq<T>, big: seq<T>, x: T)
    requires Subsequence(small, big) && x in small
    ensures x in big
  {
    if big != [] && x != small[|small| - 1] {
      assert x in small[..|small| - 1];
    }
    if big != [] && !(small[|small| - 1] == big[|big| - 1] && Subsequence(small[..|small| - 1], big[..|big| - 1])) {
      SubsequenceIn(small, big[..|big| - 1], x);
    } else if x in small[..|small| - 1] {
      SubsequenceIn(small[..|small| - 1], big[..|big| - 1], x);
    }
  }

  /** A subsequence of distinct elements has distinct elements. */
  lemma {:induction false} SubsequenceDistinct<T>(small: seq<T>, big: seq<T>)
    requires Subsequence(small, big) && Distinct(big)
    ensures Distinct(small)
  {
    if small != [] {
      var front, last := small[..|small| - 1], small[|small| - 1];
      var rest := big[..|big| - 1];
      if last == big[|big| - 1] && Subsequence(front, rest) {
        SubsequenceDistinct(front, rest);
        forall i | 0 <= i < |front| ensures front[i] != last {
          SubsequenceIn(front, rest, front[i]);
        }
      } else {
        SubsequenceDistinct(small, rest);
      }
    }
  }

  lemma {:induction false} SubsequenceTrans<T>(a: seq<T>, b: seq<T>, c: seq<T>)
    requires Subsequence(a, b) && Subsequence(b, c)
    ensures Subsequence(a, c)
    decreases |b| + |c|
  {
    if a != [] {
      var a0, b0, c0 := a[..|a| - 1], b[..|b| - 1], c[..|c| - 1];
      if b[|b| - 1] == c[|c| - 1] && Subsequence(b0, c0) {
        if a[|a| - 1] == b[|b| - 1] && Subsequence(a0, b0) {
          SubsequenceTrans(a0, b0, c0);
        } else {
          SubsequenceTrans(a, b0, c0);
        }
      } else {
        SubsequenceTrans(a, b, c0);
      }
    }
  }
}
