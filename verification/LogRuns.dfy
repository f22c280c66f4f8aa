/** Properties of whole runs of the log writer: nothing but the oldest text is ever missing, and disk use is bounded. */
module LogRuns {
  import opened Basics
  import opened LogFiles

  // ---------- Reading the directory from oldest to newest ----------

  /** The history files by age: each once, each older than the next, all older than the active file. */
  ghost predicate Ordered(dir: Dir, order: seq<Name>) {
    && Active in dir
    && (forall i :: 0 <= i < |order| ==> order[i] in dir && order[i] != Active && dir[order[i]].time < dir[Active].time)
    && (forall n :: n in dir && n != Active ==> n in order)
    && (forall i, j :: 0 <= i < j < |order| ==> Older(dir, order, i, j))
  }

  ghost predicate Older(dir: Dir, order: seq<Name>, i: nat, j: nat) {
    i < |order| && j < |order| && order[i] in dir && order[j] in dir && dir[order[i]].time < dir[order[j]].time
  }

  /** The texts of these files, one after the other. */
  function Concatenated(dir: Dir, order: seq<Name>): string {
    if order == [] then ""
    else
      var last := order[|order| - 1];
      Concatenated(dir, order[..|order| - 1]) + (if last in dir then dir[last].text else "")
  }

  /** lost is the front of everything written since the last clear; the directory holds the rest, in order. */
  ghost predicate HoldsSuffix(s: State, written: string, lost: string, order: seq<Name>) {
    && Ordered(s.dir, order)
    && written == lost + Concatenated(s.dir, order) + ActiveText(s.dir)
  }

  ghost predicate NoFileAfter(dir: Dir, now: int) {
    forall n :: n in dir ==> dir[n].time <= now
  }

  lemma {:induction false} ConcatenatedFrame(dir: Dir, dir': Dir, order: seq<Name>)
    requires forall i :: 0 <= i < |order| ==>
      order[i] in dir && order[i] in dir' && dir[order[i]].text == dir'[order[i]].text
    ensures Concatenated(dir, order) == Concatenated(dir', order)
  {
    if order != [] {
      ConcatenatedFrame(dir, dir', order[..|order| - 1]);
    }
  }

  lemma {:induction false} ConcatenatedSplit(dir: Dir, order: seq<Name>, k: nat)
    requires k <= |order|
    ensures Concatenated(dir, order) == Concatenated(dir, order[..k]) + Concatenated(dir, order[k..])
  {
    if k == |order| {
      assert order[..k] == order && order[k..] == [];
      assert Concatenated(dir, order) + "" == Concatenated(dir, order);
    } else {
      var front, last := order[..|order| - 1], order[|order| - 1];
      ConcatenatedSplit(dir, front, k);
      assert front[..k] == order[..k] && order[k..][..|order| - 1 - k] == front[k..];
      assert order[k..][|order| - 1 - k] == last;
    }
  }

  // ---------- Cleanup drops a prefix ----------

  /** Whatever is removed is no newer than whatever stays. */
  ghost predicate OnlyOldest(before: Dir, after: Dir) {
    Part(after, before) && OldestFirst(before, after)
  }

  lemma CleanedIsOnlyOldest(before: Dir, after: Dir, cut: int, cap: int, extra: int)
    requires Cleaned(before, after, cut, cap, extra) && Active in before
    ensures OnlyOldest(before, after) && Active in after
  {
    var mid := Unexpired(before, cut);
    forall x, y | x in before && x !in after && y in before && y in after && y != Active
      ensures before[x].time <= before[y].time
    {
      assert y in mid;
      assert x in mid || before[x].time < cut;
    }
  }

  /** Removing only the oldest files cuts a prefix off the age order. */
  lemma OldestArePrefix(before: Dir, after: Dir, order: seq<Name>) returns (k: nat)
    requires Ordered(before, order) && OnlyOldest(before, after) && Active in after
    ensures k <= |order| && Ordered(after, order[k..])
    ensures forall i :: k <= i < |order| ==> order[i] in after
  {
    k := 0;
    while k < |order| && order[k] !in after
      invariant k <= |order| && forall i :: 0 <= i < k ==> order[i] !in after
    {
      k := k + 1;
    }
    forall i | k <= i < |order| ensures order[i] in after {
      assert i > k ==> Older(before, order, k, i);
    }
    var rest := order[k..];
    forall n | n in after && n != Active ensures n in rest {
      var i :| 0 <= i < |order| && order[i] == n;
      assert rest[i - k] == n;
    }
    forall i, j | 0 <= i < j < |rest| ensures Older(after, rest, i, j) {
      assert Older(before, order, k + i, k + j);
    }
  }

  lemma CleanupKeepsSuffix(s: State, s': State, written: string, lost: string, order: seq<Name>)
    returns (lost': string, order': seq<Name>)
    requires HoldsSuffix(s, written, lost, order) && OnlyOldest(s.dir, s'.dir) && Active in s'.dir
    ensures HoldsSuffix(s', written, lost', order')
  {
    var k := OldestArePrefix(s.dir, s'.dir, order);
    lost' := lost + Concatenated(s.dir, order[..k]);
    order' := order[k..];
    ConcatenatedSplit(s.dir, order, k);
    ConcatenatedFrame(s.dir, s'.dir, order');
    assert lost + (Concatenated(s.dir, order[..k]) + Concatenated(s.dir, order'))
        == lost' + Concatenated(s.dir, order');
  }

  // ---------- Writing and rotating ----------

  lemma AppendKeepsSuffix(s: State, text: string, now: int, written: string, lost: string, order: seq<Name>)
    requires HoldsSuffix(s, written, lost, order) && NoFileAfter(s.dir, now)
    ensures HoldsSuffix(Appended(s, text, now), written + text, lost, order)
    ensures NoFileAfter(Appended(s, text, now).dir, now)
  {
    var s' := Appended(s, text, now);
    ConcatenatedFrame(s.dir, s'.dir, order);
    var front := lost + Concatenated(s.dir, order);
    if text == "" {
      assert written + text == written;
    } else {
      assert front + ActiveText(s.dir) + text == front + (ActiveText(s.dir) + text);
      forall i, j | 0 <= i < j < |order| ensures Older(s'.dir, order, i, j) {
        assert Older(s.dir, order, i, j);
      }
    }
  }

  lemma ConcatenatedSnoc(dir: Dir, order: seq<Name>, n: Name)
    requires n in dir
    ensures Concatenated(dir, order + [n]) == Concatenated(dir, order) + dir[n].text
  {
    assert (order + [n])[..|order|] == order;
  }

  lemma RenameKeepsOrder(s: State, now: int, last: int, order: seq<Name>)
    requires Ordered(s.dir, order) && NoFileAfter(s.dir, last) && last < now
    requires Rotated(s.day, Unix(now)) !in s.dir
    ensures Ordered(Reopened(s, Renamed(s, now), now).dir, order + [Rotated(s.day, Unix(now))])
  {
    var dst := Rotated(s.day, Unix(now));
    var dir' := Reopened(s, Renamed(s, now), now).dir;
    var order' := order + [dst];
    forall n | n in dir' && n != Active ensures n in order' {
      assert n != dst ==> n in order;
      assert order'[|order|] == dst;
    }
    forall i, j | 0 <= i < j < |order'| ensures Older(dir', order', i, j) {
      assert j < |order| ==> Older(s.dir, order, i, j);
    }
  }

  /** Renaming the active file to a fresh name and opening a new one moves its text to the end of the history. */
  lemma RenameKeepsSuffix(s: State, now: int, last: int, written: string, lost: string, order: seq<Name>)
    requires HoldsSuffix(s, written, lost, order) && NoFileAfter(s.dir, last) && last < now
    requires Rotated(s.day, Unix(now)) !in s.dir
    ensures HoldsSuffix(Reopened(s, Renamed(s, now), now), written, lost, order + [Rotated(s.day, Unix(now))])
    ensures NoFileAfter(Reopened(s, Renamed(s, now), now).dir, now)
  {
    hide Concatenated;
    var dst := Rotated(s.day, Unix(now));
    var dir' := Reopened(s, Renamed(s, now), now).dir;
    RenameKeepsOrder(s, now, last, order);
    ConcatenatedFrame(s.dir, dir', order);
    ConcatenatedSnoc(dir', order, dst);
    assert lost + (Concatenated(s.dir, order) + ActiveText(s.dir)) + ""
        == lost + Concatenated(s.dir, order) + ActiveText(s.dir);
  }

  // ---------- Runs ----------

  /** The directory a run begins with, its files in age order and none newer than now. */
  ghost predicate Started(s: State, now: int, order: seq<Name>) {
    Ordered(s.dir, order) && NoFileAfter(s.dir, now)
  }

  /** The text it holds. */
  function Contents(dir: Dir, order: seq<Name>): string {
    Concatenated(dir, order) + ActiveText(dir)
  }

  /** The file a rotation would create does not exist yet. */
  ghost predicate RotationIsFresh(s: State, e: Event) {
    e.op.Write? && MustRotate(s, e.now) ==> Rotated(s.day, Unix(e.now)) !in s.dir
  }

  /** states[i] to states[i + 1] is what es[i] did. */
  ghost predicate IsRun(states: seq<State>, es: seq<Event>) {
    && |states| == |es| + 1
    && forall i :: 0 <= i < |es| ==> Active in states[i].dir && Next(states[i], es[i], states[i + 1])
  }

  /** Each operation happens strictly later than the one before, and no rotation reuses a name. */
  ghost predicate WellTimed(states: seq<State>, es: seq<Event>, start: int)
    requires IsRun(states, es)
  {
    && (forall i :: 0 <= i < |es| ==> start < es[i].now)
    && (forall i, j :: 0 <= i < j < |es| ==> es[i].now < es[j].now)
    && (forall i :: 0 <= i < |es| ==> RotationIsFresh(states[i], es[i]))
  }

  /** Everything written since the last clear, after what was there at the start. */
  function Written(es: seq<Event>, base: string): string {
    if es == [] then base else WrittenAfter(Written(es[..|es| - 1], base), es[|es| - 1].op)
  }

  function WrittenAfter(written: string, op: Op): string {
    match op
    case Write(text) => written + text
    case Configure(_, _) => written
    case Clear => ""
  }

  lemma RotationKeepsSuffix(s: State, mid: State, now: int, last: int, written: string, lost: string, order: seq<Name>)
    returns (lost': string, order': seq<Name>)
    requires HoldsSuffix(s, written, lost, order) && NoFileAfter(s.dir, last) && last < now
    requires Rotated(s.day, Unix(now)) !in s.dir && RotatesTo(s, mid, now)
    ensures HoldsSuffix(mid, written, lost', order') && NoFileAfter(mid.dir, now)
  {
    hide HoldsSuffix, Cleaned, Renamed;
    assert Active in s.dir by {
      HasActive(s, written, lost, order);
    }
    var reopened := Reopened(s, Renamed(s, now), now);
    RenameKeepsSuffix(s, now, last, written, lost, order);
    CleanedIsOnlyOldest(reopened.dir, mid.dir, now - s.retention * DAY, s.maxTotal, 0);
    lost', order' := CleanupKeepsSuffix(reopened, mid, written, lost, order + [Rotated(s.day, Unix(now))]);
  }

  lemma HasActive(s: State, written: string, lost: string, order: seq<Name>)
    requires HoldsSuffix(s, written, lost, order)
    ensures Active in s.dir
  {
  }

  lemma WriteKeepsSuffix(s: State, text: string, now: int, s': State, last: int, written: string, lost: string,
                         order: seq<Name>)
    returns (lost': string, order': seq<Name>)
    requires Active in s.dir && Next(s, Event(now, Write(text)), s') && RotationIsFresh(s, Event(now, Write(text)))
    requires HoldsSuffix(s, written, lost, order) && NoFileAfter(s.dir, last) && last < now
    ensures HoldsSuffix(s', written + text, lost', order') && NoFileAfter(s'.dir, now)
  {
    hide HoldsSuffix, RotatesTo, Appended;
    if MustRotate(s, now) {
      var mid: State :| Active in mid.dir && RotatesTo(s, mid, now) && s' == Appended(mid, text, now);
      lost', order' := RotationKeepsSuffix(s, mid, now, last, written, lost, order);
      AppendKeepsSuffix(mid, text, now, written, lost', order');
    } else {
      lost', order' := lost, order;
      AppendKeepsSuffix(s, text, now, written, lost, order);
    }
  }

  lemma StepKeepsSuffix(s: State, e: Event, s': State, last: int, written: string, lost: string, order: seq<Name>)
    returns (lost': string, order': seq<Name>)
    requires Active in s.dir && Next(s, e, s') && RotationIsFresh(s, e)
    requires HoldsSuffix(s, written, lost, order) && NoFileAfter(s.dir, last) && last < e.now
    ensures HoldsSuffix(s', WrittenAfter(written, e.op), lost', order') && NoFileAfter(s'.dir, e.now)
  {
    match e.op {
      case Write(text) =>
        hide HoldsSuffix, Next, RotationIsFresh, NoFileAfter;
        lost', order' := WriteKeepsSuffix(s, text, e.now, s', last, written, lost, order);
      case Configure(days, maxMiB) =>
        hide HoldsSuffix, Cleaned;
        CleanedIsOnlyOldest(s.dir, s'.dir, e.now - days * DAY, maxMiB * 0x10_0000, |s.dir[Active].text|);
        lost', order' := CleanupKeepsSuffix(s, s', written, lost, order);
      case Clear =>
        lost', order' := "", [];
        assert Concatenated(s'.dir, []) == "";
    }
  }

  lemma PrefixOfRun(states: seq<State>, es: seq<Event>, start: int)
    requires IsRun(states, es) && WellTimed(states, es, start) && es != []
    ensures IsRun(states[..|es|], es[..|es| - 1]) && WellTimed(states[..|es|], es[..|es| - 1], start)
  {
  }

  /** When the last operation of a run happened. */
  function LastTime(es: seq<Event>, start: int): int {
    if es == [] then start else es[|es| - 1].now
  }

  /**
   * The directory is a suffix of what was written: read from the oldest file to the active one, it is the text found at
   * the start followed by all writes, from the last clear on, less some front part removed by retention and capacity.
   */
  lemma {:induction false} DirectoryIsSuffix(states: seq<State>, es: seq<Event>, start: int, order0: seq<Name>)
    returns (lost: string, order: seq<Name>)
    requires IsRun(states, es) && WellTimed(states, es, start) && Started(states[0], start, order0)
    ensures HoldsSuffix(states[|es|], Written(es, Contents(states[0].dir, order0)), lost, order)
    ensures NoFileAfter(states[|es|].dir, LastTime(es, start))
  {
    var base := Contents(states[0].dir, order0);
    if es == [] {
      lost, order := "", order0;
      assert base == "" + Concatenated(states[0].dir, order0) + ActiveText(states[0].dir);
    } else {
      var n := |es| - 1;
      PrefixOfRun(states, es, start);
      hide HoldsSuffix, Next, NoFileAfter, RotationIsFresh, Contents;
      lost, order := DirectoryIsSuffix(states[..n + 1], es[..n], start, order0);
      assert LastTime(es[..n], start) < es[n].now;
      lost, order := StepKeepsSuffix(states[n], es[n], states[n + 1], LastTime(es[..n], start),
                                     Written(es[..n], base), lost, order);
    }
  }

  lemma SameNewest(dir: Dir, a: seq<Name>, b: seq<Name>)
    requires Ordered(dir, a) && Ordered(dir, b) && a != [] && b != []
    ensures a[|a| - 1] == b[|b| - 1]
  {
    var x, y := a[|a| - 1], b[|b| - 1];
    assert y in a && x in b;
    var i :| 0 <= i < |a| && a[i] == y;
    var j :| 0 <= j < |b| && b[j] == x;
    assert i < |a| - 1 ==> Older(dir, a, i, |a| - 1);
    assert j < |b| - 1 ==> Older(dir, b, j, |b| - 1);
  }

  lemma SameEmptiness(dir: Dir, a: seq<Name>, b: seq<Name>)
    requires Ordered(dir, a) && Ordered(dir, b)
    ensures a != [] ==> b != []
  {
    assert a != [] ==> a[0] in b;
  }

  /** The order from oldest to newest is determined by the directory. */
  lemma {:induction false} OrderUnique(dir: Dir, a: seq<Name>, b: seq<Name>)
    requires Ordered(dir, a) && Ordered(dir, b)
    ensures a == b
    decreases |a|
  {
    SameEmptiness(dir, a, b);
    SameEmptiness(dir, b, a);
    if a != [] && b != [] {
      SameNewest(dir, a, b);
      WithoutNewest(dir, a);
      WithoutNewest(dir, b);
      hide Ordered, Older;
      OrderUnique(dir - {a[|a| - 1]}, a[..|a| - 1], b[..|b| - 1]);
      assert a == a[..|a| - 1] + [a[|a| - 1]] && b == b[..|b| - 1] + [b[|b| - 1]];
    }
  }

  lemma WithoutNewest(dir: Dir, order: seq<Name>)
    requires Ordered(dir, order) && order != []
    ensures Ordered(dir - {order[|order| - 1]}, order[..|order| - 1])
  {
    var n := |order| - 1;
    var dir', front := dir - {order[n]}, order[..n];
    forall i | 0 <= i < n ensures front[i] in dir' {
      assert Older(dir, order, i, n);
    }
    forall k | k in dir' && k != Active ensures k in front {
      var i :| 0 <= i < |order| && order[i] == k;
      assert front[i] == k;
    }
    forall i, j | 0 <= i < j < n ensures Older(dir', front, i, j) {
      assert Older(dir, order, i, j) && Older(dir, order, i, n) && Older(dir, order, j, n);
    }
  }

  // ---------- Disk use ----------

  /** History fits the configured total, and the active file is at most one write over its limit. */
  ghost predicate WithinBounds(s: State, largest: int) {
    && Active in s.dir
    && s.size == |s.dir[Active].text|
    && s.size <= 10_485_759 + largest
    && (SizeOf(History(s.dir)) <= s.maxTotal || History(s.dir) == map[])
  }

  lemma RotationBounds(s: State, mid: State, now: int)
    requires Active in s.dir && RotatesTo(s, mid, now)
    ensures Active in mid.dir && mid.dir[Active].text == "" && mid.size == 0 && mid.maxTotal == s.maxTotal
    ensures SizeOf(History(mid.dir)) <= s.maxTotal || History(mid.dir) == map[]
  {
  }

  /** Appending changes neither history nor the limits. */
  lemma AppendBounds(s: State, text: string, now: int)
    requires Active in s.dir && s.size == |s.dir[Active].text|
    ensures var s' := Appended(s, text, now);
      && Active in s'.dir && s'.size == |s'.dir[Active].text| == s.size + |text|
      && History(s'.dir) == History(s.dir) && s'.maxTotal == s.maxTotal
  {
  }

  /** Once within bounds, always within bounds, as long as no write exceeds largest. */
  lemma StepKeepsBounds(s: State, e: Event, s': State, largest: int)
    requires WithinBounds(s, largest) && Next(s, e, s')
    requires 0 <= largest && (e.op.Write? ==> |e.op.text| <= largest)
    ensures WithinBounds(s', largest)
  {
    match e.op {
      case Write(text) =>
        hide RotatesTo, Appended, SizeOf, History;
        if MustRotate(s, e.now) {
          var mid: State :| Active in mid.dir && RotatesTo(s, mid, e.now) && s' == Appended(mid, text, e.now);
          RotationBounds(s, mid, e.now);
          AppendBounds(mid, text, e.now);
        } else {
          AppendBounds(s, text, e.now);
        }
      case Configure(_, _) => hide SizeOf;
      case Clear =>
        assert History(s'.dir) == map[];
    }
  }

  /** A rotation or a clear brings the writer within bounds whatever it found. */
  lemma RotationOrClearBounds(s: State, e: Event, s': State, largest: int)
    requires Active in s.dir && Next(s, e, s') && 0 <= largest
    requires e.op.Clear? || (e.op.Write? && MustRotate(s, e.now) && |e.op.text| <= largest)
    ensures WithinBounds(s', largest)
  {
    if e.op.Write? {
      hide RotatesTo, Appended, SizeOf, History;
      var mid: State :| Active in mid.dir && RotatesTo(s, mid, e.now) && s' == Appended(mid, e.op.text, e.now);
      RotationBounds(s, mid, e.now);
      AppendBounds(mid, e.op.text, e.now);
    } else {
      assert History(s'.dir) == map[];
    }
  }

  /** The whole directory: at most the configured total, ten mebibytes less one byte, and one write. */
  lemma TotalWithinBounds(s: State, largest: int)
    requires WithinBounds(s, largest) && 0 <= s.maxTotal
    ensures SizeOf(s.dir) <= s.maxTotal + 10_485_759 + largest
  {
    SizeWithout(s.dir, Active);
    assert History(s.dir) == map[] ==> SizeOf(History(s.dir)) == 0;
  }

  /** So does a configuration change, unless it finds an active file beyond its limit and one write. */
  lemma ConfigureBounds(s: State, e: Event, s': State, largest: int)
    requires Active in s.dir && Next(s, e, s') && e.op.Configure?
    requires s.size == |s.dir[Active].text| && s.size <= 10_485_759 + largest
    ensures WithinBounds(s', largest)
  {
    hide SizeOf;
  }

  /** An operation after which the writer is within bounds for good. */
  ghost predicate Bounding(s: State, e: Event, largest: int) {
    || e.op.Clear?
    || (e.op.Write? && MustRotate(s, e.now))
    || (e.op.Configure? && Active in s.dir && s.size == |s.dir[Active].text| && s.size <= 10_485_759 + largest)
  }

  /** Disk use over a run: after the first rotation, clear or configuration change it stays bounded for good. */
  lemma {:induction false} DiskUseBounded(states: seq<State>, es: seq<Event>, first: nat, j: nat, largest: int)
    requires IsRun(states, es) && first < j <= |es| && 0 <= largest
    requires forall i :: first <= i < j && es[i].op.Write? ==> |es[i].op.text| <= largest
    requires Bounding(states[first], es[first], largest)
    ensures WithinBounds(states[j], largest)
    ensures 0 <= states[j].maxTotal ==> SizeOf(states[j].dir) <= states[j].maxTotal + 10_485_759 + largest
    decreases j
  {
    hide Next, WithinBounds, MustRotate;
    if j > first + 1 {
      DiskUseBounded(states, es, first, j - 1, largest);
      StepKeepsBounds(states[j - 1], es[j - 1], states[j], largest);
    } else if es[first].op.Configure? {
      ConfigureBounds(states[first], es[first], states[j], largest);
    } else {
      RotationOrClearBounds(states[first], es[first], states[j], largest);
    }
    if 0 <= states[j].maxTotal {
      TotalWithinBounds(states[j], largest);
    }
  }
}
