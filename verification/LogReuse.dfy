/**
 * When a log rotation finds its target name taken: what is lost, when the directory still is a suffix of what was
 * written, and a run in which it is not.
 */
module LogReuse {
  import opened Basics
  import opened LogFiles
  import opened LogRuns

  /** Renaming keeps every byte unless the new name was taken; then exactly the file that had it is lost. */
  lemma RenameLosesReusedName(s: State, now: int)
    requires Active in s.dir
    ensures var dst := Rotated(s.day, Unix(now));
      SizeOf(Renamed(s, now)) == SizeOf(s.dir) - (if dst in s.dir then |s.dir[dst].text| else 0)
  {
    var dst := Rotated(s.day, Unix(now));
    SizeWithout(s.dir, Active);
    SizeWith(s.dir - {Active}, dst, s.dir[Active]);
  }

  /** order without its k-th name. */
  function Dropped(order: seq<Name>, k: nat): (front: seq<Name>)
    requires k < |order|
    ensures |front| == |order| - 1
    ensures forall i :: 0 <= i < |front| ==> front[i] == order[if i < k then i else i + 1]
  {
    order[..k] + order[k + 1..]
  }

  lemma DroppedElsewhere(dir: Dir, order: seq<Name>, k: nat)
    requires Ordered(dir, order) && k < |order|
    ensures var front := Dropped(order, k);
      forall i :: 0 <= i < |front| ==> front[i] in dir && front[i] != order[k] && front[i] != Active
    ensures forall n :: n in dir && n != Active && n != order[k] ==> n in Dropped(order, k)
    ensures order[k] in dir
  {
    var front := Dropped(order, k);
    forall i | 0 <= i < |front| ensures front[i] in dir && front[i] != order[k] && front[i] != Active {
      assert if i < k then Older(dir, order, i, k) else Older(dir, order, k, i + 1);
    }
    forall n | n in dir && n != Active && n != order[k] ensures n in front {
      var x :| 0 <= x < |order| && order[x] == n;
      assert front[if x < k then x else x - 1] == n;
    }
  }

  lemma DroppedOrdered(dir: Dir, order: seq<Name>, k: nat, i: nat, j: nat)
    requires Ordered(dir, order) && k < |order| && i < j < |Dropped(order, k)|
    ensures Older(dir, Dropped(order, k), i, j)
  {
    assert Older(dir, order, if i < k then i else i + 1, if j < k then j else j + 1);
  }

  lemma RenameOntoTakenKeepsOrder(s: State, now: int, last: int, order: seq<Name>, k: nat)
    requires Ordered(s.dir, order) && NoFileAfter(s.dir, last) && last < now
    requires k < |order| && order[k] == Rotated(s.day, Unix(now))
    ensures Ordered(Reopened(s, Renamed(s, now), now).dir, Dropped(order, k) + [order[k]])
  {
    var dst, front := order[k], Dropped(order, k);
    var dir' := Reopened(s, Renamed(s, now), now).dir;
    var order' := front + [dst];
    DroppedElsewhere(s.dir, order, k);
    hide Dropped;
    assert order'[|front|] == dst;
    forall i | 0 <= i < |front| ensures s.dir[front[i]].time < s.dir[Active].time && dir'[front[i]] == s.dir[front[i]] {
    }
    forall i, j | 0 <= i < j < |order'| ensures Older(dir', order', i, j) {
      if j < |front| {
        DroppedOrdered(s.dir, order, k, i, j);
      }
    }
  }

  /**
   * A rotation onto a name that is taken: the text of the file that had it is cut out of the history, everything else
   * stays in order. older, cut and newer are what the history held before, at and after that file.
   */
  lemma RenameCutsReusedName(s: State, now: int, last: int, order: seq<Name>, k: nat)
    returns (older: string, cut: string, newer: string, order': seq<Name>)
    requires Ordered(s.dir, order) && NoFileAfter(s.dir, last) && last < now
    requires k < |order| && order[k] == Rotated(s.day, Unix(now))
    ensures older == Concatenated(s.dir, order[..k]) && cut == s.dir[order[k]].text
    ensures newer == Concatenated(s.dir, order[k + 1..])
    ensures Contents(s.dir, order) == older + cut + newer + ActiveText(s.dir)
    ensures var dir' := Reopened(s, Renamed(s, now), now).dir;
      Ordered(dir', order') && Contents(dir', order') == older + newer + ActiveText(s.dir)
  {
    var dir', dst := Reopened(s, Renamed(s, now), now).dir, order[k];
    older, cut, newer := Concatenated(s.dir, order[..k]), s.dir[dst].text, Concatenated(s.dir, order[k + 1..]);
    var front := Dropped(order, k);
    order' := front + [dst];
    RenameOntoTakenKeepsOrder(s, now, last, order, k);
    DroppedElsewhere(s.dir, order, k);
    hide Ordered, Concatenated, Dropped;
    SplitAround(s.dir, order, k);
    ConcatenatedFrame(s.dir, dir', front);
    ConcatenatedSnoc(dir', front, dst);
    assert ActiveText(dir') == "" && dir'[dst].text == ActiveText(s.dir);
    assert Contents(dir', order') == Concatenated(dir', order') + "";
  }

  lemma SplitAround(dir: Dir, order: seq<Name>, k: nat)
    requires k < |order| && order[k] in dir
    ensures Concatenated(dir, order)
      == Concatenated(dir, order[..k]) + dir[order[k]].text + Concatenated(dir, order[k + 1..])
    ensures Concatenated(dir, Dropped(order, k)) == Concatenated(dir, order[..k]) + Concatenated(dir, order[k + 1..])
  {
    var front := Dropped(order, k);
    hide Concatenated;
    ConcatenatedSplit(dir, order, k + 1);
    assert order[..k + 1] == order[..k] + [order[k]];
    ConcatenatedSnoc(dir, order[..k], order[k]);
    ConcatenatedSplit(dir, front, k);
    assert front[..k] == order[..k] && front[k..] == order[k + 1..];
  }

  /** small is the end of big. */
  ghost predicate EndsWith(big: string, small: string) {
    |small| <= |big| && big[|big| - |small|..] == small
  }

  lemma EndsWithCommonTail(big: string, small: string, tail: string)
    ensures EndsWith(big + tail, small + tail) <==> EndsWith(big, small)
  {
    var b, t := big + tail, small + tail;
    if |small| <= |big| {
      assert b[|b| - |t|..] == big[|big| - |small|..] + tail;
      assert b[|b| - |t|..][..|small|] == big[|big| - |small|..] && t[..|small|] == small;
    }
  }

  lemma SuffixText(s: State, written: string, lost: string, order: seq<Name>)
    requires HoldsSuffix(s, written, lost, order)
    ensures Ordered(s.dir, order) && written == lost + Contents(s.dir, order)
  {
    hide Ordered, Concatenated;
    assert lost + (Concatenated(s.dir, order) + ActiveText(s.dir))
        == lost + Concatenated(s.dir, order) + ActiveText(s.dir);
  }

  lemma NothingOlderOrNothingCut(lost: string, older: string, cut: string)
    requires older == "" || cut == ""
    ensures EndsWith(lost + older + cut, older)
  {
    assert lost + older + "" == lost + older;
  }

  /**
   * Exactly when a rotation onto a taken name keeps the suffix property: when what is older than the file cut out still
   * ends what was written up to and including it. That is so if that file was empty or nothing older was left.
   */
  lemma ReusedNameKeepsSuffixExactly(
    s: State, now: int, last: int, written: string, lost: string, order: seq<Name>, k: nat)
    requires HoldsSuffix(s, written, lost, order) && NoFileAfter(s.dir, last) && last < now
    requires k < |order| && order[k] in s.dir && order[k] == Rotated(s.day, Unix(now))
    ensures Active in s.dir
    ensures var older, cut := Concatenated(s.dir, order[..k]), s.dir[order[k]].text;
      && (HasSuffix(Reopened(s, Renamed(s, now), now), written) <==> EndsWith(lost + older + cut, older))
      && (older == "" || cut == "" ==> EndsWith(lost + older + cut, older))
  {
    SuffixText(s, written, lost, order);
    var older, cut, newer, order1 := RenameCutsReusedName(s, now, last, order, k);
    hide Concatenated, Renamed, Reopened, Ordered, HoldsSuffix, HasSuffix, EndsWith, Contents, NoFileAfter;
    var s' := Reopened(s, Renamed(s, now), now);
    var active := ActiveText(s.dir);
    if older == "" || cut == "" {
      NothingOlderOrNothingCut(lost, older, cut);
    }
    Regrouped(lost, older, cut, newer, active);
    EndsWithCommonTail(lost + older + cut, older, newer + active);
    SuffixIffEndsWith(s', written, order1);
  }

  lemma Regrouped(lost: string, older: string, cut: string, newer: string, active: string)
    ensures lost + (older + cut + newer + active) == lost + older + cut + (newer + active)
    ensures older + newer + active == older + (newer + active)
  {
  }

  /** The directory holds some suffix of what was written. */
  ghost predicate HasSuffix(s: State, written: string) {
    exists lost, order :: HoldsSuffix(s, written, lost, order)
  }

  lemma SuffixIffEndsWith(s: State, written: string, order: seq<Name>)
    requires Ordered(s.dir, order)
    ensures HasSuffix(s, written) <==> EndsWith(written, Contents(s.dir, order))
  {
    var text := Contents(s.dir, order);
    hide Concatenated, Ordered;
    forall lost', order' | HoldsSuffix(s, written, lost', order') ensures EndsWith(written, text) {
      OrderUnique(s.dir, order', order);
      assert written == lost' + text;
    }
    if EndsWith(written, text) {
      var lost' := written[..|written| - |text|];
      assert written == lost' + text;
      assert lost' + text == lost' + Concatenated(s.dir, order) + ActiveText(s.dir);
      assert HoldsSuffix(s, written, lost', order);
    }
  }

  // ---------- A run that reuses a name ----------

  lemma NothingToClean(dir: Dir, cut: int, cap: int)
    requires forall n :: n in dir ==> dir[n].time >= cut
    requires SizeOf(History(dir)) <= cap
    ensures Cleaned(dir, dir, cut, cap, 0)
  {
    hide SizeOf;
    assert Unexpired(dir, cut) == dir;
  }

  const FIRST := Rotated(0, 1)
  const SECOND_FILE := Rotated(0, 2)

  /** A directory on day 0, with a day's retention and room for four full files. */
  function OnDayZero(dir: Dir): State
    requires Active in dir
  {
    State(dir, 0, |dir[Active].text|, 1, 4 * LIMIT)
  }

  /** Writes that fill a file, in seconds 0, 1 and 2, and one more in second 2. */
  function CrowdedWrites(a: string, b: string, c: string, d: string): seq<Event> {
    [Event(1, Write(a)), Event(SECOND, Write(b)), Event(2 * SECOND, Write(c)), Event(2 * SECOND + 1, Write(d))]
  }

  function CrowdedStates(a: string, b: string, c: string, d: string): seq<State> {
    [OnDayZero(map[Active := File("", 0)]),
     OnDayZero(map[Active := File(a, 1)]),
     OnDayZero(map[FIRST := File(a, 1), Active := File(b, SECOND)]),
     OnDayZero(map[FIRST := File(a, 1), SECOND_FILE := File(b, SECOND), Active := File(c, 2 * SECOND)]),
     OnDayZero(map[FIRST := File(a, 1), SECOND_FILE := File(c, 2 * SECOND), Active := File(d, 2 * SECOND + 1)])]
  }

  /** A write that rotates, when nothing needs cleaning. */
  lemma RotatingWrite(s: State, text: string, now: int, s': State)
    requires Active in s.dir && MustRotate(s, now) && text != ""
    requires var reopened := Reopened(s, Renamed(s, now), now);
      && (forall n :: n in reopened.dir ==> reopened.dir[n].time >= now - s.retention * DAY)
      && SizeOf(History(reopened.dir)) <= s.maxTotal
      && s' == Appended(reopened, text, now)
    ensures Next(s, Event(now, Write(text)), s')
  {
    var reopened := Reopened(s, Renamed(s, now), now);
    hide Renamed, SizeOf, History, Cleaned;
    NothingToClean(reopened.dir, now - s.retention * DAY, s.maxTotal);
    assert RotatesTo(s, reopened, now);
  }

  lemma SizeOfTwo(m: Name, f: File, n: Name, g: File)
    requires m != n && m != Active && n != Active
    ensures SizeOf(map[m := f]) == |f.text|
    ensures SizeOf(map[m := f, n := g]) == |f.text| + |g.text|
  {
    var none: Dir := map[];
    SizeWith(none, m, f);
    assert none[m := f] == map[m := f];
    SizeWith(map[m := f], n, g);
    assert map[m := f][n := g] == map[m := f, n := g];
  }

  lemma CrowdedRun(a: string, b: string, c: string, d: string)
    requires |a| == |b| == |c| == 10_485_760 && d != ""
    ensures IsRun(CrowdedStates(a, b, c, d), CrowdedWrites(a, b, c, d))
  {
    var states, es := CrowdedStates(a, b, c, d), CrowdedWrites(a, b, c, d);
    CrowdedFirst(a, b, c, d);
    CrowdedSecond(a, b, c, d);
    CrowdedThird(a, b, c, d);
    CrowdedFourth(a, b, c, d);
    hide Next;
    forall i | 0 <= i < |es| ensures Active in states[i].dir && Next(states[i], es[i], states[i + 1]) {
      assert i == 0 || i == 1 || i == 2 || i == 3;
    }
  }

  lemma CrowdedFirst(a: string, b: string, c: string, d: string)
    requires |a| == 10_485_760
    ensures Next(CrowdedStates(a, b, c, d)[0], CrowdedWrites(a, b, c, d)[0], CrowdedStates(a, b, c, d)[1])
  {
    var s, s' := CrowdedStates(a, b, c, d)[0], CrowdedStates(a, b, c, d)[1];
    assert !MustRotate(s, 1);
    assert "" + a == a;
    assert Appended(s, a, 1) == s';
  }

  lemma CrowdedSecond(a: string, b: string, c: string, d: string)
    requires |a| == |b| == 10_485_760
    ensures Next(CrowdedStates(a, b, c, d)[1], CrowdedWrites(a, b, c, d)[1], CrowdedStates(a, b, c, d)[2])
  {
    var s, s' := CrowdedStates(a, b, c, d)[1], CrowdedStates(a, b, c, d)[2];
    var reopened := Reopened(s, Renamed(s, SECOND), SECOND);
    assert reopened.dir == map[FIRST := File(a, 1), Active := File("", SECOND)];
    assert History(reopened.dir) == map[FIRST := File(a, 1)];
    SizeOfTwo(FIRST, File(a, 1), SECOND_FILE, File(b, SECOND));
    assert "" + b == b;
    assert Appended(reopened, b, SECOND) == s';
    hide Renamed, Reopened, SizeOf;
    RotatingWrite(s, b, SECOND, s');
  }

  lemma CrowdedThird(a: string, b: string, c: string, d: string)
    requires |a| == |b| == |c| == 10_485_760
    ensures Next(CrowdedStates(a, b, c, d)[2], CrowdedWrites(a, b, c, d)[2], CrowdedStates(a, b, c, d)[3])
  {
    var s, s', now := CrowdedStates(a, b, c, d)[2], CrowdedStates(a, b, c, d)[3], 2 * SECOND;
    var reopened := Reopened(s, Renamed(s, now), now);
    assert reopened.dir == map[FIRST := File(a, 1), SECOND_FILE := File(b, SECOND), Active := File("", now)];
    assert History(reopened.dir) == map[FIRST := File(a, 1), SECOND_FILE := File(b, SECOND)];
    SizeOfTwo(FIRST, File(a, 1), SECOND_FILE, File(b, SECOND));
    assert "" + c == c;
    assert Appended(reopened, c, now) == s';
    hide Renamed, Reopened, SizeOf;
    RotatingWrite(s, c, now, s');
  }

  lemma CrowdedFourth(a: string, b: string, c: string, d: string)
    requires |a| == |b| == |c| == 10_485_760 && d != ""
    ensures Next(CrowdedStates(a, b, c, d)[3], CrowdedWrites(a, b, c, d)[3], CrowdedStates(a, b, c, d)[4])
  {
    var s, s', now := CrowdedStates(a, b, c, d)[3], CrowdedStates(a, b, c, d)[4], 2 * SECOND + 1;
    var reopened := Reopened(s, Renamed(s, now), now);
    assert reopened.dir == map[FIRST := File(a, 1), SECOND_FILE := File(c, 2 * SECOND), Active := File("", now)];
    assert History(reopened.dir) == map[FIRST := File(a, 1), SECOND_FILE := File(c, 2 * SECOND)];
    SizeOfTwo(FIRST, File(a, 1), SECOND_FILE, File(c, 2 * SECOND));
    assert "" + d == d;
    assert Appended(reopened, d, now) == s';
    hide Renamed, Reopened, SizeOf;
    RotatingWrite(s, d, now, s');
  }

  lemma WrittenNext(es: seq<Event>, base: string, e: Event)
    ensures Written(es + [e], base) == WrittenAfter(Written(es, base), e.op)
    ensures Written([], base) == base
  {
    assert (es + [e])[..|es|] == es;
  }

  lemma CrowdedWritten(a: string, b: string, c: string, d: string)
    ensures Written(CrowdedWrites(a, b, c, d), "") == a + b + c + d
  {
    var es := CrowdedWrites(a, b, c, d);
    hide Written;
    WrittenNext([], "", es[0]);
    WrittenNext([es[0]], "", es[1]);
    WrittenNext([es[0], es[1]], "", es[2]);
    WrittenNext([es[0], es[1], es[2]], "", es[3]);
    assert [] + [es[0]] == [es[0]] && [es[0]] + [es[1]] == [es[0], es[1]];
    assert [es[0], es[1]] + [es[2]] == [es[0], es[1], es[2]] && [es[0], es[1], es[2]] + [es[3]] == es;
    assert "" + a == a;
  }

  lemma CrowdedContents(a: string, b: string, c: string, d: string)
    ensures var dir := CrowdedStates(a, b, c, d)[4].dir;
      Ordered(dir, [FIRST, SECOND_FILE]) && Contents(dir, [FIRST, SECOND_FILE]) == a + c + d
  {
    var dir := CrowdedStates(a, b, c, d)[4].dir;
    var order := [FIRST, SECOND_FILE];
    assert order[0] == FIRST && order[1] == SECOND_FILE;
    forall i, j | 0 <= i < j < |order| ensures Older(dir, order, i, j) {
      assert i == 0 && j == 1;
    }
    hide Concatenated;
    ConcatenatedSnoc(dir, [], FIRST);
    ConcatenatedSnoc(dir, [FIRST], SECOND_FILE);
    assert [] + [FIRST] == [FIRST] && [FIRST] + [SECOND_FILE] == order;
    EmptyConcatenated(dir);
    assert "" + a == a;
  }

  lemma EmptyConcatenated(dir: Dir)
    ensures Concatenated(dir, []) == ""
  {
  }

  /**
   * Two rotations in one second, with an older file about: the middle of what was written is gone, and what is left is
   * not a suffix of it.
   */
  lemma ReusedNameBreaksSuffix(a: string, b: string, c: string, d: string)
    requires |a| == |b| == |c| == 10_485_760 && d != "" && a[0] != b[0]
    ensures var states, es := CrowdedStates(a, b, c, d), CrowdedWrites(a, b, c, d);
      && IsRun(states, es) && Started(states[0], 0, [])
      && (forall i, j :: 0 <= i < j < |es| ==> es[i].now < es[j].now)
      && Written(es, "") == a + b + c + d
      && Contents(states[4].dir, [FIRST, SECOND_FILE]) == a + c + d
      && !HasSuffix(states[4], Written(es, ""))
  {
    CrowdedRun(a, b, c, d);
    CrowdedWritten(a, b, c, d);
    CrowdedContents(a, b, c, d);
    CrowdedStart(a, b, c, d);
    hide IsRun, Written, Ordered, Concatenated, Contents, HasSuffix, EndsWith, Started, CrowdedStates;
    SuffixIffEndsWith(CrowdedStates(a, b, c, d)[4], a + b + c + d, [FIRST, SECOND_FILE]);
    MiddleMissing(a, b, c, d);
  }

  lemma CrowdedStart(a: string, b: string, c: string, d: string)
    ensures |CrowdedStates(a, b, c, d)| == 5 && Started(CrowdedStates(a, b, c, d)[0], 0, [])
  {
  }

  lemma MiddleMissing(a: string, b: string, c: string, d: string)
    requires |a| == |b| > 0 && a[0] != b[0]
    ensures !EndsWith(a + b + c + d, a + c + d)
  {
    var big, small := a + b + c + d, a + c + d;
    var end := big[|big| - |small|..];
    assert end[0] == big[|b|] == b[0];
    assert small[0] == a[0];
  }
}
