/**
 * What one operation does to the log directory, with every limit written out: which history files go, which stay, and
 * what becomes of the active file.
 */
module LogEffects {
  import opened Basics
  import opened LogFiles

  /** last is among the removed files that had not expired, and with it the total would exceed the cap. */
  ghost predicate MadeRoom(found: Dir, kept: Dir, last: Name, cut: int, cap: int, extra: int) {
    last in found && last !in kept && found[last].time >= cut && extra + SizeOf(kept) + |found[last].text| > cap
  }

  /**
   * Of the history files found, those kept are unchanged and not older than the cut. A file not older than the cut goes
   * only if every kept one is at least as young, and only for room: some removed file at least as young as it would
   * exceed the cap. What is kept fits the cap together with extra, or is nothing.
   */
  ghost predicate Retained(found: Dir, kept: Dir, cut: int, cap: int, extra: int) {
    && (forall n :: n in kept ==> n in found && kept[n] == found[n] && kept[n].time >= cut)
    && (forall n :: n in found && n !in kept && found[n].time >= cut ==>
          && (forall m :: m in kept ==> found[n].time <= kept[m].time)
          && exists last :: MadeRoom(found, kept, last, cut, cap, extra) && found[n].time <= found[last].time)
    && (extra + SizeOf(kept) <= cap || kept == map[])
  }

  lemma CleanedRetains(before: Dir, after: Dir, cut: int, cap: int, extra: int)
    requires Active in before && Cleaned(before, after, cut, cap, extra)
    ensures Active in after && after[Active] == before[Active]
    ensures Retained(before - {Active}, after - {Active}, cut, cap, extra)
  {
    hide SizeOf;
    var mid, found, kept := Unexpired(before, cut), before - {Active}, after - {Active};
    assert History(after) == kept;
    forall n | n in found && n !in kept && found[n].time >= cut
      ensures forall m :: m in kept ==> found[n].time <= kept[m].time
      ensures exists last :: MadeRoom(found, kept, last, cut, cap, extra) && found[n].time <= found[last].time
    {
      assert n in mid && n !in after;
      var last :| last in mid && last !in after
        && (forall x :: x in mid && x !in after ==> mid[x].time <= mid[last].time)
        && extra + SizeOf(History(after)) + |mid[last].text| > cap;
      assert MadeRoom(found, kept, last, cut, cap, extra);
    }
  }

  /** A write on the same day, to a file below 10 MiB, is appended and touches nothing else. */
  lemma WriteAppends(s: State, text: string, now: int, s': State)
    requires Active in s.dir && Next(s, Event(now, Write(text)), s')
    requires now / 86_400_000_000_000 == s.day && s.size < 10_485_760
    ensures Active in s'.dir && s'.dir[Active].text == s.dir[Active].text + text
    ensures s'.dir[Active].time == if text == "" then s.dir[Active].time else now
    ensures s'.dir - {Active} == s.dir - {Active}
    ensures s' == s.(dir := s'.dir, size := s.size + |text|)
  {
    assert s.dir[Active].text + "" == s.dir[Active].text;
  }

  /**
   * A write on another day, or to a file of 10 MiB or more: the old file joins the history under its day and the
   * current second, history older than the retention goes, then the oldest of the rest until the total fits; the
   * text is written to a new file.
   */
  lemma WriteRotates(s: State, text: string, now: int, s': State)
    requires Active in s.dir && Next(s, Event(now, Write(text)), s')
    requires now / 86_400_000_000_000 != s.day || s.size >= 10_485_760
    ensures Active in s'.dir && s'.dir[Active] == File(text, now)
    ensures s' == State(s'.dir, now / 86_400_000_000_000, |text|, s.retention, s.maxTotal)
    ensures Retained((s.dir - {Active})[Rotated(s.day, now / 1_000_000_000) := s.dir[Active]], s'.dir - {Active},
                     now - s.retention * 86_400_000_000_000, s.maxTotal, 0)
  {
    hide Cleaned, Retained, Appended;
    var mid: State :| Active in mid.dir && RotatesTo(s, mid, now) && s' == Appended(mid, text, now);
    var reopened := Reopened(s, Renamed(s, now), now);
    CleanedRetains(reopened.dir, mid.dir, now - s.retention * DAY, s.maxTotal, 0);
    assert reopened.dir - {Active} == (s.dir - {Active})[Rotated(s.day, now / 1_000_000_000) := s.dir[Active]];
    NewFileText(mid, text, now);
  }

  lemma NewFileText(mid: State, text: string, now: int)
    requires Active in mid.dir && mid.dir[Active] == File("", now) && mid.size == 0
    ensures var s' := Appended(mid, text, now);
      && Active in s'.dir && s'.dir[Active] == File(text, now) && s'.dir - {Active} == mid.dir - {Active}
      && s' == mid.(dir := s'.dir, size := |text|)
  {
    assert "" + text == text;
  }

  /** New limits apply at once, the active file counting towards the total but never going. */
  lemma ConfigureApplies(s: State, days: int, maxMiB: int, now: int, s': State)
    requires Active in s.dir && Next(s, Event(now, Configure(days, maxMiB)), s')
    ensures Active in s'.dir && s'.dir[Active] == s.dir[Active]
    ensures s' == State(s'.dir, s.day, s.size, days, maxMiB * 1_048_576)
    ensures Retained(s.dir - {Active}, s'.dir - {Active}, now - days * 86_400_000_000_000, maxMiB * 1_048_576,
                     |s.dir[Active].text|)
  {
    hide Cleaned, Retained;
    CleanedRetains(s.dir, s'.dir, now - days * DAY, maxMiB * 0x10_0000, |s.dir[Active].text|);
  }

  /** Clearing leaves one empty file. */
  lemma ClearEmpties(s: State, now: int, s': State)
    requires Active in s.dir && Next(s, Event(now, Clear), s')
    ensures s'.dir.Keys == {Active} && s'.dir[Active] == File("", now)
    ensures s' == State(s'.dir, now / 86_400_000_000_000, 0, s.retention, s.maxTotal)
  {
  }
}
