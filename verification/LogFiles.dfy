/**
 * The server's log directory: what rotation, retention, capacity cleanup and clearing do to its files, and what the
 * directory holds after any run of writes.
 */
module LogFiles {
  import opened Basics

  const LIMIT := 0xA0_0000
  const DAY := 86400 * SECOND

  /** Names the writer gives its files; server.log is the active one. */
  datatype Name = Active | Rotated(day: int, second: int) | Other(text: string)

  /** time is the modification time in nanoseconds. */
  datatype File = File(text: string, time: int)

  type Dir = map<Name, File>

  datatype State = State(dir: Dir, day: int, size: int, retention: int, maxTotal: int)

  function DayOf(now: int): int {
    now / DAY
  }

  function History(dir: Dir): Dir {
    dir - {Active}
  }

  // ---------- Sizes ----------

  ghost function SizeOf(dir: Dir): nat {
    if dir == map[] then 0 else var n :| n in dir; |dir[n].text| + SizeOf(dir - {n})
  }

  lemma {:induction false} SizeWithout(dir: Dir, n: Name)
    requires n in dir
    ensures SizeOf(dir) == |dir[n].text| + SizeOf(dir - {n})
    decreases |dir|
  {
    var m :| m in dir && SizeOf(dir) == |dir[m].text| + SizeOf(dir - {m});
    if m != n {
      SizeWithout(dir - {m}, n);
      SizeWithout(dir - {n}, m);
      assert dir - {m} - {n} == dir - {n} - {m};
    }
  }

  lemma SizeWith(dir: Dir, n: Name, f: File)
    ensures SizeOf(dir[n := f]) == SizeOf(dir) + |f.text| - (if n in dir then |dir[n].text| else 0)
  {
    SizeWithout(dir[n := f], n);
    if n in dir {
      SizeWithout(dir, n);
      assert dir[n := f] - {n} == dir - {n};
    } else {
      assert dir[n := f] - {n} == dir;
    }
  }

  // ---------- Cleanup ----------

  function Unexpired(dir: Dir, cut: int): Dir {
    map n | n in dir && (n == Active || dir[n].time >= cut) :: dir[n]
  }

  /** after keeps some of before's files, unchanged, the active one among them. */
  ghost predicate Part(after: Dir, before: Dir) {
    && (forall n :: n in after ==> n in before && after[n] == before[n])
    && (Active in before ==> Active in after)
  }

  /** No deleted file is newer than a kept history file. */
  ghost predicate OldestFirst(before: Dir, after: Dir) {
    forall x, y :: x in before && x !in after && y in before && y in after && y != Active ==>
      before[x].time <= before[y].time
  }

  /** Deleting stopped as soon as it could: with the newest deleted file still there the cap would be exceeded. */
  ghost predicate Needed(before: Dir, after: Dir, cap: int, extra: int) {
    (forall n :: n in before ==> n in after)
    || exists last :: last in before && last !in after
         && (forall x :: x in before && x !in after ==> before[x].time <= before[last].time)
         && extra + SizeOf(History(after)) + |before[last].text| > cap
  }

  /** Capacity cleanup: history fits the cap, or nothing of it is left. extra is the size counted besides history. */
  ghost predicate CapacityCleaned(before: Dir, after: Dir, cap: int, extra: int) {
    && Part(after, before)
    && OldestFirst(before, after)
    && (extra + SizeOf(History(after)) <= cap || History(after) == map[])
    && Needed(before, after, cap, extra)
  }

  /** Retention and capacity together. */
  ghost predicate Cleaned(before: Dir, after: Dir, cut: int, cap: int, extra: int) {
    CapacityCleaned(Unexpired(before, cut), after, cap, extra)
  }

  // ---------- Writing, rotating, configuring, clearing ----------

  datatype Op = Write(text: string) | Configure(days: int, maxMiB: int) | Clear

  datatype Event = Event(now: int, op: Op)

  function ActiveText(dir: Dir): string {
    if Active in dir then dir[Active].text else ""
  }

  predicate MustRotate(s: State, now: int) {
    DayOf(now) != s.day || s.size >= LIMIT
  }

  /** The rename of rotate: the active file moves to a name made of its day and the current second. */
  function Renamed(s: State, now: int): Dir
    requires Active in s.dir
  {
    (s.dir - {Active})[Rotated(s.day, Unix(now)) := s.dir[Active]]
  }

  /** open on a directory without an active file creates an empty one. */
  function Reopened(s: State, dir: Dir, now: int): State {
    s.(dir := dir[Active := File("", now)], day := DayOf(now), size := 0)
  }

  ghost predicate RotatesTo(s: State, s': State, now: int)
    requires Active in s.dir
  {
    var reopened := Reopened(s, Renamed(s, now), now);
    && Cleaned(reopened.dir, s'.dir, now - s.retention * DAY, s.maxTotal, 0)
    && s' == reopened.(dir := s'.dir)
  }

  /** Writing nothing leaves the file's time alone. */
  function Appended(s: State, text: string, now: int): State
    requires Active in s.dir
  {
    if text == "" then s
    else s.(dir := s.dir[Active := File(s.dir[Active].text + text, now)], size := s.size + |text|)
  }

  ghost predicate Next(s: State, e: Event, s': State)
    requires Active in s.dir
  {
    match e.op
    case Write(text) =>
      if MustRotate(s, e.now)
      then exists mid: State :: Active in mid.dir && RotatesTo(s, mid, e.now) && s' == Appended(mid, text, e.now)
      else s' == Appended(s, text, e.now)
    case Configure(days, maxMiB) =>
      && Cleaned(s.dir, s'.dir, e.now - days * DAY, maxMiB * 0x10_0000, |s.dir[Active].text|)
      && s' == s.(dir := s'.dir, retention := days, maxTotal := maxMiB * 0x10_0000)
    case Clear => s' == Reopened(s, map[], e.now)
  }
}
