/** The log writer of server/logwriter.go: its file operations as loops over the directory, and its subscribers. */
module LogWriter {
  import opened Basics
  import opened LogFiles
  import opened LogFanout

  // ---------- sort.Slice by modification time ----------

  datatype Entry = Entry(name: Name, time: int, size: nat)

  ghost predicate Sorted(xs: seq<Entry>) {
    forall i, j :: 0 <= i < j < |xs| ==> xs[i].time <= xs[j].time
  }

  ghost predicate DistinctNames(xs: seq<Entry>) {
    forall i, j :: 0 <= i < j < |xs| ==> xs[i].name != xs[j].name
  }

  ghost predicate Unnamed(xs: seq<Entry>, n: Name) {
    forall i :: 0 <= i < |xs| ==> xs[i].name != n
  }

  lemma InsertedAt(e: Entry, xs: seq<Entry>, i: nat, ys: seq<Entry>)
    requires i <= |xs| && ys == xs[..i] + [e] + xs[i..]
    ensures forall x :: x in ys <==> x == e || x in xs
  {
    assert xs == xs[..i] + xs[i..];
  }

  method Insert(e: Entry, xs: seq<Entry>) returns (ys: seq<Entry>)
    requires Sorted(xs) && DistinctNames(xs) && Unnamed(xs, e.name)
    ensures Sorted(ys) && DistinctNames(ys)
    ensures forall x :: x in ys <==> x == e || x in xs
  {
    var i := 0;
    while i < |xs| && xs[i].time <= e.time
      invariant 0 <= i <= |xs|
      invariant forall j :: 0 <= j < i ==> xs[j].time <= e.time
    {
      i := i + 1;
    }
    ys := xs[..i] + [e] + xs[i..];
    InsertedAt(e, xs, i, ys);
  }

  method SortByTime(xs: seq<Entry>) returns (ys: seq<Entry>)
    requires DistinctNames(xs)
    ensures Sorted(ys) && DistinctNames(ys)
    ensures forall x :: x in ys <==> x in xs
  {
    ys := [];
    for k := 0 to |xs|
      invariant Sorted(ys) && DistinctNames(ys)
      invariant forall x :: x in ys <==> x in xs[..k]
    {
      forall i | 0 <= i < |ys| ensures ys[i].name != xs[k].name {
        assert ys[i] in xs[..k];
      }
      ys := Insert(xs[k], ys);
      assert xs[..k + 1] == xs[..k] + [xs[k]];
    }
    assert xs[..|xs|] == xs;
  }

  // ---------- The directory scan ----------

  /** The files a cleanup counts: all of them, or all but the active one. */
  function Considered(dir: Dir, withActive: bool): Dir {
    if withActive then dir else History(dir)
  }

  ghost predicate Lists(xs: seq<Entry>, dir: Dir) {
    && (forall e :: e in xs ==> e.name in dir && e.time == dir[e.name].time && e.size == |dir[e.name].text|)
    && (forall n :: n in dir ==> Entry(n, dir[n].time, |dir[n].text|) in xs)
  }

  lemma ListsOneMore(xs: seq<Entry>, dir: Dir, n: Name, f: File)
    requires Lists(xs, dir) && DistinctNames(xs) && n !in dir
    ensures Lists(xs + [Entry(n, f.time, |f.text|)], dir[n := f])
    ensures DistinctNames(xs + [Entry(n, f.time, |f.text|)])
  {
    var xs' := xs + [Entry(n, f.time, |f.text|)];
    assert forall i :: 0 <= i < |xs| ==> xs[i] in xs;
    assert xs'[|xs|] in xs';
    forall m | m in dir ensures Entry(m, dir[m].time, |dir[m].text|) in xs' {
      var i :| 0 <= i < |xs| && xs[i] == Entry(m, dir[m].time, |dir[m].text|);
      assert xs'[i] == xs[i];
    }
  }

  /** What is left of a directory once every name outside names has been looked at. */
  ghost function Remaining(before: Dir, names: set<Name>, cut: int): Dir {
    map n | n in before && (n in names || n == Active || before[n].time >= cut) :: before[n]
  }

  /** What has been listed by then. */
  ghost function Seen(before: Dir, names: set<Name>, cut: int, withActive: bool): Dir {
    map n |
      && n in before && n !in names
      && (n == Active || before[n].time >= cut) && (withActive || n != Active)
      :: before[n]
  }

  lemma ScanStarts(before: Dir, cut: int, withActive: bool)
    ensures Remaining(before, before.Keys, cut) == before && Seen(before, before.Keys, cut, withActive) == map[]
  {
  }

  lemma ScanEnds(before: Dir, cut: int, withActive: bool)
    ensures Remaining(before, {}, cut) == Unexpired(before, cut)
    ensures Seen(before, {}, cut, withActive) == Considered(Unexpired(before, cut), withActive)
  {
  }

  lemma ScanSkips(before: Dir, names: set<Name>, n: Name, cut: int, withActive: bool)
    requires n == Active && !withActive
    ensures Remaining(before, names - {n}, cut) == Remaining(before, names, cut)
    ensures Seen(before, names - {n}, cut, withActive) == Seen(before, names, cut, withActive)
  {
  }

  lemma ScanRemoves(before: Dir, names: set<Name>, n: Name, cut: int, withActive: bool)
    requires n in before && n != Active && before[n].time < cut
    ensures Remaining(before, names - {n}, cut) == Remaining(before, names, cut) - {n}
    ensures Seen(before, names - {n}, cut, withActive) == Seen(before, names, cut, withActive)
  {
  }

  lemma ScanLists(before: Dir, names: set<Name>, n: Name, cut: int, withActive: bool)
    requires n in before && n in names && (n == Active || before[n].time >= cut) && (n == Active ==> withActive)
    ensures Remaining(before, names - {n}, cut) == Remaining(before, names, cut)
    ensures n !in Seen(before, names, cut, withActive)
    ensures Seen(before, names - {n}, cut, withActive) == Seen(before, names, cut, withActive)[n := before[n]]
  {
  }

  // ---------- Deleting from the oldest on ----------

  /** The history names among the first k entries. */
  ghost function Gone(xs: seq<Entry>, k: nat): set<Name>
    requires k <= |xs|
  {
    set i | 0 <= i < k && xs[i].name != Active :: xs[i].name
  }

  /** Entry i is the last one removed so far, and removing it was necessary. */
  ghost predicate LastGone(xs: seq<Entry>, k: nat, i: nat, total: int, cap: int)
    requires k <= |xs|
  {
    i < k && xs[i].name != Active && (forall j :: i < j < k ==> xs[j].name == Active) && total + xs[i].size > cap
  }

  /** The deletion loop after k entries. */
  ghost predicate Trimmed(before: Dir, after: Dir, xs: seq<Entry>, k: nat, total: int, cap: int, withActive: bool)
    requires k <= |xs|
  {
    && after == before - Gone(xs, k)
    && total == SizeOf(Considered(after, withActive))
    && (Gone(xs, k) == {} || exists i: nat :: LastGone(xs, k, i, total, cap))
  }

  lemma TrimStarts(dir: Dir, xs: seq<Entry>, total: int, cap: int, withActive: bool)
    requires total == SizeOf(Considered(dir, withActive))
    ensures Trimmed(dir, dir, xs, 0, total, cap, withActive)
  {
    assert Gone(xs, 0) == {};
    assert dir - {} == dir;
  }

  lemma TrimSkipsActive(before: Dir, after: Dir, xs: seq<Entry>, k: nat, total: int, cap: int, withActive: bool)
    requires k < |xs| && xs[k].name == Active && Trimmed(before, after, xs, k, total, cap, withActive)
    ensures Trimmed(before, after, xs, k + 1, total, cap, withActive)
  {
    hide SizeOf;
    assert Gone(xs, k + 1) == Gone(xs, k);
    if Gone(xs, k) != {} {
      var i: nat :| LastGone(xs, k, i, total, cap);
      assert LastGone(xs, k + 1, i, total, cap);
    }
  }

  lemma TrimRemoves(before: Dir, after: Dir, xs: seq<Entry>, k: nat, total: int, cap: int, withActive: bool)
    requires k < |xs| && xs[k].name != Active && Trimmed(before, after, xs, k, total, cap, withActive)
    requires Lists(xs, Considered(before, withActive)) && DistinctNames(xs) && total > cap
    ensures Trimmed(before, after - {xs[k].name}, xs, k + 1, total - xs[k].size, cap, withActive)
  {
    hide SizeOf;
    var n := xs[k].name;
    assert xs[k] in xs;
    assert n !in Gone(xs, k);
    assert Gone(xs, k + 1) == Gone(xs, k) + {n};
    assert before - Gone(xs, k + 1) == after - {n};
    SizeWithout(Considered(after, withActive), n);
    assert Considered(after - {n}, withActive) == Considered(after, withActive) - {n};
    assert LastGone(xs, k + 1, k, total - xs[k].size, cap);
  }

  /** What the listed total counts besides history. */
  function Extra(dir: Dir, withActive: bool): nat
    requires Active in dir
  {
    if withActive then |dir[Active].text| else 0
  }

  lemma TrimmedSize(dir: Dir, withActive: bool)
    requires Active in dir
    ensures SizeOf(Considered(dir, withActive)) == Extra(dir, withActive) + SizeOf(History(dir))
  {
    SizeWithout(dir, Active);
  }

  lemma GoneIsDeleted(before: Dir, xs: seq<Entry>, k: nat, n: Name, withActive: bool) returns (i: nat)
    requires k <= |xs| && n in before && n !in before - Gone(xs, k)
    ensures i < k && xs[i].name == n && n != Active
  {
    i :| 0 <= i < k && xs[i].name != Active && xs[i].name == n;
  }

  lemma TrimIsOldestFirst(before: Dir, after: Dir, xs: seq<Entry>, k: nat, withActive: bool)
    requires k <= |xs| && after == before - Gone(xs, k) && Sorted(xs) && Lists(xs, Considered(before, withActive))
    ensures OldestFirst(before, after)
  {
    forall x, y | x in before && x !in after && y in before && y in after && y != Active
      ensures before[x].time <= before[y].time
    {
      var i := GoneIsDeleted(before, xs, k, x, withActive);
      assert y in Considered(before, withActive);
      assert Entry(y, before[y].time, |before[y].text|) in xs;
      var j :| 0 <= j < |xs| && xs[j] == Entry(y, before[y].time, |before[y].text|);
      assert j >= k;
      assert xs[i] in xs;
    }
  }

  lemma TrimIsNeeded(before: Dir, after: Dir, xs: seq<Entry>, k: nat, total: int, cap: int, withActive: bool)
    requires k <= |xs| && Trimmed(before, after, xs, k, total, cap, withActive) && Active in before
    requires Sorted(xs) && Lists(xs, Considered(before, withActive))
    ensures Needed(before, after, cap, Extra(before, withActive))
  {
    hide SizeOf;
    if Gone(xs, k) != {} {
      var i: nat :| LastGone(xs, k, i, total, cap);
      var last := xs[i].name;
      assert xs[i] in xs;
      assert last in Gone(xs, k);
      forall x | x in before && x !in after ensures before[x].time <= before[last].time {
        var j := GoneIsDeleted(before, xs, k, x, withActive);
        assert xs[j] in xs;
      }
      TrimmedSize(after, withActive);
    }
  }

  lemma TrimEnds(before: Dir, after: Dir, xs: seq<Entry>, k: nat, total: int, cap: int, withActive: bool)
    requires k <= |xs| && Trimmed(before, after, xs, k, total, cap, withActive) && Active in before
    requires Sorted(xs) && Lists(xs, Considered(before, withActive))
    requires total <= cap || k == |xs|
    ensures CapacityCleaned(before, after, cap, Extra(before, withActive))
  {
    TrimIsNeeded(before, after, xs, k, total, cap, withActive);
    TrimIsOldestFirst(before, after, xs, k, withActive);
    hide SizeOf, Needed, OldestFirst;
    TrimmedSize(after, withActive);
    if total > cap {
      forall n | n in before && n != Active ensures n in Gone(xs, k) {
        assert n in Considered(before, withActive);
        assert Entry(n, before[n].time, |before[n].text|) in xs;
      }
      assert History(after) == map[];
    }
  }

  // ---------- The writer ----------

  class Writer {
    var dir: Dir
    var day: int
    var size: int
    var retention: int
    var maxTotal: int
    var chans: map<nat, Channel>
    var subs: set<nat>

    ghost function View(): State
      reads this
    {
      State(dir, day, size, retention, maxTotal)
    }

    ghost function Fanout(): Hub
      reads this
    {
      Hub(chans, subs, false)
    }

    ghost predicate Valid()
      reads this
    {
      Active in dir && Sendable(Fanout())
    }

    /** A new writer on an existing directory goes on with its active file, or starts one. */
    constructor (files: Dir, days: int, maxMiB: int, now: int)
      ensures Valid() && Fanout() == EMPTY
      ensures View() == State(if Active in files then files else files[Active := File("", now)], DayOf(now),
                              |ActiveText(files)|, days, maxMiB * 0x10_0000)
    {
      dir := if Active in files then files else files[Active := File("", now)];
      day := DayOf(now);
      size := |ActiveText(files)|;
      retention := days;
      maxTotal := maxMiB * 0x10_0000;
      chans, subs := map[], {};
    }

    /** open, which creates the file if it is missing. */
    method Open(now: int)
      modifies this`dir, this`day, this`size
      ensures dir == if Active in old(dir) then old(dir) else old(dir)[Active := File("", now)]
      ensures day == DayOf(now) && size == |ActiveText(dir)|
    {
      if Active !in dir {
        dir := dir[Active := File("", now)];
      }
      size := |dir[Active].text|;
      day := DayOf(now);
    }

    /** The directory scan: expired history is removed, everything else is listed with its total size. */
    method Scan(cut: int, withActive: bool) returns (xs: seq<Entry>, total: int)
      modifies this`dir
      ensures dir == Unexpired(old(dir), cut)
      ensures Lists(xs, Considered(dir, withActive)) && DistinctNames(xs)
      ensures total == SizeOf(Considered(dir, withActive))
    {
      hide SizeOf, Remaining, Seen, Lists, DistinctNames, Unexpired, Considered;
      ghost var before := dir;
      xs, total := [], 0;
      var names := dir.Keys;
      ScanStarts(before, cut, withActive);
      NothingListed();
      while names != {}
        invariant names <= before.Keys && dir == Remaining(before, names, cut)
        invariant Lists(xs, Seen(before, names, cut, withActive)) && DistinctNames(xs)
        invariant total == SizeOf(Seen(before, names, cut, withActive))
      {
        var n :| n in names;
        StillThere(before, names, n, cut);
        if n == Active && !withActive {
          ScanSkips(before, names, n, cut, withActive);
        } else if n != Active && dir[n].time < cut {
          ScanRemoves(before, names, n, cut, withActive);
          dir := dir - {n};
        } else {
          ScanLists(before, names, n, cut, withActive);
          SizeWith(Seen(before, names, cut, withActive), n, dir[n]);
          ListsOneMore(xs, Seen(before, names, cut, withActive), n, dir[n]);
          xs := xs + [Entry(n, dir[n].time, |dir[n].text|)];
          total := total + |dir[n].text|;
        }
        names := names - {n};
      }
      ScanEnds(before, cut, withActive);
    }

    /** The deletion loop: oldest history first, until the total fits or none is left. */
    method Trim(xs: seq<Entry>, listed: int, withActive: bool)
      requires Active in dir && Sorted(xs) && DistinctNames(xs) && Lists(xs, Considered(dir, withActive))
      requires listed == SizeOf(Considered(dir, withActive))
      modifies this`dir
      ensures CapacityCleaned(old(dir), dir, maxTotal, Extra(old(dir), withActive))
    {
      hide SizeOf, Trimmed, Lists, DistinctNames, Considered, CapacityCleaned, Sorted;
      ghost var before := dir;
      var total, k := listed, 0;
      TrimStarts(dir, xs, total, maxTotal, withActive);
      while k < |xs|
        invariant 0 <= k <= |xs| && Trimmed(before, dir, xs, k, total, maxTotal, withActive)
      {
        if total <= maxTotal {
          break;
        }
        if xs[k].name == Active {
          TrimSkipsActive(before, dir, xs, k, total, maxTotal, withActive);
        } else {
          TrimRemoves(before, dir, xs, k, total, maxTotal, withActive);
          dir := dir - {xs[k].name};
          total := total - xs[k].size;
        }
        k := k + 1;
      }
      TrimEnds(before, dir, xs, k, total, maxTotal, withActive);
    }

    /** cleanup (without the active file) and cleanupLocked (with it). */
    method Cleanup(now: int, withActive: bool)
      requires Active in dir
      modifies this`dir
      ensures Cleaned(old(dir), dir, now - retention * DAY, maxTotal, Extra(old(dir), withActive))
    {
      hide SizeOf, CapacityCleaned, Considered, Sorted, DistinctNames;
      var xs, total := Scan(now - retention * DAY, withActive);
      var ys := SortByTime(xs);
      Trim(ys, total, withActive);
    }

    method Rotate(now: int)
      requires Active in dir
      modifies this`dir, this`day, this`size
      ensures RotatesTo(old(View()), View(), now) && Active in dir
    {
      hide Cleaned;
      ghost var s := View();
      var active := dir[Active];
      dir := (dir - {Active})[Rotated(day, Unix(now)) := active];
      Open(now);
      assert View() == Reopened(s, Renamed(s, now), now);
      Cleanup(now, false);
      CleanedKeepsActive(Reopened(s, Renamed(s, now), now).dir, dir, now - retention * DAY, maxTotal, 0);
    }

    /** One write: into the file, rotating it first if the day changed or it is full, and to every subscriber. */
    method Write(text: string, now: int)
      requires Valid()
      modifies this
      ensures Valid()
      ensures Next(old(View()), Event(now, LogFiles.Write(text)), View())
      ensures Fanout() == if text == "" then old(Fanout()) else Published(old(Fanout()), text)
    {
      hide RotatesTo, Renamed, Sendable;
      ghost var s := View();
      if DayOf(now) != day || size >= LIMIT {
        Rotate(now);
      }
      ghost var mid := View();
      if text != "" {
        dir := dir[Active := File(dir[Active].text + text, now)];
        size := size + |text|;
        Publish(text);
      }
      assert View() == Appended(mid, text, now);
      assert !MustRotate(s, now) ==> mid == s;
    }

    /** The send loop: a subscriber whose buffer is full misses the line. */
    method Publish(line: string)
      requires Sendable(Fanout())
      modifies this`chans
      ensures Fanout() == Published(old(Fanout()), line) && Sendable(Fanout())
    {
      ghost var before := chans;
      var left := subs;
      while left != {}
        invariant left <= subs && chans.Keys == before.Keys
        invariant forall c :: c in before ==>
          chans[c] == if c in subs && c !in left then Offered(before[c], line) else before[c]
      {
        var c :| c in left;
        if |chans[c].queue| < SLOTS {
          chans := chans[c := Channel(chans[c].queue + [line], false)];
        }
        left := left - {c};
      }
    }

    method Configure(days: int, maxMiB: int, now: int)
      requires Valid()
      modifies this
      ensures Valid() && Fanout() == old(Fanout())
      ensures Next(old(View()), Event(now, LogFiles.Configure(days, maxMiB)), View())
    {
      hide Cleaned, Sendable;
      retention := days;
      maxTotal := maxMiB * 0x10_0000;
      Cleanup(now, true);
      CleanedKeepsActive(old(dir), dir, now - days * DAY, maxTotal, Extra(old(dir), true));
    }

    /** The active file is set aside, a fresh one opened, and then all others, the one set aside too, are deleted. */
    method Clear(aside: string, now: int)
      requires Valid()
      modifies this
      ensures Valid() && Fanout() == old(Fanout())
      ensures Next(old(View()), Event(now, LogFiles.Clear), View())
    {
      hide Sendable;
      var active := dir[Active];
      dir := (dir - {Active})[Other(aside) := active];
      Open(now);
      var left := dir.Keys;
      while left != {}
        modifies this`dir
        invariant Active in dir && dir[Active] == File("", now)
        invariant forall n :: n in dir && n != Active ==> n in left
      {
        var n :| n in left;
        left := left - {n};
        if n != Active {
          dir := dir - {n};
        }
      }
      ghost var none: Dir := map[];
      assert dir == none[Active := File("", now)];
    }

    method Subscribe(c: nat)
      requires Valid() && c !in chans
      modifies this`chans, this`subs
      ensures Valid() && Fanout() == Subscribed(old(Fanout()), c)
    {
      chans := chans[c := Channel([], false)];
      subs := subs + {c};
    }

    method Cancel(c: nat)
      requires Valid() && c in chans
      modifies this`chans, this`subs
      ensures Valid() && Fanout() == Cancelled(old(Fanout()), c)
    {
      if c in subs {
        subs := subs - {c};
        chans := chans[c := chans[c].(closed := true)];
      }
    }
  }

  lemma NothingListed()
    ensures Lists([], map[]) && DistinctNames([]) && SizeOf(map[]) == 0
  {
  }

  lemma StillThere(before: Dir, names: set<Name>, n: Name, cut: int)
    requires n in names && names <= before.Keys
    ensures n in Remaining(before, names, cut) && Remaining(before, names, cut)[n] == before[n]
  {
  }

  lemma CleanedKeepsActive(before: Dir, after: Dir, cut: int, cap: int, extra: int)
    requires Active in before && Cleaned(before, after, cut, cap, extra)
    ensures Active in after && after[Active] == before[Active]
  {
    hide SizeOf;
  }
}
