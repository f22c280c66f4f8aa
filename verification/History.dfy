/** One node's metric history: the 5-second gate, the hourly prune, and how queries compare with an unbounded log. */
module History {
  import opened Basics
  import opened MetricRing

  const CAPACITY: nat := 720
  const GATE := 5 * SECOND
  const HOUR := 3600

  /** The history fields of RuntimeNode; last is the nanosecond instant of the newest point. */
  datatype HistoryState = HistoryState(points: seq<MetricPoint>, last: Option<int>)

  const EMPTY := HistoryState([], None)

  predicate GateOpen(last: Option<int>, now: int) {
    last.None? || now - last.value >= GATE
  }

  function Beat(h: HistoryState, now: int, sample: MetricPoint): HistoryState {
    if GateOpen(h.last, now) then HistoryState(Pushed(CAPACITY, h.points, sample.(t := Unix(now))), Some(now))
    else h
  }

  function Tick(h: HistoryState, now: int): HistoryState {
    h.(points := Newer(h.points, Unix(now) - HOUR))
  }

  /** Unsupported window lengths fall back to ten minutes. */
  function WindowMinutes(asked: int): int {
    if asked == 1 || asked == 5 || asked == 10 || asked == 30 || asked == 60 then asked else 10
  }

  function Answer(h: HistoryState, now: int, minutes: int): seq<HistoryPoint> {
    RenderedAll(Newer(h.points, Unix(now) - 60 * WindowMinutes(minutes)))
  }

  /** The history part of server/main.go's RuntimeNode, updated in place. */
  class RuntimeNode {
    const ring: Ring
    var lastHistory: Option<int>

    ghost predicate Valid()
      reads this, ring, ring.points
    {
      ring.Valid() && ring.points.Length == CAPACITY
    }

    ghost function View(): HistoryState
      requires Valid()
      reads this, ring, ring.points
    {
      HistoryState(ring.Contents(), lastHistory)
    }

    constructor ()
      ensures Valid() && fresh(ring) && fresh(ring.points)
      ensures View() == EMPTY
    {
      ring := new Ring(CAPACITY);
      lastHistory := None;
    }

    method Heartbeat(now: int, sample: MetricPoint)
      requires Valid()
      modifies this, ring, ring.points
      ensures Valid()
      ensures View() == Beat(old(View()), now, sample)
    {
      if lastHistory.None? || now - lastHistory.value >= 5 * SECOND {
        ring.Add(sample.(t := Unix(now)));
        lastHistory := Some(now);
      }
    }

    method Maintain(now: int)
      requires Valid()
      modifies this, ring, ring.points
      ensures Valid()
      ensures View() == Tick(old(View()), now)
    {
      ring.Prune(Unix(now) - HOUR);
    }

    method Query(now: int, minutes: int) returns (out: seq<HistoryPoint>)
      requires Valid()
      ensures out == Answer(View(), now, minutes)
    {
      var m := minutes;
      if m != 1 && m != 5 && m != 10 && m != 30 && m != 60 {
        m := 10;
      }
      out := ring.Since(Unix(now) - 60 * m);
    }
  }

  // ---------- Runs, compared with a log that never forgets ----------

  datatype Event = Heartbeat(now: int, sample: MetricPoint) | Maintenance(now: int)

  function After(h: HistoryState, e: Event): HistoryState {
    match e
    case Heartbeat(now, sample) => Beat(h, now, sample)
    case Maintenance(now) => Tick(h, now)
  }

  /** The unbounded log takes every point the gate lets through and forgets nothing. */
  function Logged(log: seq<MetricPoint>, last: Option<int>, e: Event): seq<MetricPoint> {
    match e
    case Heartbeat(now, sample) => if GateOpen(last, now) then log + [sample.(t := Unix(now))] else log
    case Maintenance(_) => log
  }

  /** The state and the unbounded log after a run from an empty history. */
  function Run(es: seq<Event>): (HistoryState, seq<MetricPoint>) {
    if es == [] then (EMPTY, [])
    else
      var (h, log) := Run(es[..|es| - 1]);
      var e := es[|es| - 1];
      (After(h, e), Logged(log, h.last, e))
  }

  ghost predicate ClockMonotone(es: seq<Event>) {
    forall i, j :: 0 <= i < j < |es| ==> es[i].now <= es[j].now
  }

  ghost predicate Increasing(s: seq<MetricPoint>) {
    forall i, j :: 0 <= i < j < |s| ==> s[i].t < s[j].t
  }

  /** How far point i lies ahead of a point every five seconds. */
  ghost function Lead(s: seq<MetricPoint>, i: nat): int
    requires i < |s|
  {
    s[i].t - 5 * i
  }

  /** Any two points are at least five seconds per step apart. */
  ghost predicate Spaced(s: seq<MetricPoint>) {
    forall i, j :: 0 <= i < j < |s| ==> Lead(s, i) <= Lead(s, j)
  }

  lemma SpacedIncreasing(s: seq<MetricPoint>)
    requires Spaced(s)
    ensures Increasing(s)
  {
    forall i, j | 0 <= i < j < |s| ensures s[i].t < s[j].t {
      assert Lead(s, i) <= Lead(s, j);
    }
  }

  lemma SpacedSnoc(s: seq<MetricPoint>, p: MetricPoint)
    requires Spaced(s)
    requires s != [] ==> s[|s| - 1].t + 5 <= p.t
    ensures Spaced(s + [p])
  {
    var s' := s + [p];
    forall i, j | 0 <= i < j < |s'| ensures Lead(s', i) <= Lead(s', j) {
      assert Lead(s', i) == Lead(s, i);
      if j < |s| {
        assert Lead(s', j) == Lead(s, j);
      } else if i < |s| - 1 {
        assert Lead(s, i) <= Lead(s, |s| - 1);
      }
    }
  }

  /** The stored points are the log from index k on; what is missing is over an hour old or has 720 successors. */
  ghost predicate Kept(points: seq<MetricPoint>, log: seq<MetricPoint>, k: nat, sec: int) {
    && k <= |log|
    && points == log[k..]
    && |points| <= CAPACITY
    && forall i :: 0 <= i < k ==> log[i].t < sec - HOUR || |log| - i > CAPACITY
  }

  ghost predicate Linked(h: HistoryState, log: seq<MetricPoint>, k: nat, now: int) {
    && Kept(h.points, log, k, Unix(now))
    && Spaced(log)
    && (h.last.None? <==> log == [])
    && (h.last.Some? ==> h.last.value <= now && log[|log| - 1].t == Unix(h.last.value))
  }

  /** On a log with increasing times, selecting by time cuts off a prefix. */
  lemma {:induction false} NewerIsSuffix(s: seq<MetricPoint>, cut: int) returns (j: nat)
    requires Increasing(s)
    ensures j <= |s| && Newer(s, cut) == s[j..]
    ensures forall i :: 0 <= i < j ==> s[i].t < cut
    ensures forall i :: j <= i < |s| ==> cut <= s[i].t
  {
    hide Newer;
    if s == [] {
      NewerEmpty(cut);
      j := 0;
    } else {
      var front, p := s[..|s| - 1], s[|s| - 1];
      assert s == front + [p];
      NewerSnoc(front, p, cut);
      j := NewerIsSuffix(front, cut);
      if p.t < cut {
        assert j == |front|;
        j := |s|;
      }
    }
  }

  lemma BeatKeepsLink(h: HistoryState, log: seq<MetricPoint>, k: nat, now: int, t: int, p: MetricPoint)
    returns (k': nat)
    requires Linked(h, log, k, now) && now <= t
    requires GateOpen(h.last, t) && p.t == Unix(t)
    ensures Linked(HistoryState(Pushed(720, h.points, p), Some(t)), log + [p], k', t)
  {
    k' := if |h.points| == CAPACITY then k + 1 else k;
    assert Pushed(CAPACITY, h.points, p) == (log + [p])[k'..];
    SpacedSnoc(log, p);
  }

  lemma DroppingKeepsKept(points: seq<MetricPoint>, log: seq<MetricPoint>, k: nat, sec: int, j: nat, sec': int)
    requires Kept(points, log, k, sec) && sec <= sec' && j <= |points|
    requires forall i :: 0 <= i < j ==> points[i].t < sec' - 3600
    ensures Kept(points[j..], log, k + j, sec')
  {
    forall i | 0 <= i < k + j ensures log[i].t < sec' - HOUR || |log| - i > CAPACITY {
      if k <= i {
        assert log[i] == points[i - k];
      }
    }
  }

  lemma KeptIncreasing(points: seq<MetricPoint>, log: seq<MetricPoint>, k: nat, sec: int)
    requires Kept(points, log, k, sec) && Spaced(log)
    ensures Increasing(points)
  {
    SpacedIncreasing(log);
  }

  lemma TickKeepsLink(h: HistoryState, log: seq<MetricPoint>, k: nat, now: int, t: int) returns (k': nat)
    requires Linked(h, log, k, now) && now <= t
    ensures Linked(Tick(h, t), log, k', t)
  {
    hide Newer, Spaced, Kept;
    KeptIncreasing(h.points, log, k, Unix(now));
    var j := NewerIsSuffix(h.points, Unix(t) - HOUR);
    DroppingKeepsKept(h.points, log, k, Unix(now), j, Unix(t));
    k' := k + j;
  }

  lemma StepKeepsLink(h: HistoryState, log: seq<MetricPoint>, k: nat, now: int, e: Event) returns (k': nat)
    requires Linked(h, log, k, now) && now <= e.now
    ensures Linked(After(h, e), Logged(log, h.last, e), k', e.now)
  {
    hide Newer, Tick, Pushed, Kept, Spaced;
    match e {
      case Heartbeat(t, sample) =>
        if GateOpen(h.last, t) {
          k' := BeatKeepsLink(h, log, k, now, t, sample.(t := Unix(t)));
        } else {
          k' := k;
          LaterKeepsLink(h, log, k, now, t);
        }
      case Maintenance(t) =>
        k' := TickKeepsLink(h, log, k, now, t);
    }
  }

  lemma LaterKeepsLink(h: HistoryState, log: seq<MetricPoint>, k: nat, now: int, t: int)
    requires Linked(h, log, k, now) && now <= t
    ensures Linked(h, log, k, t)
  {
  }

  lemma {:induction false} RunLinked(es: seq<Event>, now: int) returns (k: nat)
    requires ClockMonotone(es) && (es != [] ==> es[|es| - 1].now <= now)
    ensures Linked(Run(es).0, Run(es).1, k, now)
  {
    if es == [] {
      k := 0;
    } else {
      var front := es[..|es| - 1];
      var e := es[|es| - 1];
      k := RunLinked(front, e.now);
      k := StepKeepsLink(Run(front).0, Run(front).1, k, e.now, e);
    }
  }

  function Newest(n: nat, s: seq<MetricPoint>): seq<MetricPoint> {
    if |s| <= n then s else s[|s| - n..]
  }

  /** Selecting by time after cutting off k points. */
  lemma NewerOfSuffix(log: seq<MetricPoint>, k: nat, cut: int) returns (j: nat)
    requires Increasing(log) && k <= |log|
    ensures j <= |log| && Newer(log, cut) == log[j..]
    ensures Newer(log[k..], cut) == log[if j < k then k else j..]
    ensures (j < |log| ==> cut <= log[j].t) && (j < k ==> cut <= log[k - 1].t)
  {
    var points := log[k..];
    j := NewerIsSuffix(log, cut);
    var m := NewerIsSuffix(points, cut);
    assert m > 0 ==> points[m - 1] == log[k + m - 1];
    assert m < |points| ==> points[m] == log[k + m];
  }

  lemma SuffixAnswers(points: seq<MetricPoint>, log: seq<MetricPoint>, k: nat, sec: int, cut: int)
    requires Kept(points, log, k, sec) && Spaced(log)
    requires log != [] ==> log[|log| - 1].t <= sec
    requires sec - 3600 <= cut
    ensures Newer(points, cut) == Newest(720, Newer(log, cut))
    ensures |Newer(log, cut)| > 720 ==>
      cut == sec - 3600 && |Newer(log, cut)| == 720 + 1 && Newer(log, cut)[0].t == cut
  {
    SpacedIncreasing(log);
    var j := NewerOfSuffix(log, k, cut);
    var n := |log|;
    if j < n {
      assert Lead(log, j) <= Lead(log, n - 1);
      assert 5 * (n - 1 - j) <= HOUR;
    }
    if j < k {
      assert n - (k - 1) > CAPACITY;
      assert log[j..][n - j - CAPACITY..] == log[n - CAPACITY..];
    }
  }

  /**
   * Whatever the run, asking the bounded and pruned ring for points since any cut within the last hour gives the
   * newest 720 of the points the unbounded log has since that cut. Cuts younger than an hour lose nothing; at a cut of
   * exactly one hour the log can hold one point more than the ring, and that point is exactly 3600 seconds old.
   */
  lemma RingAnswersLikeLog(es: seq<Event>, now: int, cut: int)
    requires ClockMonotone(es) && (es != [] ==> es[|es| - 1].now <= now)
    requires Unix(now) - 3600 <= cut
    ensures var (h, log) := Run(es);
      && Newer(h.points, cut) == Newest(720, Newer(log, cut))
      && (Newer(h.points, cut) == Newer(log, cut) <==> |Newer(log, cut)| <= 720)
      && (|Newer(log, cut)| > 720 ==>
            && cut == Unix(now) - 3600
            && |Newer(log, cut)| == 720 + 1
            && Newer(log, cut)[0].t == cut)
  {
    var k := RunLinked(es, now);
    SuffixAnswers(Run(es).0.points, Run(es).1, k, Unix(now), cut);
  }

  /** What the history endpoint returns, against the log: nothing is lost unless 721 points span exactly one hour. */
  lemma QueryAnswersLikeLog(es: seq<Event>, now: int, minutes: int)
    requires ClockMonotone(es) && (es != [] ==> es[|es| - 1].now <= now)
    ensures var (h, log) := Run(es);
      var wanted := Newer(log, Unix(now) - 60 * WindowMinutes(minutes));
      && Answer(h, now, minutes) == RenderedAll(Newest(720, wanted))
      && (WindowMinutes(minutes) != 60 ==> Answer(h, now, minutes) == RenderedAll(wanted))
  {
    RingAnswersLikeLog(es, now, Unix(now) - 60 * WindowMinutes(minutes));
  }

  /**
   * The answer of the history endpoint, field by field: the stored points of the last 1, 5, 10, 30 or 60 minutes, of
   * the last 10 for any other length asked for, oldest first, each with its own values, and with a temperature where
   * there was one.
   */
  lemma AnswerFieldByField(h: HistoryState, now: int, minutes: int) returns (kept: seq<MetricPoint>)
    ensures var cut := Unix(now) - 60 * if minutes in {1, 5, 10, 30, 60} then minutes else 10;
      && Subsequence(kept, h.points)
      && (forall p :: p in kept <==> p in h.points && p.t >= cut)
      && |Answer(h, now, minutes)| == |kept|
      && forall i :: 0 <= i < |kept| ==>
           var shown := Answer(h, now, minutes)[i];
           && shown.t == kept[i].t && shown.cpu == kept[i].cpu && shown.memory == kept[i].memory
           && shown.disk == kept[i].disk && shown.load1 == kept[i].load1
           && shown.netIn == kept[i].netIn && shown.netOut == kept[i].netOut
           && (shown.temperature.Some? <==> kept[i].tempValid)
           && (kept[i].tempValid ==> shown.temperature == Some(kept[i].temp))
  {
    var cut := Unix(now) - 60 * if minutes in {1, 5, 10, 30, 60} then minutes else 10;
    kept := Newer(h.points, cut);
    NewerExactly(h.points, cut);
    hide Newer;
  }

  /** A heartbeat every five seconds: the i-th at second 5i. */
  function EveryFive(n: nat): seq<Event> {
    seq(n, i requires 0 <= i < n => Heartbeat(5 * i * SECOND, ZERO_POINT))
  }

  lemma {:induction false} EveryFiveLog(n: nat)
    ensures var (h, log) := Run(EveryFive(n));
      && |log| == n
      && (forall i :: 0 <= i < n ==> log[i].t == 5 * i)
      && (if n == 0 then h.last.None? else h.last == Some(5 * (n - 1) * SECOND))
  {
    if n > 0 {
      EveryFiveLog(n - 1);
      assert EveryFive(n)[..n - 1] == EveryFive(n - 1);
      assert Unix(5 * (n - 1) * SECOND) == 5 * (n - 1);
    }
  }

  /** The hour-old point really can be missing: 721 heartbeats in one hour, asked for at the end of it. */
  lemma HourOldPointCanBeLost()
    ensures var es := EveryFive(721);
      var now := 3600 * SECOND;
      var (h, log) := Run(es);
      && ClockMonotone(es) && es[720].now == now
      && |Newer(log, 0)| == 721
      && |Answer(h, now, 60)| == 720
  {
    var es := EveryFive(721);
    var now := 3600 * SECOND;
    EveryFiveLog(721);
    var k := RunLinked(es, now);
    var log := Run(es).1;
    SpacedIncreasing(log);
    assert 0 <= log[0].t;
    var j := NewerIsSuffix(log, 0);
    assert j == 0;
    RingAnswersLikeLog(es, now, 0);
  }
}
