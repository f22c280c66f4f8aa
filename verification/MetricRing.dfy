/** The metric ring buffer of server/main.go: a fixed array written in place, read oldest first. */
module MetricRing {
  import opened Basics

  datatype MetricPoint = MetricPoint(
    t: int, cpu: real, memory: real, disk: real, temp: real, load1: real, netIn: real, netOut: real, tempValid: bool)

  datatype HistoryPoint = HistoryPoint(
    t: int, cpu: real, memory: real, disk: real, temperature: Option<real>, load1: real, netIn: real, netOut: real)

  const ZERO_POINT := MetricPoint(0, 0.0, 0.0, 0.0, 0.0, 0.0, 0.0, 0.0, false)

  function Rendered(p: MetricPoint): HistoryPoint {
    HistoryPoint(p.t, p.cpu, p.memory, p.disk, if p.tempValid then Some(p.temp) else None, p.load1, p.netIn, p.netOut)
  }

  function RenderedAll(s: seq<MetricPoint>): seq<HistoryPoint> {
    seq(|s|, i requires 0 <= i < |s| => Rendered(s[i]))
  }

  /** A bounded queue: append, and drop the oldest element when there is no room. */
  function Pushed(capacity: nat, s: seq<MetricPoint>, p: MetricPoint): seq<MetricPoint> {
    if capacity == 0 then s
    else if |s| < capacity then s + [p]
    else s[1..] + [p]
  }

  /** The points taken at cut or later, in order. */
  function Newer(s: seq<MetricPoint>, cut: int): seq<MetricPoint>
  {
    if s == [] then []
    else
      var rest := Newer(s[..|s| - 1], cut);
      var p := s[|s| - 1];
      if p.t >= cut then rest + [p] else rest
  }

  lemma NewerEmpty(cut: int)
    ensures Newer([], cut) == []
  {
  }

  lemma NewerSnoc(s: seq<MetricPoint>, p: MetricPoint, cut: int)
    ensures Newer(s + [p], cut) == if p.t >= cut then Newer(s, cut) + [p] else Newer(s, cut)
  {
    assert (s + [p])[..|s|] == s;
  }

  /** Selecting by time keeps exactly the points at or after the cut, in their order and with their repetitions. */
  lemma {:induction false} NewerExactly(s: seq<MetricPoint>, cut: int)
    ensures Subsequence(Newer(s, cut), s)
    ensures forall p :: p in Newer(s, cut) <==> p in s && p.t >= cut
    ensures forall p: MetricPoint :: p.t >= cut ==> multiset(Newer(s, cut))[p] == multiset(s)[p]
  {
    if s != [] {
      var front, p := s[..|s| - 1], s[|s| - 1];
      NewerExactly(front, cut);
      assert s == front + [p];
      SubsequenceSnoc(Newer(front, cut), front, p);
    }
  }

  /** The count elements that end just before index next of a circular buffer, oldest first. */
  function Unrolled(data: seq<MetricPoint>, next: nat, count: nat): (s: seq<MetricPoint>)
    requires next <= |data| && count <= |data|
    ensures |s| == count
  {
    if count <= next then data[next - count..next]
    else data[|data| + next - count..] + data[..next]
  }

  /** The slot after next, without the remainder. */
  function Following(next: nat, n: nat): nat {
    if next + 1 == n then 0 else next + 1
  }

  /** Writing one slot and stepping past it is a bounded push. */
  lemma UnrolledPush(data: seq<MetricPoint>, next: nat, count: nat, p: MetricPoint)
    requires next < |data| && count <= |data|
    ensures var count' := if count < |data| then count + 1 else count;
      Unrolled(data[next := p], Following(next, |data|), count') == Pushed(|data|, Unrolled(data, next, count), p)
  {
    var count' := if count < |data| then count + 1 else count;
    var r := Unrolled(data[next := p], Following(next, |data|), count');
    var q := Pushed(|data|, Unrolled(data, next, count), p);
    assert |r| == |q|;
    forall i | 0 <= i < |r| ensures r[i] == q[i] {
    }
  }

  /** Element i of the unrolled buffer sits i slots after the start, wrapping at most once. */
  lemma UnrolledAt(data: seq<MetricPoint>, next: nat, count: nat, start: nat, i: nat)
    requires next < |data| && i < count <= |data|
    requires start == if next < count then next - count + |data| else next - count
    ensures Unrolled(data, next, count)[i] == data[if start + i < |data| then start + i else start + i - |data|]
  {
  }

  lemma WrapOnce(x: nat, n: nat)
    requires 0 < n <= x < 2 * n
    ensures x % n == x - n
  {
    assert x == 1 * n + (x - n);
    assert (x - n) / n == 0;
    assert x / n == 1;
  }

  /** The index arithmetic x % n for indices that wrap at most once. */
  method Remainder(x: nat, n: nat) returns (r: nat)
    requires x < 2 * n
    ensures r == if x < n then x else x - n
  {
    if x >= n {
      WrapOnce(x, n);
    }
    r := x % n;
  }

  class Ring {
    const points: array<MetricPoint>
    var next: nat
    var count: nat

    ghost predicate Valid()
      reads this, points
    {
      count <= points.Length && (if points.Length == 0 then next == 0 else next < points.Length)
    }

    /** The stored points, oldest first. */
    ghost function Contents(): (s: seq<MetricPoint>)
      requires Valid()
      reads this, points
      ensures |s| == count
    {
      Unrolled(points[..], next, count)
    }

    constructor (n: nat)
      ensures Valid() && Contents() == [] && points.Length == n && fresh(points)
    {
      points := new MetricPoint[n](_ => ZERO_POINT);
      next, count := 0, 0;
    }

    method Add(p: MetricPoint)
      requires Valid()
      modifies this, points
      ensures Valid()
      ensures Contents() == Pushed(points.Length, old(Contents()), p)
    {
      hide Unrolled;
      if points.Length == 0 {
        return;
      }
      UnrolledPush(points[..], next, count, p);
      points[next] := p;
      assert points[..] == old(points[..])[next := p];
      next := Remainder(next + 1, points.Length);
      if count < points.Length {
        count := count + 1;
      }
    }

    method All() returns (out: seq<MetricPoint>)
      requires Valid()
      ensures out == Contents()
    {
      out := [];
      var start: int := next - count;
      if start < 0 {
        start := start + points.Length;
      }
      ghost var data, s := points[..], Contents();
      for i := 0 to count
        invariant out == s[..i]
      {
        var k := Remainder(start + i, points.Length);
        UnrolledAt(data, next, count, start, i);
        assert points[k] == data[k];
        out := out + [points[k]];
      }
    }

    method Since(cut: int) returns (out: seq<HistoryPoint>)
      requires Valid()
      ensures out == RenderedAll(Newer(Contents(), cut))
    {
      hide Newer;
      out := [];
      var all := All();
      NewerEmpty(cut);
      for i := 0 to |all|
        invariant out == RenderedAll(Newer(all[..i], cut))
      {
        NewerSnoc(all[..i], all[i], cut);
        assert all[..i + 1] == all[..i] + [all[i]];
        if all[i].t < cut {
          continue;
        }
        out := out + [Rendered(all[i])];
      }
      assert all[..|all|] == all;
    }

    method Prune(cut: int)
      requires Valid()
      modifies this, points
      ensures Valid()
      ensures Contents() == Newer(old(Contents()), cut)
    {
      hide Newer;
      var all := All();
      NewerEmpty(cut);
      next := 0;
      count := 0;
      for i := 0 to |all|
        invariant Valid() && count <= i && Contents() == Newer(all[..i], cut)
      {
        NewerSnoc(all[..i], all[i], cut);
        assert all[..i + 1] == all[..i] + [all[i]];
        if all[i].t >= cut {
          Add(all[i]);
        }
      }
      assert all[..|all|] == all;
    }
  }
}
