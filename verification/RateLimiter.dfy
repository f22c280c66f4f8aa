/** The registration rate limiter of server/final.go: a sliding window per address, filtered in place in its array. */
module RateLimiter {
  const WINDOW := 60
  const LIMIT: nat := 20

  /** The timestamps less than a minute old, in order. */
  function Live(times: seq<int>, now: int): seq<int> {
    if times == [] then []
    else
      var t := times[|times| - 1];
      Live(times[..|times| - 1], now) + (if now - t < WINDOW then [t] else [])
  }

  /** The window after a decision, and the decision. */
  function Decided(window: seq<int>, now: int): (seq<int>, bool) {
    var live := Live(window, now);
    if |live| >= LIMIT then (live, false) else (live + [now], true)
  }

  lemma LiveSnoc(times: seq<int>, t: int, now: int)
    ensures Live(times + [t], now) == Live(times, now) + (if now - t < 60 then [t] else [])
  {
    assert (times + [t])[..|times|] == times;
  }

  lemma LiveEmpty(now: int)
    ensures Live([], now) == []
  {
  }

  /** One address's slice: a backing array and the length in use. */
  class Window {
    var data: array<int>
    var len: nat

    ghost predicate Valid()
      reads this
    {
      len <= data.Length
    }

    ghost function Times(): seq<int>
      requires Valid()
      reads this, data
    {
      data[..len]
    }

    constructor ()
      ensures Valid() && Times() == [] && fresh(data)
    {
      data := new int[4];
      len := 0;
    }

    /** xs := window[:0]; appending to xs overwrites the very slots still being read, never one not yet read. */
    method FilterInPlace(now: int) returns (w: nat)
      requires Valid()
      modifies data
      ensures w <= len && data[..w] == Live(old(Times()), now)
    {
      hide Live;
      ghost var was := Times();
      LiveEmpty(now);
      w := 0;
      for r := 0 to len
        invariant w <= r
        invariant data[..w] == Live(was[..r], now)
        invariant forall k :: r <= k < len ==> data[k] == was[k]
      {
        LiveSnoc(was[..r], was[r], now);
        assert was[..r + 1] == was[..r] + [was[r]];
        var t := data[r];
        if now - t < 60 {
          data[w] := t;
          w := w + 1;
        }
      }
      assert was[..len] == was;
    }

    /** append: reuse the backing array while it has room, otherwise move to a larger one. */
    method Append(w: nat, t: int)
      requires Valid() && w <= len
      modifies this, data
      ensures Valid() && Times() == old(data[..w]) + [t]
      ensures data == old(data) || fresh(data)
    {
      if w == data.Length {
        var bigger := new int[2 * w + 1](i requires 0 <= i reads this, data => if i < data.Length then data[i] else 0);
        data := bigger;
      }
      data[w] := t;
      len := w + 1;
    }

    method Allow(now: int) returns (allowed: bool)
      requires Valid()
      modifies this, data
      ensures Valid() && (data == old(data) || fresh(data))
      ensures (Times(), allowed) == Decided(old(Times()), now)
    {
      var w := FilterInPlace(now);
      if w >= 20 {
        len := w;
        return false;
      }
      Append(w, now);
      return true;
    }
  }

  type Windows = map<string, seq<int>>

  function WindowOf(m: Windows, ip: string): seq<int> {
    if ip in m then m[ip] else []
  }

  function Step(m: Windows, ip: string, now: int): (Windows, bool) {
    var (window, allowed) := Decided(WindowOf(m, ip), now);
    (m[ip := window], allowed)
  }

  /** a.enrollRate: addresses with their own slices, which never share a backing array. */
  class Limiter {
    var windows: map<string, Window>
    ghost var view: Windows

    ghost predicate Holds(ip: string)
      requires ip in windows
      reads this, windows[ip], windows[ip].data
    {
      windows[ip].Valid() && ip in view && windows[ip].Times() == view[ip]
    }

    ghost predicate Valid()
      reads this, windows.Values, set ip | ip in windows :: windows[ip].data
    {
      && view.Keys == windows.Keys
      && (forall ip :: ip in windows ==> Holds(ip))
      && (forall a, b :: a in windows && b in windows && a != b ==>
            windows[a] != windows[b] && windows[a].data != windows[b].data)
    }

    constructor ()
      ensures Valid() && view == map[]
    {
      windows, view := map[], map[];
    }

    /** An address seen for the first time starts with an empty slice. */
    method Ensure(ip: string)
      requires Valid()
      modifies this
      ensures Valid() && ip in windows
      ensures if ip in old(windows) then windows == old(windows) && view == old(view)
              else view == old(view)[ip := []] && fresh(windows[ip]) && fresh(windows[ip].data)
    {
      if ip !in windows {
        var w := new Window();
        windows, view := windows[ip := w], view[ip := []];
      }
    }

    /** No other address's slice is w or shares its array. */
    ghost predicate Apart(ip: string, w: Window)
      reads this, w, windows.Values
    {
      forall a :: a in windows && a != ip ==> windows[a] != w && windows[a].data != w.data
    }

    ghost predicate OthersDistinct(ip: string)
      reads this, windows.Values
    {
      forall a, b :: a in windows && b in windows && a != b && a != ip && b != ip ==>
        windows[a] != windows[b] && windows[a].data != windows[b].data
    }

    ghost predicate OthersHold(ip: string)
      reads this, windows.Values, set a | a in windows :: windows[a].data
    {
      forall a :: a in windows && a != ip ==> Holds(a)
    }

    method AllowKnown(ip: string, now: int) returns (allowed: bool)
      requires Valid() && ip in windows
      modifies this`view, windows[ip], windows[ip].data
      ensures Valid()
      ensures view == old(view)[ip := Decided(old(view)[ip], now).0]
      ensures allowed == Decided(old(view)[ip], now).1
    {
      hide Decided, Valid;
      var w := windows[ip];
      TakeApart(ip);
      allowed := w.Allow(now);
      view := view[ip := w.Times()];
      assert Apart(ip, w) && OthersDistinct(ip);
      assert OthersHold(ip);
      Reassemble(ip);
    }

    lemma TakeApart(ip: string)
      requires Valid() && ip in windows
      ensures Holds(ip) && view.Keys == windows.Keys
      ensures Apart(ip, windows[ip]) && OthersDistinct(ip) && OthersHold(ip)
    {
    }

    lemma Reassemble(ip: string)
      requires ip in windows && Holds(ip) && view.Keys == windows.Keys
      requires Apart(ip, windows[ip]) && OthersDistinct(ip) && OthersHold(ip)
      ensures Valid()
    {
    }

    method Allow(ip: string, now: int) returns (allowed: bool)
      requires Valid()
      modifies this, if ip in windows then {windows[ip], windows[ip].data} else {}
      ensures Valid()
      ensures (view, allowed) == Step(old(view), ip, now)
    {
      hide Decided, Valid;
      assert ip in windows <==> ip in view by {
        KeysAgree();
      }
      Ensure(ip);
      allowed := AllowKnown(ip, now);
      assert view == old(view)[ip := view[ip]];
    }

    lemma KeysAgree()
      requires Valid()
      ensures view.Keys == windows.Keys
    {
    }
  }

  // ---------- Runs ----------

  datatype Attempt = Attempt(ip: string, now: int)

  function After(es: seq<Attempt>): Windows {
    if es == [] then map[] else Step(After(es[..|es| - 1]), es[|es| - 1].ip, es[|es| - 1].now).0
  }

  function AllowedAt(es: seq<Attempt>, i: nat): bool
    requires i < |es|
  {
    Step(After(es[..i]), es[i].ip, es[i].now).1
  }

  /** Every registration let through for an address, whole history. */
  function Accepted(es: seq<Attempt>, ip: string): seq<int> {
    if es == [] then []
    else
      var n := |es| - 1;
      Accepted(es[..n], ip) + (if es[n].ip == ip && AllowedAt(es, n) then [es[n].now] else [])
  }

  ghost predicate ClockMonotone(es: seq<Attempt>) {
    forall i, j :: 0 <= i < j < |es| ==> es[i].now <= es[j].now
  }

  /** Forgetting early what is already too old changes no later window. */
  lemma {:induction false} LiveOfLive(s: seq<int>, now: int, later: int)
    requires now <= later
    ensures Live(Live(s, now), later) == Live(s, later)
  {
    hide Live;
    LiveEmpty(now);
    LiveEmpty(later);
    if s != [] {
      var front, t := s[..|s| - 1], s[|s| - 1];
      assert s == front + [t];
      LiveOfLive(front, now, later);
      LiveSnoc(front, t, now);
      LiveSnoc(front, t, later);
      LiveSnoc(Live(front, now), t, later);
      assert Live(front, now) + [] == Live(front, now) && Live(front, later) + [] == Live(front, later);
    }
  }

  /** The kept window and the whole history have the same live part. */
  lemma {:induction false} WindowIsHistory(es: seq<Attempt>, ip: string, now: int)
    requires ClockMonotone(es) && (es != [] ==> es[|es| - 1].now <= now)
    ensures Live(WindowOf(After(es), ip), now) == Live(Accepted(es, ip), now)
  {
    hide Live, Decided;
    LiveEmpty(now);
    if es != [] {
      var n := |es| - 1;
      var e := es[n];
      WindowIsHistory(es[..n], ip, now);
      assert Accepted(es[..n], ip) + [] == Accepted(es[..n], ip);
      if e.ip == ip {
        WindowIsHistory(es[..n], ip, e.now);
        DecisionKeepsLive(WindowOf(After(es[..n]), ip), Accepted(es[..n], ip), e.now, now);
      }
    }
  }

  lemma DecisionKeepsLive(window: seq<int>, accepted: seq<int>, now: int, later: int)
    requires now <= later && Live(window, later) == Live(accepted, later)
    ensures Live(Decided(window, now).0, later)
      == Live(accepted + (if Decided(window, now).1 then [now] else []), later)
  {
    hide Live;
    LiveOfLive(window, now, later);
    LiveSnoc(Live(window, now), now, later);
    LiveSnoc(accepted, now, later);
    assert accepted + [] == accepted;
  }

  /** Each decision is the one a counter over the whole history would make. */
  lemma DecisionByFullHistory(es: seq<Attempt>, i: nat)
    requires ClockMonotone(es) && i < |es|
    ensures AllowedAt(es, i) <==> |Live(Accepted(es[..i], es[i].ip), es[i].now)| < 20
  {
    WindowIsHistory(es[..i], es[i].ip, es[i].now);
  }

  /** How many timestamps lie in the minute that starts at lo. */
  function InMinute(s: seq<int>, lo: int): nat {
    if s == [] then 0
    else InMinute(s[..|s| - 1], lo) + (if lo <= s[|s| - 1] < lo + 60 then 1 else 0)
  }

  lemma {:induction false} MinuteIsLive(s: seq<int>, lo: int, now: int)
    requires now < lo + 60
    ensures InMinute(s, lo) <= |Live(s, now)|
  {
    if s != [] {
      MinuteIsLive(s[..|s| - 1], lo, now);
    }
  }

  /** On timestamps up to now, the live ones are those of the last sixty seconds. */
  lemma {:induction false} LiveIsMinute(s: seq<int>, now: int)
    requires forall i :: 0 <= i < |s| ==> s[i] <= now
    ensures |Live(s, now)| == InMinute(s, now - 59)
  {
    if s != [] {
      LiveIsMinute(s[..|s| - 1], now);
    }
  }

  /** Each request is let through exactly if fewer than twenty of its address were in the last sixty seconds. */
  lemma DecisionByCounting(es: seq<Attempt>, i: nat)
    requires ClockMonotone(es) && i < |es|
    ensures AllowedAt(es, i) <==> InMinute(Accepted(es[..i], es[i].ip), es[i].now - 59) < 20
  {
    hide Live, InMinute, AllowedAt;
    DecisionByFullHistory(es, i);
    AcceptedEarlier(es[..i], es[i].ip, es[i].now);
    LiveIsMinute(Accepted(es[..i], es[i].ip), es[i].now);
  }

  lemma {:induction false} AcceptedEarlier(es: seq<Attempt>, ip: string, now: int)
    requires forall i :: 0 <= i < |es| ==> es[i].now <= now
    ensures forall i :: 0 <= i < |Accepted(es, ip)| ==> Accepted(es, ip)[i] <= now
  {
    hide AllowedAt;
    if es != [] {
      AcceptedEarlier(es[..|es| - 1], ip, now);
    }
  }

  /** However requests arrive, no minute ever holds more than twenty registrations from one address. */
  lemma {:induction false} AtMostTwentyAMinute(es: seq<Attempt>, ip: string, lo: int)
    requires ClockMonotone(es)
    ensures InMinute(Accepted(es, ip), lo) <= 20
  {
    hide Live, InMinute, AllowedAt;
    if es == [] {
      InMinuteEmpty(lo);
    } else {
      var n := |es| - 1;
      var e := es[n];
      var earlier := Accepted(es[..n], ip);
      AtMostTwentyAMinute(es[..n], ip, lo);
      assert earlier + [] == earlier;
      InMinuteSnoc(earlier, e.now, lo);
      if e.ip == ip && AllowedAt(es, n) && e.now < lo + WINDOW {
        DecisionByFullHistory(es, n);
        MinuteIsLive(earlier, lo, e.now);
      }
    }
  }

  lemma InMinuteEmpty(lo: int)
    ensures InMinute([], lo) == 0
  {
  }

  lemma InMinuteSnoc(s: seq<int>, t: int, lo: int)
    ensures InMinute(s + [t], lo) == InMinute(s, lo) + (if lo <= t < lo + 60 then 1 else 0)
  {
    assert (s + [t])[..|s|] == s;
  }

  /** The limit is reached: twenty requests in one second all pass, and the next one does not. */
  lemma LimitIsReached(window: seq<int>, now: int)
    requires |window| == 20 && forall i :: 0 <= i < |window| ==> window[i] == now
    ensures Decided(window, now) == (window, false)
    ensures Decided(window, now + 60) == ([now + 60], true)
  {
    AllLive(window, now);
    NoneLive(window, now + WINDOW);
    assert [] + [now + WINDOW] == [now + WINDOW];
  }

  lemma {:induction false} AllLive(s: seq<int>, now: int)
    requires forall i :: 0 <= i < |s| ==> now - s[i] < 60
    ensures Live(s, now) == s
  {
    if s != [] {
      AllLive(s[..|s| - 1], now);
    }
  }

  lemma {:induction false} NoneLive(s: seq<int>, now: int)
    requires forall i :: 0 <= i < |s| ==> now - s[i] >= 60
    ensures Live(s, now) == []
  {
    if s != [] {
      NoneLive(s[..|s| - 1], now);
    }
  }
}
