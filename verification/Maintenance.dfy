/**
 * The maintenance sweep is invisible: a run with its maintenance ticks erased gives every other event the same answer.
 * Each thing the sweep deletes is something the matching reader already ignores, and stays ignored as time passes.
 */
module Maintenance {
  import opened Basics
  import opened MetricRing
  import H = History
  import opened Identity

  // ---------- What the sweep may have removed by time now ----------

  /** The swept history is the tail of the unswept one; what is missing is more than an hour old. */
  ghost predicate HistoryBehind(swept: H.HistoryState, kept: H.HistoryState, now: int) {
    && swept.last == kept.last
    && |swept.points| <= |kept.points|
    && swept.points == kept.points[|kept.points| - |swept.points|..]
    && forall i :: 0 <= i < |kept.points| - |swept.points| ==> kept.points[i].t < Unix(now) - H.HOUR
  }

  ghost predicate NodeBehind(swept: Node, kept: Node, now: int) {
    swept == kept || (kept.previousExpires < Unix(now) && swept == kept.(previousSecret := "", previousExpires := 0))
  }

  ghost predicate NodesBehind(swept: map<string, Node>, kept: map<string, Node>, now: int) {
    && swept.Keys == kept.Keys
    && forall id :: id in kept ==> NodeBehind(swept[id], kept[id], now)
  }

  ghost predicate EnrollmentsBehind(swept: map<Digest, Enrollment>, kept: map<Digest, Enrollment>, now: int) {
    && (forall h :: h in swept ==> h in kept && swept[h] == kept[h])
    && (forall h :: h in kept && h !in swept ==> TokenExpired(kept[h], Unix(now)))
  }

  ghost predicate ReceiptsBehind(swept: map<Digest, Receipt>, kept: map<Digest, Receipt>, now: int) {
    && (forall k :: k in swept ==> k in kept && swept[k] == kept[k])
    && (forall k :: k in kept && k !in swept ==> kept[k].expiresAt < Unix(now))
  }

  ghost predicate SessionsBehind(swept: map<string, Session>, kept: map<string, Session>, now: int) {
    && (forall k :: k in swept ==> k in kept && swept[k] == kept[k])
    && (forall k :: k in kept && k !in swept ==> kept[k].expires < now)
  }

  ghost predicate RuntimeBehind(swept: map<string, H.HistoryState>, kept: map<string, H.HistoryState>, now: int) {
    && swept.Keys == kept.Keys
    && forall id :: id in kept ==> HistoryBehind(swept[id], kept[id], now)
  }

  ghost predicate Behind(swept: State, kept: State, now: int) {
    && NodesBehind(swept.nodes, kept.nodes, now)
    && EnrollmentsBehind(swept.enrollments, kept.enrollments, now)
    && ReceiptsBehind(swept.receipts, kept.receipts, now)
    && SessionsBehind(swept.sessions, kept.sessions, now)
    && RuntimeBehind(swept.runtime, kept.runtime, now)
  }

  /** At most one common token is stored. */
  ghost predicate OneCommon(m: map<Digest, Enrollment>) {
    forall h1, h2 :: h1 in m && h2 in m ==> (m[h1].reusable && m[h2].reusable ==> h1 == h2)
  }

  /** Stored points have increasing times, none later than the last one taken. */
  ghost predicate HistoryOrdered(h: H.HistoryState, now: int) {
    && H.Increasing(h.points)
    && |h.points| <= H.CAPACITY
    && (h.last.Some? ==> h.last.value <= now)
    && (h.points != [] ==> h.last.Some? && h.points[|h.points| - 1].t <= Unix(h.last.value))
  }

  ghost predicate RuntimeOrdered(runtime: map<string, H.HistoryState>, now: int) {
    forall id :: id in runtime ==> HistoryOrdered(runtime[id], now)
  }

  ghost predicate Proper(s: State, now: int) {
    OneCommon(s.enrollments) && RuntimeOrdered(s.runtime, now)
  }

  lemma BehindSelf(s: State, now: int)
    ensures Behind(s, s, now)
  {
  }

  lemma LaterBehind(swept: State, kept: State, now: int, later: int)
    requires Behind(swept, kept, now) && now <= later
    ensures Behind(swept, kept, later)
  {
  }

  // ---------- A sweep widens the gap, and nothing else ----------

  lemma TickBehind(swept: H.HistoryState, kept: H.HistoryState, now: int)
    requires HistoryBehind(swept, kept, now) && H.Increasing(kept.points)
    ensures HistoryBehind(H.Tick(swept, now), kept, now)
  {
    hide Newer;
    var cut := Unix(now) - H.HOUR;
    var d := |kept.points| - |swept.points|;
    var j := H.NewerIsSuffix(swept.points, cut);
    forall i | d <= i < d + j ensures kept.points[i].t < cut {
      assert kept.points[i] == swept.points[i - d];
    }
  }

  lemma SweepBehind(swept: State, kept: State, now: int)
    requires Behind(swept, kept, now) && RuntimeOrdered(kept.runtime, now)
    ensures Behind(Maintained(swept, now), kept, now)
  {
    hide HistoryBehind, H.Tick;
    forall id | id in kept.runtime
      ensures HistoryBehind(Maintained(swept, now).runtime[id], kept.runtime[id], now)
    {
      TickBehind(swept.runtime[id], kept.runtime[id], now);
    }
    assert Maintained(swept, now).runtime.Keys == kept.runtime.Keys;
    assert Maintained(swept, now).nodes.Keys == kept.nodes.Keys;
  }

  // ---------- Readers ignore what the sweep removes ----------

  lemma SameKeysAccepted(swept: Node, kept: Node, key: string, now: int)
    requires NodeBehind(swept, kept, now)
    ensures SecretAccepted(swept, key, Unix(now)) == SecretAccepted(kept, key, Unix(now))
  {
  }

  lemma SameSession(swept: State, kept: State, sid: string, now: int)
    requires SessionsBehind(swept.sessions, kept.sessions, now)
    ensures LiveSession(swept, sid, now) == LiveSession(kept, sid, now)
  {
  }

  /** Points inside the queried window are never swept. */
  lemma SameHistory(swept: H.HistoryState, kept: H.HistoryState, now: int, minutes: int)
    requires HistoryBehind(swept, kept, now) && H.Increasing(kept.points)
    ensures H.Answer(swept, now, minutes) == H.Answer(kept, now, minutes)
  {
    hide Newer;
    var j := H.NewerOfSuffix(kept.points, |kept.points| - |swept.points|, Unix(now) - 60 * H.WindowMinutes(minutes));
  }

  lemma SameReplay(swept: State, kept: State, r: Request, now: int)
    requires ReceiptsBehind(swept.receipts, kept.receipts, now) && swept.nodes.Keys == kept.nodes.Keys
    ensures Replays(swept, Unix(now), r) == Replays(kept, Unix(now), r)
    ensures Replays(kept, Unix(now), r) ==> swept.receipts[ReceiptKey(r)] == kept.receipts[ReceiptKey(r)]
  {
  }

  /**
   * The status of the common token: whether it is active does not depend on sweeps. The expiry time and the counter
   * are reported from an expired enrollment until a sweep removes it.
   */
  lemma SameCommonStatus(swept: State, kept: State, now: int)
    requires EnrollmentsBehind(swept.enrollments, kept.enrollments, now) && OneCommon(kept.enrollments)
    ensures CommonAnswer(swept, Unix(now)).Common? && CommonAnswer(kept, Unix(now)).Common?
    ensures CommonAnswer(swept, Unix(now)).active == CommonAnswer(kept, Unix(now)).active
    ensures CommonAnswer(kept, Unix(now)).active ==> CommonAnswer(swept, Unix(now)) == CommonAnswer(kept, Unix(now))
  {
    forall h | h in swept.enrollments && swept.enrollments[h].reusable
      ensures CommonEnrollment(swept) == Some(kept.enrollments[h]) == CommonEnrollment(kept)
    {
    }
  }

  // ---------- Each handler keeps the two states in step ----------

  lemma NodesUpdated(swept: map<string, Node>, kept: map<string, Node>, now: int, id: string, n: Node, n': Node)
    requires NodesBehind(swept, kept, now) && NodeBehind(n, n', now)
    ensures NodesBehind(swept[id := n], kept[id := n'], now)
  {
    hide NodeBehind;
  }

  lemma EnrollmentsUpdated(
    swept: map<Digest, Enrollment>, kept: map<Digest, Enrollment>, now: int, h: Digest, e: Enrollment)
    requires EnrollmentsBehind(swept, kept, now)
    ensures EnrollmentsBehind(swept[h := e], kept[h := e], now)
    ensures EnrollmentsBehind(swept - {h}, kept - {h}, now)
  {
  }

  lemma RuntimeUpdated(
    swept: map<string, H.HistoryState>, kept: map<string, H.HistoryState>, now: int, id: string,
    h: H.HistoryState, h': H.HistoryState)
    requires RuntimeBehind(swept, kept, now) && HistoryBehind(h, h', now)
    ensures RuntimeBehind(swept[id := h], kept[id := h'], now)
  {
    hide HistoryBehind;
  }

  lemma ReceiptsUpdated(swept: map<Digest, Receipt>, kept: map<Digest, Receipt>, now: int, k: Digest, r: Receipt)
    requires ReceiptsBehind(swept, kept, now)
    ensures ReceiptsBehind(swept[k := r], kept[k := r], now)
  {
  }

  lemma CreateInStep(swept: State, kept: State, now: int, id: NodeId, token: Secret, name: string, group: string)
    requires Behind(swept, kept, now)
    ensures Behind(CreateNode(swept, Unix(now), id, token, name, group).0,
                   CreateNode(kept, Unix(now), id, token, name, group).0, now)
    ensures CreateNode(swept, Unix(now), id, token, name, group).1 ==
            CreateNode(kept, Unix(now), id, token, name, group).1
  {
    hide NodesBehind, EnrollmentsBehind, RuntimeBehind, ReceiptsBehind, SessionsBehind, Hex;
    var (s', a) := CreateNode(kept, Unix(now), id, token, name, group);
    if a.Created? {
      NodesUpdated(swept.nodes, kept.nodes, now, id, s'.nodes[id], s'.nodes[id]);
      EnrollmentsUpdated(swept.enrollments, kept.enrollments, now, Sha256(token), s'.enrollments[Sha256(token)]);
      EmptyBehind(now);
      RuntimeUpdated(swept.runtime, kept.runtime, now, id, H.EMPTY, H.EMPTY);
    }
  }

  lemma ReenrollInStep(swept: State, kept: State, now: int, node: string, token: Secret)
    requires Behind(swept, kept, now)
    ensures Behind(ReenrollNode(swept, Unix(now), node, token).0, ReenrollNode(kept, Unix(now), node, token).0, now)
    ensures ReenrollNode(swept, Unix(now), node, token).1 == ReenrollNode(kept, Unix(now), node, token).1
  {
    hide NodeBehind, HistoryBehind;
  }

  lemma DeleteInStep(swept: State, kept: State, now: int, node: string)
    requires Behind(swept, kept, now)
    ensures Behind(DeleteNode(swept, node).0, DeleteNode(kept, node).0, now)
    ensures DeleteNode(swept, node).1 == DeleteNode(kept, node).1
  {
    hide NodeBehind, HistoryBehind;
  }

  lemma SetCommonInStep(swept: State, kept: State, now: int, token: Secret, days: int, name: string)
    requires Behind(swept, kept, now)
    ensures Behind(SetCommonEnrollment(swept, Unix(now), token, days, name).0,
                   SetCommonEnrollment(kept, Unix(now), token, days, name).0, now)
    ensures SetCommonEnrollment(swept, Unix(now), token, days, name).1 ==
            SetCommonEnrollment(kept, Unix(now), token, days, name).1
  {
    hide NodeBehind, HistoryBehind;
  }

  lemma RevokeInStep(swept: State, kept: State, now: int)
    requires Behind(swept, kept, now)
    ensures Behind(RevokeCommonEnrollment(swept).0, RevokeCommonEnrollment(kept).0, now)
    ensures RevokeCommonEnrollment(swept).1 == RevokeCommonEnrollment(kept).1
  {
    hide NodeBehind, HistoryBehind;
  }

  lemma SessionsInStep(swept: State, kept: State, now: int, sid: string, session: Session)
    requires Behind(swept, kept, now)
    ensures Behind(swept.(sessions := swept.sessions[sid := session]),
                   kept.(sessions := kept.sessions[sid := session]), now)
    ensures Behind(swept.(sessions := swept.sessions - {sid}), kept.(sessions := kept.sessions - {sid}), now)
  {
  }

  lemma BeatInStep(swept: State, kept: State, now: int, node: string, key: string, sample: MetricPoint)
    requires Behind(swept, kept, now) && RuntimeOrdered(kept.runtime, now)
    ensures Behind(BeatNode(swept, now, node, key, sample).0, BeatNode(kept, now, node, key, sample).0, now)
    ensures BeatNode(swept, now, node, key, sample).1 == BeatNode(kept, now, node, key, sample).1
  {
    hide NodeBehind, H.Beat, HistoryBehind, SecretAccepted;
    if node in kept.nodes {
      SameKeysAccepted(swept.nodes[node], kept.nodes[node], key, now);
      var a := if node in swept.runtime then swept.runtime[node] else H.EMPTY;
      var b := if node in kept.runtime then kept.runtime[node] else H.EMPTY;
      EmptyBehind(now);
      assert |b.points| <= H.CAPACITY;
      PushBehind(a, b, now, sample);
    }
  }

  lemma PushBehind(swept: H.HistoryState, kept: H.HistoryState, now: int, sample: MetricPoint)
    requires HistoryBehind(swept, kept, now) && |kept.points| <= 720
    ensures HistoryBehind(H.Beat(swept, now, sample), H.Beat(kept, now, sample), now)
  {
    var p := sample.(t := Unix(now));
    var d := |kept.points| - |swept.points|;
    if |kept.points| == H.CAPACITY && d > 0 {
      assert kept.points[1..] + [p] == Pushed(H.CAPACITY, kept.points, p);
      assert (kept.points[1..] + [p])[d - 1..] == swept.points + [p];
    } else {
      assert d == 0 || (kept.points + [p])[d..] == swept.points + [p];
    }
  }

  lemma EmptyBehind(now: int)
    ensures HistoryBehind(H.EMPTY, H.EMPTY, now)
  {
  }

  lemma RekeyedBehind(swept: Node, kept: Node, now: int, secret: Secret, name: string)
    requires NodeBehind(swept, kept, now)
    ensures NodeBehind(Rekeyed(swept, Unix(now), secret, name), Rekeyed(kept, Unix(now), secret, name), now)
    ensures Rekeyed(swept, Unix(now), secret, name).name == Rekeyed(kept, Unix(now), secret, name).name
    ensures Rekeyed(swept, Unix(now), secret, name).interval == Rekeyed(kept, Unix(now), secret, name).interval
  {
  }

  lemma EnrolInStep(
    swept: State, kept: State, now: int, r: Request, th: Digest, id: string, n: Node, n': Node, secret: Secret)
    requires Behind(swept, kept, now) && NodeBehind(n, n', now)
    requires th in swept.enrollments && th in kept.enrollments
    ensures Behind(Enrol(swept, Unix(now), r, th, id, n, secret).0,
                   Enrol(kept, Unix(now), r, th, id, n', secret).0, now)
    ensures Enrol(swept, Unix(now), r, th, id, n, secret).1 == Enrol(kept, Unix(now), r, th, id, n', secret).1
  {
    hide NodesBehind, EnrollmentsBehind, RuntimeBehind, ReceiptsBehind, SessionsBehind, Rekeyed, Hex;
    RekeyedBehind(n, n', now, secret, r.name);
    NodesUpdated(swept.nodes, kept.nodes, now, id,
                 Rekeyed(n, Unix(now), secret, r.name), Rekeyed(n', Unix(now), secret, r.name));
    SameStored(swept.enrollments, kept.enrollments, now, th);
    var e := kept.enrollments[th];
    EnrollmentsUpdated(swept.enrollments, kept.enrollments, now, th, e.(joined := e.joined + 1));
    EmptyBehind(now);
    RuntimeUpdated(swept.runtime, kept.runtime, now, id, H.EMPTY, H.EMPTY);
    SameRuntimes(swept, kept, now);
    ReceiptsUpdated(swept.receipts, kept.receipts, now, ReceiptKey(r), Receipt(id, secret, Unix(now) + RECEIPT_LIFE));
  }

  lemma SameStored(swept: map<Digest, Enrollment>, kept: map<Digest, Enrollment>, now: int, h: Digest)
    requires EnrollmentsBehind(swept, kept, now) && h in swept
    ensures h in kept && swept[h] == kept[h]
  {
  }

  lemma SameRuntimes(swept: State, kept: State, now: int)
    requires RuntimeBehind(swept.runtime, kept.runtime, now)
    ensures swept.runtime.Keys == kept.runtime.Keys
  {
  }

  lemma RegisterInStep(swept: State, kept: State, now: int, r: Request, id: NodeId, secret: Secret)
    requires Behind(swept, kept, now)
    ensures Behind(RegisterNode(swept, Unix(now), r, id, secret).0, RegisterNode(kept, Unix(now), r, id, secret).0, now)
    ensures RegisterNode(swept, Unix(now), r, id, secret).1 == RegisterNode(kept, Unix(now), r, id, secret).1
  {
    hide HistoryBehind, Replays, Enrol, Hex, JoinedNode;
    var th := Sha256(r.token);
    SameReplay(swept, kept, r, now);
    if Replays(kept, Unix(now), r) {
      ReplayNamesNode(kept, now, r);
    } else if th in swept.enrollments {
      var e := kept.enrollments[th];
      if e.reusable {
        var n := JoinedNode(e, Unix(now), id, r.name);
        EnrolInStep(swept, kept, now, r, th, id, n, n, secret);
      } else if e.nodeID in kept.nodes {
        EnrolInStep(swept, kept, now, r, th, e.nodeID, swept.nodes[e.nodeID], kept.nodes[e.nodeID], secret);
      }
    }
  }

  lemma ReplayNamesNode(s: State, now: int, r: Request)
    requires Replays(s, Unix(now), r)
    ensures ReceiptKey(r) in s.receipts && s.receipts[ReceiptKey(r)].nodeID in s.nodes
  {
  }

  // ---------- Runs ----------

  /** What a caller sees; of the common token's status only whether it is active. */
  function Seen(a: Identity.Answer): Identity.Answer {
    if a.Common? then Common(a.active, 0, 0) else a
  }

  lemma OrderedIncreasing(h: H.HistoryState, now: int)
    requires HistoryOrdered(h, now)
    ensures H.Increasing(h.points)
  {
  }

  lemma StepInStep(swept: State, kept: State, e: Event)
    requires Behind(swept, kept, e.now) && Proper(kept, e.now) && !e.op.Maintenance?
    ensures Behind(Step(swept, e).0, Step(kept, e).0, e.now)
    ensures Seen(Step(swept, e).1) == Seen(Step(kept, e).1)
  {
    hide RegisterNode, BeatNode, CommonAnswer, LiveSession, CreateNode, DeleteNode, ReenrollNode, SetCommonEnrollment;
    hide NodesBehind, EnrollmentsBehind, ReceiptsBehind, SessionsBehind, HistoryOrdered, OneCommon, H.Answer;
    hide RevokeCommonEnrollment, HistoryBehind;
    match e.op {
      case Create(id, token, name, group) =>
        CreateInStep(swept, kept, e.now, id, token, name, group);
      case Reenroll(node, token) => ReenrollInStep(swept, kept, e.now, node, token);
      case Delete(node) => DeleteInStep(swept, kept, e.now, node);
      case SetCommon(token, days, name) =>
        SetCommonInStep(swept, kept, e.now, token, days, name);
      case RevokeCommon => RevokeInStep(swept, kept, e.now);
      case Register(r, id, secret) => RegisterInStep(swept, kept, e.now, r, id, secret);
      case Login(sid, csrf) => SessionsInStep(swept, kept, e.now, sid, Session(csrf, e.now + SESSION_LIFE));
      case Logout(sid) => SessionsInStep(swept, kept, e.now, sid, Session("", 0));
      case CheckSession(sid) => SameSession(swept, kept, sid, e.now);
      case CommonStatus => SameCommonStatus(swept, kept, e.now);
      case Heartbeat(node, key, sample) => BeatInStep(swept, kept, e.now, node, key, sample);
      case QueryHistory(node, minutes) =>
        if node in kept.runtime {
          OrderedIncreasing(kept.runtime[node], e.now);
          SameHistory(swept.runtime[node], kept.runtime[node], e.now, minutes);
        }
    }
  }

  lemma BeatKeepsOrdered(h: H.HistoryState, now: int, later: int, sample: MetricPoint)
    requires HistoryOrdered(h, now) && now <= later
    ensures HistoryOrdered(H.Beat(h, later, sample), later)
  {
    var h' := H.Beat(h, later, sample);
    forall i, j | 0 <= i < j < |h'.points| ensures h'.points[i].t < h'.points[j].t {
      if h' != h && j == |h'.points| - 1 {
        var k := if |h.points| < H.CAPACITY then i else i + 1;
        assert h.points[k].t <= h.points[|h.points| - 1].t;
      }
    }
  }

  lemma RegisterKeepsOneCommon(s: State, sec: int, r: Request, id: NodeId, secret: Secret)
    requires OneCommon(s.enrollments)
    ensures OneCommon(RegisterNode(s, sec, r, id, secret).0.enrollments)
  {
    hide Rekeyed, JoinedNode, Hex, Replays;
  }

  lemma FewerKeepsOneCommon(m: map<Digest, Enrollment>, m': map<Digest, Enrollment>)
    requires OneCommon(m)
    requires forall h :: h in m' ==> (h in m && m'[h] == m[h]) || !m'[h].reusable
    ensures OneCommon(m')
  {
  }

  lemma StepKeepsOneCommon(s: State, e: Event)
    requires OneCommon(s.enrollments)
    ensures OneCommon(Step(s, e).0.enrollments)
  {
    hide RegisterNode;
    if e.op.Register? {
      RegisterKeepsOneCommon(s, Unix(e.now), e.op.request, e.op.id, e.op.secret);
    } else if e.op.SetCommon? {
      hide OneCommon;
      SetCommonKeepsOneCommon(s, Unix(e.now), e.op.token, e.op.days, e.op.name);
    } else {
      hide OneCommon;
      FewerKeepsOneCommon(s.enrollments, Step(s, e).0.enrollments);
    }
  }

  lemma SetCommonKeepsOneCommon(s: State, sec: int, token: Secret, days: int, name: string)
    requires OneCommon(s.enrollments)
    ensures OneCommon(SetCommonEnrollment(s, sec, token, days, name).0.enrollments)
  {
  }

  /** A handler leaves a node's history alone, restarts it, or adds a heartbeat to it. */
  lemma StepRuntime(s: State, e: Event, id: string)
    requires !e.op.Maintenance? && id in Step(s, e).0.runtime
    ensures var h' := Step(s, e).0.runtime[id];
      || h' == H.EMPTY
      || (id in s.runtime && h' == s.runtime[id])
      || (e.op.Heartbeat? && h' == H.Beat(if id in s.runtime then s.runtime[id] else H.EMPTY, e.now, e.op.sample))
  {
    hide H.Beat, Rekeyed, JoinedNode, Hex, Tidied, Replays;
  }

  lemma StepKeepsProper(s: State, now: int, e: Event)
    requires Proper(s, now) && now <= e.now && !e.op.Maintenance?
    ensures Proper(Step(s, e).0, e.now)
  {
    hide Step, HistoryOrdered, H.Beat;
    StepKeepsOneCommon(s, e);
    EmptyOrdered(now);
    EmptyOrdered(e.now);
    forall id | id in Step(s, e).0.runtime ensures HistoryOrdered(Step(s, e).0.runtime[id], e.now) {
      StepRuntime(s, e, id);
      if id in s.runtime {
        LaterOrdered(s.runtime[id], now, e.now);
      }
      if e.op.Heartbeat? {
        BeatKeepsOrdered(if id in s.runtime then s.runtime[id] else H.EMPTY, now, e.now, e.op.sample);
      }
    }
  }

  lemma LaterOrdered(h: H.HistoryState, now: int, later: int)
    requires HistoryOrdered(h, now) && now <= later
    ensures HistoryOrdered(h, later)
  {
  }

  lemma EmptyOrdered(now: int)
    ensures HistoryOrdered(H.EMPTY, now)
  {
  }

  /** The answers to everything except maintenance ticks. */
  ghost function Answers(s: State, es: seq<Event>): seq<Identity.Answer>
    decreases es
  {
    if es == [] then []
    else
      var (s', a) := Step(s, es[0]);
      (if es[0].op.Maintenance? then [] else [Seen(a)]) + Answers(s', es[1..])
  }

  function Erased(es: seq<Event>): seq<Event> {
    if es == [] then []
    else (if es[0].op.Maintenance? then [] else [es[0]]) + Erased(es[1..])
  }

  /** The clock reads at least now, and does not go backwards. */
  ghost predicate From(now: int, es: seq<Event>) {
    && (forall i :: 0 <= i < |es| ==> now <= es[i].now)
    && (forall i, j :: 0 <= i < j < |es| ==> es[i].now <= es[j].now)
  }

  lemma FromTail(now: int, es: seq<Event>)
    requires From(now, es) && es != []
    ensures now <= es[0].now && From(es[0].now, es[1..])
  {
  }

  lemma {:induction false} AnswersInStep(swept: State, kept: State, now: int, es: seq<Event>)
    requires Behind(swept, kept, now) && Proper(kept, now) && From(now, es)
    ensures Answers(swept, es) == Answers(kept, Erased(es))
    decreases es
  {
    hide Behind, Proper, Step, From, Seen;
    if es != [] {
      var e := es[0];
      FromTail(now, es);
      LaterBehind(swept, kept, now, e.now);
      LaterProper(kept, now, e.now);
      if e.op.Maintenance? {
        SweepStep(swept, kept, e);
        AnswersInStep(Step(swept, e).0, kept, e.now, es[1..]);
        assert Erased(es) == Erased(es[1..]);
      } else {
        StepInStep(swept, kept, e);
        StepKeepsProper(kept, now, e);
        AnswersInStep(Step(swept, e).0, Step(kept, e).0, e.now, es[1..]);
        assert Erased(es)[0] == e && Erased(es)[1..] == Erased(es[1..]);
      }
    }
  }

  lemma SweepStep(swept: State, kept: State, e: Event)
    requires Behind(swept, kept, e.now) && Proper(kept, e.now) && e.op.Maintenance?
    ensures Behind(Step(swept, e).0, kept, e.now)
  {
    SweepBehind(swept, kept, e.now);
  }

  lemma LaterProper(s: State, now: int, later: int)
    requires Proper(s, now) && now <= later
    ensures Proper(s, later)
  {
  }

  /**
   * Maintenance is unobservable: from any proper state, a run answers exactly as the run with its ticks erased does,
   * for every registration, key check, session check, history query and active flag.
   */
  lemma MaintenanceUnobservable(s: State, now: int, es: seq<Event>)
    requires Proper(s, now) && From(now, es)
    ensures Answers(s, es) == Answers(s, Erased(es))
  {
    BehindSelf(s, now);
    AnswersInStep(s, s, now, es);
  }

  /** The empty server is a proper starting state, at any time. */
  lemma InitiallyProper(now: int)
    ensures Proper(INITIAL, now)
  {
  }

  /** Exactly when a sweep shows in the whole status of the common token: when it removes the token it reports on. */
  lemma SweepKeepsStatusExactly(s: State, now: int)
    requires OneCommon(s.enrollments)
    ensures CommonAnswer(Maintained(s, now), Unix(now)) == CommonAnswer(s, Unix(now))
      <==> forall h :: h in s.enrollments && s.enrollments[h].reusable ==> !TokenExpired(s.enrollments[h], Unix(now))
  {
    hide Tidied, H.Tick;
    var s' := Maintained(s, now);
    forall h | h in s.enrollments && s.enrollments[h].reusable
      ensures CommonEnrollment(s) == Some(s.enrollments[h])
      ensures h in s'.enrollments ==> CommonEnrollment(s') == Some(s.enrollments[h])
    {
    }
  }

  /** Sweeps do show in the expiry time and counter reported for a common token that has expired. */
  lemma ExpiredCounterIsObservable()
    ensures exists s: State, now: int ::
      Proper(s, now) && CommonAnswer(Maintained(s, now), Unix(now)) != CommonAnswer(s, Unix(now))
  {
    var h := Sha256("token");
    var s := INITIAL.(enrollments := map[h := Enrollment("", "", 10, true, 3)]);
    var now := 11 * SECOND;
    assert Proper(s, now);
    assert s.enrollments[h].reusable;
    assert Maintained(s, now).enrollments == map[];
    assert CommonAnswer(s, Unix(now)) == Common(false, 10, 3);
  }

  /**
   * The active flag and registration disagree for exactly one second: a stored common token is accepted if and only
   * if it is reported active or this is the very second it expires.
   */
  lemma ActiveFlagBoundary(s: State, h: Digest, now: int)
    requires OneCommon(s.enrollments) && h in s.enrollments && s.enrollments[h].reusable
    requires s.enrollments[h].expiresAt >= 0
    ensures !TokenExpired(s.enrollments[h], Unix(now)) <==>
      CommonAnswer(s, Unix(now)).active || s.enrollments[h].expiresAt == Unix(now)
  {
    assert CommonEnrollment(s) == Some(s.enrollments[h]);
  }
}
