/**
 * The command RPC between administrators and agents, as a state machine over the steps that really interleave: a
 * caller of sendCommand, the agent's long poll, the agent itself, and the two halves of agentResults.
 */
module CommandRpc {
  import opened Basics

  const QUEUE: nat := 16
  const PROTOCOL := 1
  const STALE := 120

  datatype Command = Command(id: string, action: string, protocol: int, timestamp: int)
  datatype Result = Result(id: string, ok: bool, body: string)

  datatype Outcome = Answered(result: Result) | QueueBusy | NoAnswer

  /** Where a call of sendCommand stands; the deferred removal of its pending entry runs before Finished. */
  datatype Phase = Registered | Waiting | Leaving(outcome: Outcome) | Finished(outcome: Outcome)

  datatype Caller = Caller(node: string, command: Command, phase: Phase)

  /** A posted result after the lookup in Pending: it holds the reply channel it found, named by its request. */
  datatype Poster = Poster(node: string, result: Result, channel: Option<string>)

  /** commandLoop handles one command at a time. */
  datatype Agent = Idle | Executing(command: Command) | Posting(result: Result)

  /**
   * One record per agent's RuntimeNode, with its history: ids enqueued, dequeued by some poll, delivered to the agent,
   * and performed by it.
   */
  datatype Runtime = Runtime(
    queue: seq<Command>, pending: set<string>, agent: Agent,
    sent: seq<string>, taken: seq<string>, delivered: seq<string>, performed: seq<string>)

  /** slots are the one-element buffers of the reply channels; first is the first result each one ever received. */
  datatype State = State(
    runtimes: map<string, Runtime>,
    callers: map<string, Caller>,
    slots: map<string, Option<Result>>,
    posters: multiset<Poster>,
    posts: set<(string, Result)>,
    first: map<string, Result>)

  datatype Event =
    | Start(node: string, id: string, action: string, now: int)
    | Enqueue(id: string)
    | Receive(id: string)
    | Expire(id: string)
    | Finish(id: string)
    | Take(node: string, reachesAgent: bool)
    | Perform(node: string, now: int, ok: bool, body: string)
    | AgentPost(node: string, again: bool)
    | AgentRestart(node: string)
    | ForgedPost(node: string, result: Result)
    | Deliver(poster: Poster)

  predicate Calling(s: State, id: string, phase: Phase) {
    id in s.callers && s.callers[id].phase == phase && s.callers[id].node in s.runtimes && id in s.slots
  }

  function Moved(s: State, id: string, phase: Phase): State
    requires id in s.callers
  {
    s.(callers := s.callers[id := s.callers[id].(phase := phase)])
  }

  function WithRuntime(s: State, node: string, rt: Runtime): State {
    s.(runtimes := s.runtimes[node := rt])
  }

  /** The lookup half of agentResults. */
  function Looked(s: State, node: string, r: Result): State
    requires node in s.runtimes
  {
    var channel := if r.id in s.runtimes[node].pending then Some(r.id) else None;
    s.(posters := s.posters + multiset{Poster(node, r, channel)}, posts := s.posts + {(node, r)})
  }

  /** An agent-side event, seen from its runtime alone. */
  predicate AgentReady(rt: Runtime, e: Event) {
    match e
    case Take(_, reaches) => rt.queue != [] && (reaches ==> rt.agent == Idle)
    case Perform(_, _, _, _) => rt.agent.Executing?
    case AgentPost(_, _) => rt.agent.Posting?
    case AgentRestart(_) => true
    case _ => false
  }

  /** executeCommand's two guards, then whatever the command itself yields. */
  function Performed(rt: Runtime, c: Command, now: int, ok: bool, body: string): Runtime {
    if c.protocol != PROTOCOL then rt.(agent := Posting(Result(c.id, false, "protocol mismatch")))
    else if now - c.timestamp > STALE then rt.(agent := Posting(Result(c.id, false, "stale command")))
    else rt.(agent := Posting(Result(c.id, ok, body)), performed := rt.performed + [c.id])
  }

  function AgentMove(rt: Runtime, e: Event): Runtime
    requires AgentReady(rt, e)
  {
    match e
    case Take(_, reaches) =>
      var c := rt.queue[0];
      var rt' := rt.(queue := rt.queue[1..], taken := rt.taken + [c.id]);
      if reaches then rt'.(agent := Executing(c), delivered := rt.delivered + [c.id]) else rt'
    case Perform(_, now, ok, body) => Performed(rt, rt.agent.command, now, ok, body)
    case AgentPost(_, again) => if again then rt else rt.(agent := Idle)
    case AgentRestart(_) => rt.(agent := Idle)
  }

  predicate OfCaller(e: Event) {
    e.Start? || e.Enqueue? || e.Receive? || e.Expire? || e.Finish?
  }

  predicate OfAgent(e: Event) {
    e.Take? || e.Perform? || e.AgentPost? || e.AgentRestart?
  }

  predicate Enabled(s: State, e: Event) {
    match e
    case Start(node, id, _, _) => node in s.runtimes && id !in s.callers
    case Enqueue(id) => Calling(s, id, Registered)
    case Receive(id) => Calling(s, id, Waiting) && s.slots[id].Some?
    case Expire(id) => Calling(s, id, Waiting)
    case Finish(id) => id in s.callers && s.callers[id].phase.Leaving? && s.callers[id].node in s.runtimes
    case ForgedPost(node, _) => node in s.runtimes
    case Deliver(p) => p in s.posters
    case _ => e.node in s.runtimes && AgentReady(s.runtimes[e.node], e)
  }

  /** The sending half of agentResults: a full reply channel drops the result. */
  function Delivered(s: State, p: Poster): State {
    var s' := s.(posters := s.posters - multiset{p});
    if p.channel.Some? && p.channel.value in s.slots && s.slots[p.channel.value].None? then
      s'.(slots := s.slots[p.channel.value := Some(p.result)],
          first := if p.channel.value in s.first then s.first else s.first[p.channel.value := p.result])
    else s'
  }

  function Step(s: State, e: Event): State
    requires Enabled(s, e)
  {
    match e
    case Start(node, id, action, now) =>
      var rt := s.runtimes[node];
      s.(runtimes := s.runtimes[node := rt.(pending := rt.pending + {id})],
         callers := s.callers[id := Caller(node, Command(id, action, PROTOCOL, now), Registered)],
         slots := s.slots[id := None])
    case Enqueue(id) =>
      var c := s.callers[id];
      var rt := s.runtimes[c.node];
      if |rt.queue| < QUEUE then
        WithRuntime(Moved(s, id, Waiting), c.node, rt.(queue := rt.queue + [c.command], sent := rt.sent + [id]))
      else Moved(s, id, Leaving(QueueBusy))
    case Receive(id) =>
      Moved(s, id, Leaving(Answered(s.slots[id].value))).(slots := s.slots[id := None])
    case Expire(id) => Moved(s, id, Leaving(NoAnswer))
    case Finish(id) =>
      var c := s.callers[id];
      var rt := s.runtimes[c.node];
      WithRuntime(Moved(s, id, Finished(c.phase.outcome)), c.node, rt.(pending := rt.pending - {id}))
    case ForgedPost(node, r) => Looked(s, node, r)
    case Deliver(p) => Delivered(s, p)
    case Take(node, _) => WithRuntime(s, node, AgentMove(s.runtimes[node], e))
    case Perform(node, _, _, _) => WithRuntime(s, node, AgentMove(s.runtimes[node], e))
    case AgentPost(node, _) =>
      WithRuntime(Looked(s, node, s.runtimes[node].agent.result), node, AgentMove(s.runtimes[node], e))
    case AgentRestart(node) => WithRuntime(s, node, AgentMove(s.runtimes[node], e))
  }

  // ---------- What every step keeps ----------

  function Ids(q: seq<Command>): seq<string> {
    seq(|q|, i requires 0 <= i < |q| => q[i].id)
  }

  ghost predicate Enqueued(s: State, node: string, id: string) {
    && id in s.callers && s.callers[id].node == node
    && s.callers[id].phase != Registered
    && s.callers[id].phase != Leaving(QueueBusy) && s.callers[id].phase != Finished(QueueBusy)
  }

  ghost predicate Open(s: State, node: string, id: string) {
    id in s.callers && s.callers[id].node == node && !s.callers[id].phase.Finished?
  }

  /** The queue is bounded and first in, first out; every id passes through it once. */
  ghost predicate QueueOk(s: State, node: string)
    requires node in s.runtimes
  {
    var rt := s.runtimes[node];
    && |rt.queue| <= 16
    && rt.sent == rt.taken + Ids(rt.queue)
    && Distinct(rt.sent)
    && (forall id :: id in rt.sent ==> Enqueued(s, node, id))
  }

  /** Pending holds exactly the calls that have not returned. */
  ghost predicate PendingOk(s: State, node: string)
    requires node in s.runtimes
  {
    forall id :: id in s.runtimes[node].pending <==> Open(s, node, id)
  }

  /** What the agent performs is a part of what was delivered to it, which is a part of what was dequeued. */
  ghost predicate AgentOk(rt: Runtime) {
    && Subsequence(rt.delivered, rt.taken)
    && match rt.agent
       case Executing(c) =>
         |rt.delivered| > 0 && rt.delivered[|rt.delivered| - 1] == c.id
         && Subsequence(rt.performed, rt.delivered[..|rt.delivered| - 1])
       case _ => Subsequence(rt.performed, rt.delivered)
  }

  ghost predicate NodeOk(s: State, node: string)
    requires node in s.runtimes
  {
    QueueOk(s, node) && PendingOk(s, node) && AgentOk(s.runtimes[node])
  }

  ghost predicate RuntimesOk(s: State) {
    forall node :: node in s.runtimes ==> NodeOk(s, node)
  }

  ghost predicate IsFirst(s: State, id: string, r: Result) {
    id in s.first && s.first[id] == r
  }

  /** A call is answered, if at all, by the first result its channel received. */
  ghost predicate CallerOk(s: State, id: string)
    requires id in s.callers
  {
    && s.callers[id].node in s.runtimes
    && s.callers[id].command.id == id
    && id in s.slots
    && match s.callers[id].phase
       case Leaving(Answered(r)) => IsFirst(s, id, r)
       case Finished(Answered(r)) => IsFirst(s, id, r)
       case Registered => if s.slots[id].Some? then IsFirst(s, id, s.slots[id].value) else id !in s.first
       case Waiting => if s.slots[id].Some? then IsFirst(s, id, s.slots[id].value) else id !in s.first
       case _ => true
  }

  /** The first result of a channel carries the channel's id and was posted by the node that was asked. */
  ghost predicate FirstOk(s: State, id: string)
    requires id in s.first
  {
    id in s.callers && s.first[id].id == id && (s.callers[id].node, s.first[id]) in s.posts
  }

  ghost predicate PosterOk(s: State, p: Poster) {
    && (p.node, p.result) in s.posts
    && (p.channel.Some? ==>
          p.channel.value == p.result.id && p.result.id in s.callers && s.callers[p.result.id].node == p.node)
  }

  ghost predicate CallsOk(s: State) {
    && (forall id :: id in s.callers ==> CallerOk(s, id))
    && (forall id :: id in s.slots ==> id in s.callers)
    && (forall id :: id in s.first ==> FirstOk(s, id))
    && (forall p :: p in s.posters ==> PosterOk(s, p))
  }

  ghost predicate Inv(s: State) {
    RuntimesOk(s) && CallsOk(s)
  }

  /** CallsOk reads callers, slots, posters, posts and the first results, and which nodes have a runtime. */
  lemma CallsOkFrame(s: State, s': State)
    requires CallsOk(s) && s'.runtimes.Keys == s.runtimes.Keys
    requires s'.callers == s.callers && s'.slots == s.slots && s'.posters == s.posters
    requires s'.posts == s.posts && s'.first == s.first
    ensures CallsOk(s')
  {
    forall id | id in s.callers ensures CallerOk(s', id) {
      assert CallerOk(s, id);
    }
    forall id | id in s.first ensures FirstOk(s', id) {
      assert FirstOk(s, id);
    }
    forall p | p in s.posters ensures PosterOk(s', p) {
      assert PosterOk(s, p);
    }
  }

  /** Moving one call along, keeping its node and command, with at most its own slot emptied. */
  lemma MovedKeepsCalls(s: State, s': State, id: string)
    requires CallsOk(s) && id in s.callers
    requires s'.runtimes.Keys == s.runtimes.Keys && s'.posters == s.posters
    requires s'.posts == s.posts && s'.first == s.first
    requires id in s'.callers && s'.callers == s.callers[id := s.callers[id].(phase := s'.callers[id].phase)]
    requires s'.slots == s.slots || s'.slots == s.slots[id := None]
    requires CallerOk(s', id)
    ensures CallsOk(s')
  {
    forall k | k in s'.callers ensures CallerOk(s', k) {
      assert k != id ==> CallerOk(s, k);
    }
    forall k | k in s.first ensures FirstOk(s', k) {
      assert FirstOk(s, k);
    }
    forall p | p in s.posters ensures PosterOk(s', p) {
      assert PosterOk(s, p);
    }
  }

  lemma StartKeepsCalls(s: State, e: Event)
    requires Inv(s) && Enabled(s, e) && e.Start?
    ensures CallsOk(Step(s, e))
  {
    var s' := Step(s, e);
    assert e.id !in s.first by {
      assert e.id in s.first ==> FirstOk(s, e.id);
    }
    forall k | k in s'.callers ensures CallerOk(s', k) {
      assert k != e.id ==> CallerOk(s, k);
    }
    forall k | k in s.first ensures FirstOk(s', k) {
      assert FirstOk(s, k);
    }
    forall p | p in s.posters ensures PosterOk(s', p) {
      assert PosterOk(s, p);
    }
  }

  lemma CallerKeepsCalls(s: State, e: Event)
    requires Inv(s) && Enabled(s, e) && (e.Enqueue? || e.Receive? || e.Expire? || e.Finish?)
    ensures CallsOk(Step(s, e))
  {
    hide RuntimesOk;
    assert CallerOk(s, e.id);
    MovedKeepsCalls(s, Step(s, e), e.id);
  }

  lemma LookedKeepsCalls(s: State, node: string, r: Result)
    requires Inv(s) && node in s.runtimes
    ensures CallsOk(Looked(s, node, r))
  {
    var s' := Looked(s, node, r);
    assert NodeOk(s, node);
    assert r.id in s.runtimes[node].pending ==> Open(s, node, r.id);
    hide RuntimesOk, NodeOk, PendingOk;
    forall id | id in s.callers ensures CallerOk(s', id) {
      assert CallerOk(s, id);
    }
    forall id | id in s.first ensures FirstOk(s', id) {
      assert FirstOk(s, id);
    }
    forall p | p in s'.posters ensures PosterOk(s', p) {
      assert p in s.posters ==> PosterOk(s, p);
    }
  }

  lemma DeliverKeepsCaller(s: State, p: Poster, id: string)
    requires PosterOk(s, p) && id in s.callers && CallerOk(s, id) && p in s.posters
    requires p.channel.Some? ==> p.channel.value in s.callers && CallerOk(s, p.channel.value)
    ensures CallerOk(Delivered(s, p), id)
  {
  }

  lemma DeliverKeepsCalls(s: State, e: Event)
    requires Inv(s) && Enabled(s, e) && e.Deliver?
    ensures CallsOk(Step(s, e))
  {
    hide RuntimesOk, CallerOk;
    var s', p := Step(s, e), e.poster;
    assert PosterOk(s, p);
    forall k | k in s.callers ensures CallerOk(s', k) {
      DeliverKeepsCaller(s, p, k);
    }
    forall k | k in s'.first ensures FirstOk(s', k) {
      assert k in s.first ==> FirstOk(s, k);
    }
    forall q | q in s'.posters ensures PosterOk(s', q) {
      assert PosterOk(s, q);
    }
  }

  lemma AgentKeepsCalls(s: State, e: Event)
    requires Inv(s) && Enabled(s, e) && (e.Take? || e.Perform? || e.AgentRestart?)
    ensures CallsOk(Step(s, e))
  {
    hide CallsOk, RuntimesOk, AgentMove, AgentReady;
    CallsOkFrame(s, Step(s, e));
  }

  lemma StepKeepsCalls(s: State, e: Event)
    requires Inv(s) && Enabled(s, e)
    ensures CallsOk(Step(s, e))
  {
    hide CallsOk, RuntimesOk, CallerOk;
    match e {
      case Start(_, _, _, _) => StartKeepsCalls(s, e);
      case Deliver(_) => DeliverKeepsCalls(s, e);
      case ForgedPost(node, r) => LookedKeepsCalls(s, node, r);
      case AgentPost(node, again) =>
        LookedKeepsCalls(s, node, s.runtimes[node].agent.result);
        CallsOkFrame(Looked(s, node, s.runtimes[node].agent.result), Step(s, e));
      case Take(_, _) => AgentKeepsCalls(s, e);
      case Perform(_, _, _, _) => AgentKeepsCalls(s, e);
      case AgentRestart(_) => AgentKeepsCalls(s, e);
      case _ => CallerKeepsCalls(s, e);
    }
  }

  // ---------- Runtimes ----------

  /** A runtime stays in order when its queue side is untouched and its calls stay enqueued and open as they were. */
  lemma NodeFrame(s: State, s': State, node: string)
    requires node in s.runtimes && node in s'.runtimes && QueueOk(s, node) && PendingOk(s, node)
    requires s'.runtimes[node].queue == s.runtimes[node].queue && s'.runtimes[node].sent == s.runtimes[node].sent
    requires s'.runtimes[node].taken == s.runtimes[node].taken && s'.runtimes[node].pending == s.runtimes[node].pending
    requires forall id :: Enqueued(s, node, id) ==> Enqueued(s', node, id)
    requires forall id :: Open(s, node, id) <==> Open(s', node, id)
    ensures QueueOk(s', node) && PendingOk(s', node)
  {
  }

  lemma StartKeepsNode(s: State, e: Event, node: string)
    requires node in s.runtimes && NodeOk(s, node) && Enabled(s, e) && e.Start?
    ensures NodeOk(Step(s, e), node)
  {
    hide Subsequence, Distinct;
    var s' := Step(s, e);
    forall id ensures Enqueued(s, node, id) ==> Enqueued(s', node, id) {}
    forall id ensures Open(s', node, id) <==> Open(s, node, id) || (id == e.id && node == e.node) {}
  }

  lemma DistinctSnoc<T>(q: seq<T>, x: T)
    requires Distinct(q) && x !in q
    ensures Distinct(q + [x])
  {
  }

  ghost predicate CallerNamed(s: State, id: string) {
    id in s.callers && s.callers[id].command.id == id
  }

  lemma EnqueueKeepsNode(s: State, e: Event, node: string)
    requires node in s.runtimes && NodeOk(s, node) && Enabled(s, e) && e.Enqueue? && CallerNamed(s, e.id)
    ensures NodeOk(Step(s, e), node)
  {
    hide Subsequence, Distinct;
    var s' := Step(s, e);
    var rt, rt' := s.runtimes[node], s'.runtimes[node];
    assert !Enqueued(s, node, e.id);
    forall id ensures Enqueued(s, node, id) ==> Enqueued(s', node, id) {}
    forall id ensures Open(s, node, id) <==> Open(s', node, id) {}
    if rt' != rt {
      DistinctSnoc(rt.sent, e.id);
      assert Ids(rt'.queue) == Ids(rt.queue) + [e.id];
    }
  }

  lemma CallKeepsNode(s: State, e: Event, node: string)
    requires node in s.runtimes && NodeOk(s, node) && Enabled(s, e) && (e.Receive? || e.Expire?)
    ensures NodeOk(Step(s, e), node)
  {
    hide AgentOk, Distinct, QueueOk, PendingOk;
    var s' := Step(s, e);
    forall id ensures Enqueued(s, node, id) ==> Enqueued(s', node, id) {}
    forall id ensures Open(s, node, id) <==> Open(s', node, id) {}
    NodeFrame(s, s', node);
  }

  lemma FinishKeepsNode(s: State, e: Event, node: string)
    requires node in s.runtimes && NodeOk(s, node) && Enabled(s, e) && e.Finish?
    ensures NodeOk(Step(s, e), node)
  {
    hide Subsequence, Distinct;
    var s' := Step(s, e);
    forall id ensures Enqueued(s, node, id) ==> Enqueued(s', node, id) {}
    forall id ensures Open(s', node, id) <==> Open(s, node, id) && id != e.id {}
  }

  lemma TakeKeepsAgent(rt: Runtime, e: Event)
    requires AgentOk(rt) && AgentReady(rt, e) && e.Take?
    ensures AgentOk(AgentMove(rt, e))
  {
    hide Subsequence;
    SubsequenceSnoc(rt.delivered, rt.taken, rt.queue[0].id);
    assert (rt.delivered + [rt.queue[0].id])[..|rt.delivered|] == rt.delivered;
  }

  lemma PerformKeepsAgent(rt: Runtime, e: Event)
    requires AgentOk(rt) && AgentReady(rt, e) && e.Perform?
    ensures AgentOk(AgentMove(rt, e))
  {
    hide Subsequence;
    var earlier := rt.delivered[..|rt.delivered| - 1];
    SubsequenceSnoc(rt.performed, earlier, rt.agent.command.id);
    assert rt.delivered == earlier + [rt.agent.command.id];
  }

  lemma AgentMoveKeepsAgent(rt: Runtime, e: Event)
    requires AgentOk(rt) && AgentReady(rt, e)
    ensures AgentOk(AgentMove(rt, e))
  {
    hide AgentOk;
    if e.Take? {
      TakeKeepsAgent(rt, e);
    } else if e.Perform? {
      PerformKeepsAgent(rt, e);
    } else {
      AgentLeaves(rt, AgentMove(rt, e));
    }
  }

  /** A take moves the head of the queue to the end of the dequeued ids; the other agent steps leave the queue side. */
  lemma AgentMoveQueue(rt: Runtime, e: Event)
    requires AgentReady(rt, e)
    ensures var rt' := AgentMove(rt, e);
      && rt'.sent == rt.sent && rt'.pending == rt.pending && |rt'.queue| <= |rt.queue|
      && (rt.sent == rt.taken + Ids(rt.queue) ==> rt'.sent == rt'.taken + Ids(rt'.queue))
  {
    if e.Take? {
      assert Ids(rt.queue) == [rt.queue[0].id] + Ids(rt.queue[1..]);
    }
  }

  lemma AgentKeepsNode(s: State, e: Event, node: string)
    requires node in s.runtimes && NodeOk(s, node) && Enabled(s, e) && OfAgent(e)
    ensures NodeOk(Step(s, e), node)
  {
    hide AgentOk, AgentMove, AgentReady, Distinct;
    var s' := Step(s, e);
    forall id ensures Enqueued(s, node, id) <==> Enqueued(s', node, id) {}
    forall id ensures Open(s, node, id) <==> Open(s', node, id) {}
    if node == e.node {
      AgentMoveQueue(s.runtimes[node], e);
      AgentMoveKeepsAgent(s.runtimes[node], e);
    }
  }

  lemma PostKeepsNode(s: State, e: Event, node: string)
    requires node in s.runtimes && NodeOk(s, node) && Enabled(s, e) && (e.ForgedPost? || e.Deliver?)
    ensures NodeOk(Step(s, e), node)
  {
    hide QueueOk, PendingOk, AgentOk;
    var s' := Step(s, e);
    forall id ensures Enqueued(s, node, id) ==> Enqueued(s', node, id) {}
    forall id ensures Open(s, node, id) <==> Open(s', node, id) {}
    NodeFrame(s, s', node);
  }

  /** Dropping or posting what the agent holds keeps its history in order. */
  lemma AgentLeaves(rt: Runtime, rt': Runtime)
    requires AgentOk(rt)
    requires rt' == rt || rt' == rt.(agent := Idle)
    ensures AgentOk(rt')
  {
    if rt.agent.Executing? {
      SubsequenceSnoc(rt.performed, rt.delivered[..|rt.delivered| - 1], rt.agent.command.id);
      assert rt.delivered == rt.delivered[..|rt.delivered| - 1] + [rt.agent.command.id];
    }
  }

  lemma StepKeepsNode(s: State, e: Event, node: string)
    requires node in s.runtimes && NodeOk(s, node) && Enabled(s, e)
    requires e.Enqueue? ==> CallerNamed(s, e.id)
    ensures NodeOk(Step(s, e), node)
  {
    hide NodeOk, Step;
    match e {
      case Start(_, _, _, _) => StartKeepsNode(s, e, node);
      case Enqueue(_) => EnqueueKeepsNode(s, e, node);
      case Receive(_) => CallKeepsNode(s, e, node);
      case Expire(_) => CallKeepsNode(s, e, node);
      case Finish(_) => FinishKeepsNode(s, e, node);
      case ForgedPost(_, _) => PostKeepsNode(s, e, node);
      case Deliver(_) => PostKeepsNode(s, e, node);
      case _ => AgentKeepsNode(s, e, node);
    }
  }

  // ---------- Runs ----------

  const FRESH := Runtime([], {}, Idle, [], [], [], [])

  function Initial(nodes: set<string>): State {
    State(map n | n in nodes :: FRESH, map[], map[], multiset{}, {}, map[])
  }

  ghost predicate Possible(s: State, es: seq<Event>)
    decreases es
  {
    es == [] || (Enabled(s, es[0]) && Possible(Step(s, es[0]), es[1..]))
  }

  ghost function After(s: State, es: seq<Event>): State
    requires Possible(s, es)
    decreases es
  {
    if es == [] then s else After(Step(s, es[0]), es[1..])
  }

  /** Everything call id can observe: its own state, its reply channel, and its first result. */
  ghost predicate SameView(s: State, s': State, id: string) {
    && (id in s.callers <==> id in s'.callers) && (id in s.callers ==> s.callers[id] == s'.callers[id])
    && (id in s.slots <==> id in s'.slots) && (id in s.slots ==> s.slots[id] == s'.slots[id])
    && (id in s.first <==> id in s'.first) && (id in s.first ==> s.first[id] == s'.first[id])
  }

  /** The same record of what the agent dequeued, got, performed and is doing. */
  ghost predicate SameAgentSide(rt: Runtime, rt': Runtime) {
    && rt'.agent == rt.agent && rt'.taken == rt.taken
    && rt'.delivered == rt.delivered && rt'.performed == rt.performed
  }

  lemma CallerStepRuntimes(s: State, e: Event)
    requires Enabled(s, e) && OfCaller(e)
    ensures var s' := Step(s, e);
      && s'.runtimes.Keys == s.runtimes.Keys
      && (forall n :: n in s.runtimes ==> SameAgentSide(s.runtimes[n], s'.runtimes[n]))
  {
    var s' := Step(s, e);
    var node := if e.Start? then e.node else s.callers[e.id].node;
    assert s'.runtimes == s.runtimes[node := s'.runtimes[node]];
  }

  lemma CallerStepCalls(s: State, e: Event)
    requires Enabled(s, e) && OfCaller(e)
    ensures var s' := Step(s, e);
      && s'.posters == s.posters && s'.posts == s.posts && s'.first == s.first
      && (forall id :: id != e.id ==> SameView(s, s', id))
  {
  }

  /** A caller's step touches only its own entries, and no node's record of deliveries. */
  lemma CallerStepFrame(s: State, e: Event)
    requires Enabled(s, e) && OfCaller(e)
    ensures var s' := Step(s, e);
      && s'.runtimes.Keys == s.runtimes.Keys
      && s'.posters == s.posters && s'.posts == s.posts && s'.first == s.first
      && (forall id :: id != e.id ==> SameView(s, s', id))
      && (forall n :: n in s.runtimes ==> SameAgentSide(s.runtimes[n], s'.runtimes[n]))
  {
    hide Step, Enabled;
    CallerStepRuntimes(s, e);
    CallerStepCalls(s, e);
  }

  /** An agent-side step touches only its own node's runtime, and possibly posts. */
  lemma AgentStepFrame(s: State, e: Event)
    requires Enabled(s, e) && OfAgent(e)
    ensures e.node in s.runtimes && AgentReady(s.runtimes[e.node], e)
    ensures var s', rt := Step(s, e), s.runtimes[e.node];
      && s'.runtimes == s.runtimes[e.node := AgentMove(rt, e)]
      && s'.callers == s.callers && s'.slots == s.slots && s'.first == s.first
      && s'.posts == (if e.AgentPost? then s.posts + {(e.node, rt.agent.result)} else s.posts)
  {
    hide AgentMove, AgentReady;
  }

  /** Posting and delivering leave every runtime and call alone. */
  lemma PostStepFrame(s: State, e: Event)
    requires Enabled(s, e) && (e.ForgedPost? || e.Deliver?)
    ensures var s' := Step(s, e);
      && s'.runtimes == s.runtimes && s'.callers == s.callers
      && (e.ForgedPost? ==> s'.slots == s.slots && s'.first == s.first)
      && (e.Deliver? ==> s'.posts == s.posts)
  {
  }

  lemma SameNodes(s: State, e: Event)
    requires Enabled(s, e)
    ensures Step(s, e).runtimes.Keys == s.runtimes.Keys
  {
    hide Step;
    if OfCaller(e) {
      CallerStepFrame(s, e);
    } else if OfAgent(e) {
      AgentStepFrame(s, e);
      assert e.node in s.runtimes;
    } else {
      PostStepFrame(s, e);
    }
  }

  lemma StepKeepsInv(s: State, e: Event)
    requires Inv(s) && Enabled(s, e)
    ensures Inv(Step(s, e))
  {
    hide Step, CallerOk;
    StepKeepsCalls(s, e);
    SameNodes(s, e);
    if e.Enqueue? {
      CallerIsNamed(s, e.id);
    }
    forall node | node in Step(s, e).runtimes ensures NodeOk(Step(s, e), node) {
      assert NodeOk(s, node);
      StepKeepsNode(s, e, node);
    }
  }

  lemma CallerIsNamed(s: State, id: string)
    requires CallsOk(s) && id in s.callers
    ensures CallerNamed(s, id)
  {
    assert CallerOk(s, id);
  }

  lemma InitialInv(nodes: set<string>)
    ensures Inv(Initial(nodes))
  {
    forall n | n in nodes ensures NodeOk(Initial(nodes), n) {}
  }

  lemma {:induction false} RunKeepsInv(s: State, es: seq<Event>)
    requires Inv(s) && Possible(s, es)
    ensures Inv(After(s, es))
    decreases es
  {
    hide Inv, Step;
    if es != [] {
      StepKeepsInv(s, es[0]);
      RunKeepsInv(Step(s, es[0]), es[1..]);
    }
  }

  /**
   * Every command goes through its node's bounded queue once, in order: what was dequeued is a prefix of what was
   * enqueued, and what the agent performed is a selection of that, in the same order and without repetition.
   */
  lemma QueuedInOrderPerformedOnce(nodes: set<string>, es: seq<Event>, node: string)
    requires Possible(Initial(nodes), es) && node in nodes
    ensures var s := After(Initial(nodes), es);
      && node in s.runtimes
      && |s.runtimes[node].queue| <= 16
      && s.runtimes[node].taken <= s.runtimes[node].sent
      && Subsequence(s.runtimes[node].performed, s.runtimes[node].taken)
      && Distinct(s.runtimes[node].sent) && Distinct(s.runtimes[node].performed)
  {
    hide Step, Subsequence;
    InitialInv(nodes);
    RunKeepsInv(Initial(nodes), es);
    RuntimeStays(Initial(nodes), es);
    var s := After(Initial(nodes), es);
    assert NodeOk(s, node);
    PerformedTaken(s.runtimes[node]);
    PrefixSubsequence(s.runtimes[node].taken, s.runtimes[node].sent);
    SubsequenceDistinct(s.runtimes[node].taken, s.runtimes[node].sent);
    SubsequenceDistinct(s.runtimes[node].performed, s.runtimes[node].taken);
  }

  lemma {:induction false} PrefixSubsequence<T>(a: seq<T>, b: seq<T>)
    requires a <= b
    ensures Subsequence(a, b)
  {
    if |a| == |b| {
      assert a == b;
      SubsequenceRefl(a);
    } else if a != [] {
      PrefixSubsequence(a, b[..|b| - 1]);
    }
  }

  lemma PerformedTaken(rt: Runtime)
    requires AgentOk(rt)
    ensures Subsequence(rt.performed, rt.taken)
  {
    if rt.agent.Executing? {
      SubsequenceSnoc(rt.performed, rt.delivered[..|rt.delivered| - 1], rt.agent.command.id);
      assert rt.delivered == rt.delivered[..|rt.delivered| - 1] + [rt.agent.command.id];
    }
    SubsequenceTrans(rt.performed, rt.delivered, rt.taken);
  }

  lemma {:induction false} RuntimeStays(s: State, es: seq<Event>)
    requires Inv(s) && Possible(s, es)
    ensures After(s, es).runtimes.Keys == s.runtimes.Keys
    decreases es
  {
    hide Inv, Step;
    if es != [] {
      SameNodes(s, es[0]);
      StepKeepsInv(s, es[0]);
      RuntimeStays(Step(s, es[0]), es[1..]);
    }
  }

  /**
   * An answered call got the first result that reached its own reply channel; that result carries the call's request
   * id and was posted by the node the command was sent to. A call that has returned has left nothing in Pending.
   */
  lemma AnswerIsOwn(nodes: set<string>, es: seq<Event>, id: string)
    requires Possible(Initial(nodes), es) && id in After(Initial(nodes), es).callers
    requires After(Initial(nodes), es).callers[id].phase.Finished?
    ensures var s := After(Initial(nodes), es);
      var c := s.callers[id];
      && (c.phase.outcome.Answered? ==>
            var r := c.phase.outcome.result;
            r.id == id && (c.node, r) in s.posts && IsFirst(s, id, r))
      && c.node in s.runtimes && id !in s.runtimes[c.node].pending
  {
    hide Step;
    InitialInv(nodes);
    RunKeepsInv(Initial(nodes), es);
    var s := After(Initial(nodes), es);
    assert CallerOk(s, id);
    assert id in s.first ==> FirstOk(s, id);
    assert NodeOk(s, s.callers[id].node);
    assert !Open(s, s.callers[id].node, id);
  }

  // ---------- Calls do not disturb each other ----------

  /** Steps of the call itself, and deliveries of results that carry its id and come from the node it asked. */
  predicate Concerns(e: Event, id: string, node: string) {
    match e
    case Start(_, k, _, _) => k == id
    case Enqueue(k) => k == id
    case Receive(k) => k == id
    case Expire(k) => k == id
    case Finish(k) => k == id
    case Deliver(p) => p.result.id == id && p.node == node
    case _ => false
  }

  /** A result from a node that was not asked finds no channel, even if it carries the call's id. */
  lemma DeliveryInvisible(s: State, p: Poster, id: string)
    requires PosterOk(s, p) && Enabled(s, Deliver(p))
    requires p.result.id != id || (id in s.callers ==> s.callers[id].node != p.node)
    ensures SameView(s, Step(s, Deliver(p)), id)
  {
  }

  lemma OtherStepsInvisible(s: State, e: Event, id: string, node: string)
    requires Inv(s) && Enabled(s, e) && !Concerns(e, id, node)
    requires id in s.callers ==> s.callers[id].node == node
    ensures SameView(s, Step(s, e), id)
  {
    hide Step, RuntimesOk, CallerOk;
    if OfCaller(e) {
      CallerStepFrame(s, e);
    } else if OfAgent(e) {
      AgentStepFrame(s, e);
    } else if e.ForgedPost? {
      PostStepFrame(s, e);
    } else {
      DeliveryInvisible(s, e.poster, id);
    }
  }

  /**
   * Whatever other callers and agents do, whatever arrives late or twice, and whatever other nodes post under this
   * call's id: the call sees none of it.
   */
  lemma {:induction false} NoCrossTalk(s: State, es: seq<Event>, id: string, node: string)
    requires Inv(s) && Possible(s, es)
    requires id in s.callers ==> s.callers[id].node == node
    requires forall i :: 0 <= i < |es| ==> !Concerns(es[i], id, node)
    ensures SameView(s, After(s, es), id)
    decreases es
  {
    hide Inv, Step;
    if es != [] {
      assert !Concerns(es[0], id, node);
      OtherStepsInvisible(s, es[0], id, node);
      StepKeepsInv(s, es[0]);
      NoCrossTalk(Step(s, es[0]), es[1..], id, node);
    }
  }

  /** A returned call keeps its outcome, even when results for it keep arriving. */
  lemma {:induction false} OutcomeIsFinal(s: State, es: seq<Event>, id: string)
    requires Possible(s, es) && id in s.callers && s.callers[id].phase.Finished?
    ensures id in After(s, es).callers && After(s, es).callers[id] == s.callers[id]
    decreases es
  {
    hide Step;
    if es != [] {
      FinishedStays(s, es[0], id);
      OutcomeIsFinal(Step(s, es[0]), es[1..], id);
    }
  }

  lemma FinishedStays(s: State, e: Event, id: string)
    requires Enabled(s, e) && id in s.callers && s.callers[id].phase.Finished?
    ensures id in Step(s, e).callers && Step(s, e).callers[id] == s.callers[id]
  {
  }

  // ---------- With an agent that posts only its own results ----------

  ghost predicate Handled(s: State, node: string, r: Result) {
    && node in s.runtimes
    && r.id in s.runtimes[node].delivered
    && (r.ok ==> r.id in s.runtimes[node].performed)
  }

  ghost predicate HonestInv(s: State) {
    && (forall node, r :: (node, r) in s.posts ==> Handled(s, node, r))
    && (forall node :: node in s.runtimes && s.runtimes[node].agent.Posting? ==>
          Handled(s, node, s.runtimes[node].agent.result))
  }

  /** An agent-side step only adds to its node's delivery and performance records. */
  lemma AgentMoveGrows(rt: Runtime, e: Event)
    requires AgentReady(rt, e)
    ensures var rt' := AgentMove(rt, e);
      && (forall x :: x in rt.delivered ==> x in rt'.delivered)
      && (forall x :: x in rt.performed ==> x in rt'.performed)
      && (rt'.agent.Posting? ==> rt'.agent == rt.agent || e.Perform?)
  {
  }

  /** What the agent is about to post after performing a command. */
  lemma PerformHandled(rt: Runtime, e: Event)
    requires AgentOk(rt) && AgentReady(rt, e) && e.Perform?
    ensures var rt' := AgentMove(rt, e);
      && rt'.agent.Posting? && rt'.agent.result.id in rt'.delivered
      && (rt'.agent.result.ok ==> rt'.agent.result.id in rt'.performed)
  {
    hide Subsequence;
    assert rt.delivered[|rt.delivered| - 1] in rt.delivered;
  }

  /** executeCommand's guards: a command of another protocol or over 120 seconds old fails without being performed. */
  lemma GuardedCommands(rt: Runtime, e: Event)
    requires AgentReady(rt, e) && e.Perform?
    ensures var rt', c := AgentMove(rt, e), rt.agent.command;
      && rt'.agent.Posting? && rt'.agent.result.id == c.id
      && (rt'.performed == rt.performed + [c.id] <==> c.protocol == 1 && e.now - c.timestamp <= 120)
      && (c.protocol != 1 || e.now - c.timestamp > 120 ==>
            !rt'.agent.result.ok && rt'.performed == rt.performed)
  {
    assert |rt.performed + [rt.agent.command.id]| == |rt.performed| + 1;
  }

  lemma HandledGrows(s: State, e: Event, node: string, r: Result)
    requires Enabled(s, e) && Handled(s, node, r)
    ensures Handled(Step(s, e), node, r)
  {
    hide Step, AgentMove, AgentReady;
    if OfCaller(e) {
      CallerStepFrame(s, e);
    } else if OfAgent(e) {
      AgentStepFrame(s, e);
      AgentMoveGrows(s.runtimes[e.node], e);
    } else {
      PostStepFrame(s, e);
    }
  }

  /** Where the posts and the pending results of an honest step come from. */
  lemma NewPosts(s: State, e: Event)
    requires Enabled(s, e) && !e.ForgedPost?
    ensures forall p :: p in Step(s, e).posts ==>
      (|| p in s.posts
       || (e.AgentPost? && s.runtimes[e.node].agent.Posting? && p == (e.node, s.runtimes[e.node].agent.result)))
    ensures forall n :: n in Step(s, e).runtimes && Step(s, e).runtimes[n].agent.Posting? ==>
      (n in s.runtimes && (Step(s, e).runtimes[n].agent == s.runtimes[n].agent || (e.Perform? && e.node == n)))
  {
    hide Step, AgentMove;
    if OfCaller(e) {
      CallerStepFrame(s, e);
    } else if OfAgent(e) {
      AgentStepFrame(s, e);
      AgentMoveGrows(s.runtimes[e.node], e);
    } else {
      PostStepFrame(s, e);
    }
  }

  lemma HonestStep(s: State, e: Event)
    requires Inv(s) && HonestInv(s) && Enabled(s, e) && !e.ForgedPost?
    ensures HonestInv(Step(s, e))
  {
    hide CallsOk, Step, QueueOk, PendingOk, AgentOk, AgentMove, AgentReady;
    var s' := Step(s, e);
    NewPosts(s, e);
    forall node, r | (node, r) in s'.posts ensures Handled(s', node, r) {
      assert Handled(s, node, r);
      HandledGrows(s, e, node, r);
    }
    forall node | node in s'.runtimes && s'.runtimes[node].agent.Posting?
      ensures Handled(s', node, s'.runtimes[node].agent.result)
    {
      if e.Perform? && e.node == node {
        assert NodeOk(s, node);
        AgentStepFrame(s, e);
        PerformHandled(s.runtimes[node], e);
      } else {
        HandledGrows(s, e, node, s.runtimes[node].agent.result);
      }
    }
  }

  lemma {:induction false} HonestRun(s: State, es: seq<Event>)
    requires Inv(s) && HonestInv(s) && Possible(s, es)
    requires forall i :: 0 <= i < |es| ==> !es[i].ForgedPost?
    ensures HonestInv(After(s, es))
    decreases es
  {
    hide Inv, HonestInv, Step;
    if es != [] {
      HonestStep(s, es[0]);
      StepKeepsInv(s, es[0]);
      HonestRun(Step(s, es[0]), es[1..]);
    }
  }

  /** A successful answer means the node that was asked performed this command, and performed it once. */
  lemma SuccessMeansPerformedOnce(nodes: set<string>, es: seq<Event>, id: string)
    requires Possible(Initial(nodes), es) && id in After(Initial(nodes), es).callers
    requires forall i :: 0 <= i < |es| ==> !es[i].ForgedPost?
    requires After(Initial(nodes), es).callers[id].phase.Finished?
    requires After(Initial(nodes), es).callers[id].phase.outcome.Answered?
    requires After(Initial(nodes), es).callers[id].phase.outcome.result.ok
    ensures var s := After(Initial(nodes), es);
      var node := s.callers[id].node;
      node in s.runtimes && id in s.runtimes[node].performed && Distinct(s.runtimes[node].performed)
  {
    hide Step;
    AnswerIsOwn(nodes, es, id);
    InitialInv(nodes);
    HonestRun(Initial(nodes), es);
    RuntimeStays(Initial(nodes), es);
    QueuedInOrderPerformedOnce(nodes, es, After(Initial(nodes), es).callers[id].node);
  }

  // ---------- Answers arrive ----------

  /** An unfinished call of this node whose reply channel is empty. */
  ghost predicate Awaits(s: State, node: string, id: string) {
    && id in s.callers && s.callers[id].node == node && !s.callers[id].phase.Finished?
    && id in s.slots && s.slots[id].None?
  }

  /** The event posts this result from this node. */
  ghost predicate Posts(s: State, e: Event, node: string, r: Result) {
    || e == ForgedPost(node, r)
    || (e.AgentPost? && e.node == node && node in s.runtimes && s.runtimes[node].agent == Posting(r))
  }

  lemma PostedWithChannel(s: State, e: Event, node: string, r: Result)
    requires Enabled(s, e) && Posts(s, e, node, r) && node in s.runtimes && r.id in s.runtimes[node].pending
    ensures var s', p := Step(s, e), Poster(node, r, Some(r.id));
      p in s'.posters && s'.slots == s.slots && s'.callers == s.callers
  {
  }

  lemma DeliveredToEmptySlot(s: State, p: Poster)
    requires p in s.posters && p.channel == Some(p.result.id)
    requires p.result.id in s.slots && s.slots[p.result.id].None?
    ensures Enabled(s, Deliver(p))
    ensures var s' := Step(s, Deliver(p));
      && p.result.id in s'.slots && s'.slots[p.result.id] == Some(p.result)
      && s'.callers == s.callers && s'.runtimes == s.runtimes
  {
  }

  /** A result posted by the asked node finds the call's reply channel, and delivering it fills the channel. */
  lemma PostReachesCall(s: State, e: Event, node: string, r: Result) returns (p: Poster)
    requires Inv(s) && Enabled(s, e) && Posts(s, e, node, r) && Awaits(s, node, r.id)
    ensures p.node == node && p.result == r && p in Step(s, e).posters
    ensures Enabled(Step(s, e), Deliver(p))
    ensures var s' := Step(Step(s, e), Deliver(p));
      && r.id in s'.slots && s'.slots[r.id] == Some(r)
      && r.id in s'.callers && s'.callers[r.id] == s.callers[r.id]
  {
    p := Poster(node, r, Some(r.id));
    hide Step, QueueOk, AgentOk, CallsOk;
    assert CallsOk(s) && NodeOk(s, node) by {
      InvParts(s, node, r.id);
    }
    assert Open(s, node, r.id);
    PostedWithChannel(s, e, node, r);
    DeliveredToEmptySlot(Step(s, e), p);
  }

  lemma InvParts(s: State, node: string, id: string)
    requires Inv(s) && id in s.callers && s.callers[id].node == node
    ensures CallsOk(s) && node in s.runtimes && NodeOk(s, node)
  {
    assert CallerOk(s, id);
  }

  /** Nothing but the call itself takes a delivered result out of its channel, and no later result replaces it. */
  lemma {:induction false} FirstDeliveredStays(s: State, es: seq<Event>, id: string, r: Result)
    requires Possible(s, es) && id in s.callers && id in s.slots && s.slots[id] == Some(r)
    requires forall i :: 0 <= i < |es| ==> es[i] != Receive(id)
    ensures id in After(s, es).callers && id in After(s, es).slots && After(s, es).slots[id] == Some(r)
    decreases es
  {
    hide Step, Enabled;
    if es != [] {
      assert es[0] != Receive(id);
      SlotStays(s, es[0], id, r);
      FirstDeliveredStays(Step(s, es[0]), es[1..], id, r);
    }
  }

  lemma SlotStays(s: State, e: Event, id: string, r: Result)
    requires Enabled(s, e) && id in s.callers && id in s.slots && s.slots[id] == Some(r) && e != Receive(id)
    ensures id in Step(s, e).callers && id in Step(s, e).slots && Step(s, e).slots[id] == Some(r)
  {
    hide AgentMove, AgentReady;
  }

  /** Receiving takes exactly the result in the channel, and returning makes it the call's answer. */
  lemma ReceivedIsAnswer(s: State, id: string, r: Result)
    requires Calling(s, id, Waiting) && s.slots[id] == Some(r)
    ensures Enabled(s, Receive(id)) && Enabled(Step(s, Receive(id)), Finish(id))
    ensures var s' := Step(Step(s, Receive(id)), Finish(id));
      && id in s'.callers && s'.callers[id] == s.callers[id].(phase := Finished(Answered(r)))
      && s.callers[id].node in s'.runtimes && id !in s'.runtimes[s.callers[id].node].pending
  {
  }

  /** A call that gives up returns without an answer, whatever its channel holds. */
  lemma ExpiredHasNoAnswer(s: State, id: string)
    requires Calling(s, id, Waiting)
    ensures Enabled(s, Expire(id)) && Enabled(Step(s, Expire(id)), Finish(id))
    ensures var s' := Step(Step(s, Expire(id)), Finish(id));
      id in s'.callers && s'.callers[id].phase == Finished(NoAnswer)
  {
  }

  /** A command goes to the end of its node's queue exactly when fewer than 16 are waiting; else the call fails busy. */
  lemma EnqueueExactly(s: State, id: string)
    requires Calling(s, id, Registered)
    ensures Enabled(s, Enqueue(id))
    ensures var c, s' := s.callers[id], Step(s, Enqueue(id));
      var q := s.runtimes[c.node].queue;
      && id in s'.callers && c.node in s'.runtimes
      && (|q| < 16 ==> s'.callers[id].phase == Waiting && s'.runtimes[c.node].queue == q + [c.command])
      && (|q| >= 16 ==> s'.callers[id].phase == Leaving(QueueBusy) && s'.runtimes[c.node].queue == q)
  {
  }

  /** A poll takes the oldest waiting command, as it was sent. */
  lemma TakeIsOldest(s: State, node: string)
    requires node in s.runtimes && s.runtimes[node].queue != [] && s.runtimes[node].agent == Idle
    ensures Enabled(s, Take(node, true))
    ensures var rt, s' := s.runtimes[node], Step(s, Take(node, true));
      && node in s'.runtimes && s'.runtimes[node].queue == rt.queue[1..]
      && s'.runtimes[node].agent == Executing(rt.queue[0])
  {
  }

  /** The stages of one undisturbed call, as seen after each of its first five events. */
  lemma CallIsPerformed(s: State, node: string, id: string, action: string, t0: int, t1: int, ok: bool, body: string)
    returns (s5: State)
    requires node in s.runtimes && id !in s.callers
    requires s.runtimes[node].queue == [] && s.runtimes[node].agent == Idle && t1 - t0 <= 120
    ensures var es := [Start(node, id, action, t0), Enqueue(id), Take(node, true), Perform(node, t1, ok, body)];
      Possible(s, es) && s5 == After(s, es)
    ensures Calling(s5, id, Waiting) && s5.callers[id].node == node && s5.slots[id].None?
    ensures node in s5.runtimes && s5.runtimes[node].agent == Posting(Result(id, ok, body))
    ensures s5.runtimes[node].performed == s.runtimes[node].performed + [id]
  {
    var e1, e2, e3, e4 := Start(node, id, action, t0), Enqueue(id), Take(node, true), Perform(node, t1, ok, body);
    var s2 := Step(Step(s, e1), e2);
    SentCall(s, node, id, action, t0);
    PerformedCall(s2, node, id, Command(id, action, 1, t0), t1, ok, body);
    hide Step, Enabled, Calling;
    s5 := Step(Step(s2, e3), e4);
    RunOfFour(s, e1, e2, e3, e4);
  }

  lemma SentCall(s: State, node: string, id: string, action: string, t0: int)
    requires node in s.runtimes && id !in s.callers && s.runtimes[node].queue == []
    ensures Enabled(s, Start(node, id, action, t0)) && Enabled(Step(s, Start(node, id, action, t0)), Enqueue(id))
    ensures var s' := Step(Step(s, Start(node, id, action, t0)), Enqueue(id));
      && Calling(s', id, Waiting) && s'.callers[id].node == node && s'.slots[id].None?
      && s'.runtimes[node].queue == [Command(id, action, 1, t0)]
      && s'.runtimes[node].agent == s.runtimes[node].agent && s'.runtimes[node].performed == s.runtimes[node].performed
  {
    hide AgentMove, AgentReady;
  }

  lemma PerformedCall(s: State, node: string, id: string, c: Command, t1: int, ok: bool, body: string)
    requires Calling(s, id, Waiting) && s.callers[id].node == node && s.slots[id].None?
    requires s.runtimes[node].queue == [c] && s.runtimes[node].agent == Idle
    requires c.id == id && c.protocol == 1 && t1 - c.timestamp <= 120
    ensures Enabled(s, Take(node, true)) && Enabled(Step(s, Take(node, true)), Perform(node, t1, ok, body))
    ensures var s' := Step(Step(s, Take(node, true)), Perform(node, t1, ok, body));
      && Calling(s', id, Waiting) && s'.callers[id].node == node && s'.slots[id].None?
      && s'.runtimes[node].agent == Posting(Result(id, ok, body))
      && s'.runtimes[node].performed == s.runtimes[node].performed + [id]
  {
  }

  lemma RunOfFour(s: State, e1: Event, e2: Event, e3: Event, e4: Event)
    requires Enabled(s, e1) && Enabled(Step(s, e1), e2) && Enabled(Step(Step(s, e1), e2), e3)
    requires Enabled(Step(Step(Step(s, e1), e2), e3), e4)
    ensures Possible(s, [e1, e2, e3, e4])
    ensures After(s, [e1, e2, e3, e4]) == Step(Step(Step(Step(s, e1), e2), e3), e4)
  {
    hide Enabled, Step;
    assert [e1, e2, e3, e4][1..] == [e2, e3, e4] && [e2, e3, e4][1..] == [e3, e4] && [e3, e4][1..] == [e4];
    assert [e4][1..] == [];
    var s2 := Step(Step(s, e1), e2);
    assert Possible(Step(s2, e3), [e4]) && After(Step(s2, e3), [e4]) == Step(Step(s2, e3), e4);
    assert Possible(s2, [e3, e4]) && After(s2, [e3, e4]) == Step(Step(s2, e3), e4);
  }

  /**
   * A call to an idle agent is answered: sent, taken, performed within 120 seconds, posted, delivered and received, it
   * returns the result the agent computed, after the agent has performed it once more.
   */
  lemma UndisturbedCallIsAnswered(
    s: State, node: string, id: string, action: string, t0: int, t1: int, ok: bool, body: string)
    requires Inv(s) && node in s.runtimes && id !in s.callers
    requires s.runtimes[node].queue == [] && s.runtimes[node].agent == Idle && t1 - t0 <= 120
    ensures var r := Result(id, ok, body);
      var first := [Start(node, id, action, t0), Enqueue(id), Take(node, true), Perform(node, t1, ok, body)];
      var second := [AgentPost(node, false), Deliver(Poster(node, r, Some(id))), Receive(id), Finish(id)];
      && Possible(s, first) && Possible(After(s, first), second)
      && var s' := After(After(s, first), second);
         && id in s'.callers && s'.callers[id].phase == Finished(Answered(r))
         && node in s'.runtimes && s'.runtimes[node].performed == s.runtimes[node].performed + [id]
  {
    var r, p := Result(id, ok, body), Poster(node, Result(id, ok, body), Some(id));
    var first := [Start(node, id, action, t0), Enqueue(id), Take(node, true), Perform(node, t1, ok, body)];
    var s4 := CallIsPerformed(s, node, id, action, t0, t1, ok, body);
    RunKeepsInv(s, first);
    InvParts(s4, node, id);
    assert Open(s4, node, id) && id in s4.runtimes[node].pending;
    AnsweredFrom(s4, node, r);
  }

  lemma AnsweredFrom(s: State, node: string, r: Result)
    requires Calling(s, r.id, Waiting) && s.callers[r.id].node == node && s.slots[r.id].None?
    requires node in s.runtimes && s.runtimes[node].agent == Posting(r) && r.id in s.runtimes[node].pending
    ensures var es := [AgentPost(node, false), Deliver(Poster(node, r, Some(r.id))), Receive(r.id), Finish(r.id)];
      && Possible(s, es)
      && var s' := After(s, es);
         && r.id in s'.callers && s'.callers[r.id].phase == Finished(Answered(r))
         && node in s'.runtimes && s'.runtimes[node].performed == s.runtimes[node].performed
  {
    var p := Poster(node, r, Some(r.id));
    var s1 := Step(s, AgentPost(node, false));
    assert Calling(s1, r.id, Waiting) && s1.slots[r.id].None?;
    assert s1.runtimes[node].performed == s.runtimes[node].performed;
    PostedWithChannel(s, AgentPost(node, false), node, r);
    DeliveredToEmptySlot(s1, p);
    var s2 := Step(s1, Deliver(p));
    ReceivedIsAnswer(s2, r.id, r);
    ReturnKeepsPerformed(s2, r.id, node);
    hide Enabled, Step;
    RunOfFour(s, AgentPost(node, false), Deliver(p), Receive(r.id), Finish(r.id));
  }

  lemma ReturnKeepsPerformed(s: State, id: string, node: string)
    requires Calling(s, id, Waiting) && s.slots[id].Some? && node in s.runtimes
    ensures Enabled(s, Receive(id)) && Enabled(Step(s, Receive(id)), Finish(id))
    ensures var s' := Step(Step(s, Receive(id)), Finish(id));
      node in s'.runtimes && s'.runtimes[node].performed == s.runtimes[node].performed
  {
  }
}
