/**
 * Properties of whole runs of the identity state: one identity per one-time token, idempotent retries, the joined
 * counter, and how long a replaced secret stays valid.
 */
module IdentityRuns {
  import opened Basics
  import opened Identity

  /**
   * The state together with what the run has done so far: every id, token and secret drawn, the tokens issued for one
   * node, the identity each of those was first answered with, and the nodes that appeared under each token.
   */
  datatype World = World(
    s: State,
    ids: set<string>, tokens: set<string>, secrets: set<string>, oneTime: set<string>,
    identity: map<string, (string, string)>,
    joiners: map<Digest, set<string>>)

  const START := World(INITIAL, {}, {}, {}, {}, map[], map[])

  ghost predicate Fresh(w: World, op: Op) {
    match op
    case Create(id, token, _, _) => id !in w.ids && token !in w.tokens
    case Reenroll(_, token) => token !in w.tokens
    case SetCommon(token, _, _) => token !in w.tokens
    case Register(_, id, secret) => id !in w.ids && secret !in w.secrets
    case _ => true
  }

  ghost function Noted(w: World, op: Op, s': State, a: Answer): World {
    var w' := w.(s := s');
    match op
    case Create(id, token, _, _) =>
      w'.(ids := w.ids + {id}, tokens := w.tokens + {token}, oneTime := w.oneTime + {token})
    case Reenroll(_, token) => w'.(tokens := w.tokens + {token}, oneTime := w.oneTime + {token})
    case SetCommon(token, _, _) => w'.(tokens := w.tokens + {token}, joiners := w.joiners[Sha256(token) := {}])
    case Register(r, id, secret) =>
      var th := Sha256(r.token);
      w'.(ids := w.ids + {id}, secrets := w.secrets + {secret},
          identity := if a.Registered? && r.token in w.oneTime && r.token !in w.identity
                      then w.identity[r.token := (a.node, a.secret)] else w.identity,
          joiners := if th in w.joiners then w.joiners[th := w.joiners[th] + (s'.nodes.Keys - w.s.nodes.Keys)]
                     else w.joiners)
    case _ => w'
  }

  ghost function Next(w: World, e: Event): World {
    var (s', a) := Step(w.s, e);
    Noted(w, e.op, s', a)
  }

  ghost function After(es: seq<Event>): World {
    if es == [] then START else Next(After(es[..|es| - 1]), es[|es| - 1])
  }

  /** The answer event i of the run gets. */
  ghost function AnswerAt(es: seq<Event>, i: nat): Answer
    requires i < |es|
  {
    Step(After(es[..i]).s, es[i]).1
  }

  /** A run of the server: the clock does not go backwards and random values are fresh. */
  ghost predicate Possible(es: seq<Event>) {
    && (forall i, j :: 0 <= i < j < |es| ==> es[i].now <= es[j].now)
    && (forall i :: 0 <= i < |es| ==> Fresh(After(es[..i]), es[i].op))
  }

  // ---------- The invariant of runs ----------

  /** What precedes the first '|'. */
  function BeforeBar(s: string): string {
    if s == "" || s[0] == '|' then "" else [s[0]] + BeforeBar(s[1..])
  }

  lemma {:induction false} BeforeBarOfHex(t: string, rest: string)
    requires Hex(t)
    ensures BeforeBar(t + "|" + rest) == t
  {
    var s := t + "|" + rest;
    if t != "" {
      BeforeBarOfHex(t[1..], rest);
      assert s[1..] == t[1..] + "|" + rest;
    }
  }

  ghost predicate TokenSound(w: World, h: Digest)
    requires h in w.s.enrollments
  {
    var e := w.s.enrollments[h];
    && h.preimage in w.tokens
    && (if e.reusable
        then h.preimage !in w.oneTime && h in w.joiners && e.joined == |w.joiners[h]| && w.joiners[h] <= w.ids
        else h.preimage in w.oneTime && h.preimage !in w.identity)
  }

  ghost predicate ReceiptSound(w: World, k: Digest)
    requires k in w.s.receipts
  {
    var t := BeforeBar(k.preimage);
    && t in w.tokens
    && (t in w.oneTime ==> t in w.identity && w.identity[t] == (w.s.receipts[k].nodeID, w.s.receipts[k].secret))
  }

  ghost predicate Consistent(w: World) {
    && Sound(w.s)
    && w.s.nodes.Keys <= w.ids
    && w.identity.Keys <= w.oneTime <= w.tokens
    && (forall t :: t in w.tokens ==> Hex(t))
    && (forall id :: id in w.s.nodes ==> w.s.nodes[id].agentSecret == "" || w.s.nodes[id].agentSecret in w.secrets)
    && (forall h :: h in w.s.enrollments ==> TokenSound(w, h))
    && (forall k :: k in w.s.receipts ==> ReceiptSound(w, k))
  }

  lemma FreshImpliesFreshFor(w: World, op: Op)
    requires Consistent(w) && Fresh(w, op)
    ensures FreshFor(w.s, op)
  {
    forall t: string | Sha256(t) in w.s.enrollments ensures t in w.tokens {
      assert TokenSound(w, Sha256(t));
    }
  }

  /** A successful answer to a one-time token is the identity the token is bound to from then on. */
  ghost predicate AnswersIdentity(w: World, e: Event) {
    var a := Step(w.s, e).1;
    e.op.Register? && a.Registered? && e.op.request.token in w.oneTime ==>
      var t := e.op.request.token;
      t in Next(w, e).identity && Next(w, e).identity[t] == (a.node, a.secret)
  }

  /** Steps that hand out no new identity: refusals and replays of a receipt. */
  lemma IdleRegisterKeepsConsistent(w: World, e: Event)
    requires Consistent(w) && Fresh(w, e.op) && e.op.Register?
    requires !Enrols(w.s, Unix(e.now), e.op.request)
    ensures Consistent(Next(w, e)) && AnswersIdentity(w, e)
  {
    var w', r, sec := Next(w, e), e.op.request, Unix(e.now);
    var a := Step(w.s, e).1;
    FreshImpliesFreshFor(w, e.op);
    StepKeepsSound(w.s, e);
    assert w'.s == w.s;
    if a.Registered? {
      assert Replays(w.s, sec, r);
      assert ReceiptSound(w, ReceiptKey(r));
      if r.token in w.oneTime {
        BeforeBarOfHex(r.token, r.enrollmentID);
      }
    }
    assert w'.identity == w.identity;
    forall h | h in w.s.enrollments ensures TokenSound(w', h) {
      assert TokenSound(w, h);
    }
    forall k | k in w.s.receipts ensures ReceiptSound(w', k) {
      assert ReceiptSound(w, k);
    }
  }

  /** The node an enrolling request is given. */
  ghost function EnrolledNode(s: State, r: Request, id: string): string
    requires Sha256(r.token) in s.enrollments
  {
    if s.enrollments[Sha256(r.token)].reusable then id else s.enrollments[Sha256(r.token)].nodeID
  }

  /** An enrolling request in one line. */
  lemma EnrolStep(s: State, e: Event) returns (n: Node)
    requires e.op.Register? && Enrols(s, Unix(e.now), e.op.request)
    ensures var r, sec := e.op.request, Unix(e.now);
      && Step(s, e) == Enrol(s, sec, r, Sha256(r.token), EnrolledNode(s, r, e.op.id), n, e.op.secret)
      && (s.enrollments[Sha256(r.token)].reusable || n == s.nodes[EnrolledNode(s, r, e.op.id)])
  {
    var th := Sha256(e.op.request.token);
    n := if s.enrollments[th].reusable then JoinedNode(s.enrollments[th], Unix(e.now), e.op.id, e.op.request.name)
         else s.nodes[s.enrollments[th].nodeID];
  }

  /** What an enrolling request changes, field by field. */
  lemma EnrolNext(w: World, e: Event) returns (n: Node)
    requires e.op.Register? && Enrols(w.s, Unix(e.now), e.op.request)
    ensures var r, w' := e.op.request, Next(w, e);
      var th, node := Sha256(r.token), EnrolledNode(w.s, r, e.op.id);
      && w'.tokens == w.tokens && w'.oneTime == w.oneTime
      && w'.ids == w.ids + {e.op.id} && w'.secrets == w.secrets + {e.op.secret}
      && (w.s.enrollments[th].reusable || n == w.s.nodes[node])
      && w'.s.nodes == w.s.nodes[node := Rekeyed(n, Unix(e.now), e.op.secret, r.name)]
      && w'.s.nodes.Keys == w.s.nodes.Keys + {node}
      && (w.s.enrollments[th].reusable ==>
            w'.s.enrollments == w.s.enrollments[th := w.s.enrollments[th].(joined := w.s.enrollments[th].joined + 1)])
      && (!w.s.enrollments[th].reusable ==> w'.s.enrollments == w.s.enrollments - {th})
      && w'.s.receipts == (if r.enrollmentID == "" then w.s.receipts
                           else w.s.receipts[ReceiptKey(r) := Receipt(node, e.op.secret, Unix(e.now) + 600)])
      && w'.identity == (if r.token in w.oneTime && r.token !in w.identity
                         then w.identity[r.token := (node, e.op.secret)] else w.identity)
      && (th in w.joiners ==>
            w'.joiners == w.joiners[th := w.joiners[th] + (w'.s.nodes.Keys - w.s.nodes.Keys)])
      && (th !in w.joiners ==> w'.joiners == w.joiners)
      && Step(w.s, e).1.Registered? && Step(w.s, e).1.node == node && Step(w.s, e).1.secret == e.op.secret
  {
    hide Step, RegisterNode, Replays, Rekeyed;
    n := EnrolStep(w.s, e);
  }

  lemma OneMore(joined: set<string>, before: set<string>, after: set<string>, ids: set<string>, id: string)
    requires after == before + {id} && id !in ids && before <= ids && joined <= ids
    ensures joined + (after - before) <= ids + {id} && |joined + (after - before)| == |joined| + 1
  {
    assert joined + (after - before) == joined + {id};
  }

  /** Joining through the common token creates exactly one node. */
  lemma CommonTokenJoins(w: World, e: Event)
    requires e.op.Register? && Sha256(e.op.request.token) in w.s.enrollments
    requires Enrols(w.s, Unix(e.now), e.op.request)
    requires e.op.id !in w.ids && w.s.nodes.Keys <= w.ids
    requires w.s.enrollments[Sha256(e.op.request.token)].reusable && TokenSound(w, Sha256(e.op.request.token))
    ensures TokenSound(Next(w, e), Sha256(e.op.request.token))
    ensures e.op.id !in w.s.nodes && Next(w, e).s.nodes.Keys == w.s.nodes.Keys + {e.op.id}
    ensures Next(w, e).s.enrollments[Sha256(e.op.request.token)].joined
      == w.s.enrollments[Sha256(e.op.request.token)].joined + 1
  {
    hide Next, Replays, Rekeyed, Hex, Enrols;
    var th := Sha256(e.op.request.token);
    var n := EnrolNext(w, e);
    var w' := Next(w, e);
    OneMore(w.joiners[th], w.s.nodes.Keys, w'.s.nodes.Keys, w.ids, e.op.id);
    assert w'.joiners[th] == w.joiners[th] + (w'.s.nodes.Keys - w.s.nodes.Keys);
    assert w'.s.enrollments[th].joined == w.s.enrollments[th].joined + 1;
  }

  lemma EnrolKeepsTokens(w: World, e: Event, h: Digest)
    requires e.op.Register? && Enrols(w.s, Unix(e.now), e.op.request)
    requires e.op.id !in w.ids && w.s.nodes.Keys <= w.ids
    requires h in w.s.enrollments && TokenSound(w, h)
    requires h in Next(w, e).s.enrollments
    ensures TokenSound(Next(w, e), h)
  {
    hide Next, Replays, Rekeyed, Hex;
    var n := EnrolNext(w, e);
    if h == Sha256(e.op.request.token) {
      hide TokenSound;
      CommonTokenJoins(w, e);
    } else {
      assert h.preimage != e.op.request.token;
      assert Next(w, e).s.enrollments[h] == w.s.enrollments[h];
      assert h in w.joiners ==> Next(w, e).joiners[h] == w.joiners[h];
    }
  }

  lemma EnrolKeepsReceipts(w: World, e: Event, k: Digest)
    requires Consistent(w) && Fresh(w, e.op) && e.op.Register?
    requires Enrols(w.s, Unix(e.now), e.op.request)
    requires k in Next(w, e).s.receipts
    ensures ReceiptSound(Next(w, e), k)
  {
    hide Next, Step, Replays, Sound, Rekeyed;
    var r := e.op.request;
    var n := EnrolNext(w, e);
    assert TokenSound(w, Sha256(r.token));
    if k != ReceiptKey(r) || r.enrollmentID == "" {
      assert ReceiptSound(w, k);
    } else {
      BeforeBarOfHex(r.token, r.enrollmentID);
    }
  }

  /** A token whose enrollment is still stored has not been bound to an identity. */
  lemma StoredTokenUnbound(w: World, h: Digest)
    requires Consistent(w) && h in w.s.enrollments
    ensures h.preimage !in w.identity
  {
    assert TokenSound(w, h);
  }

  lemma EnrolKeepsConsistent(w: World, e: Event)
    requires Consistent(w) && Fresh(w, e.op) && e.op.Register?
    requires Enrols(w.s, Unix(e.now), e.op.request)
    ensures Consistent(Next(w, e)) && AnswersIdentity(w, e)
  {
    hide Step, Replays, Sound, TokenSound, ReceiptSound, Hex;
    var w', th := Next(w, e), Sha256(e.op.request.token);
    assert Sound(w'.s) by {
      FreshImpliesFreshFor(w, e.op);
      StepKeepsSound(w.s, e);
    }
    StoredTokenUnbound(w, th);
    hide Next;
    var n := EnrolNext(w, e);
    NamesKnownNodes(w.s);
    forall h | h in w'.s.enrollments ensures TokenSound(w', h) {
      assert TokenSound(w, h);
      EnrolKeepsTokens(w, e, h);
    }
    forall k | k in w'.s.receipts ensures ReceiptSound(w', k) {
      EnrolKeepsReceipts(w, e, k);
    }
  }

  lemma IssuingKeepsConsistent(w: World, e: Event)
    requires Consistent(w) && Fresh(w, e.op)
    requires e.op.Create? || e.op.Reenroll? || e.op.SetCommon?
    ensures Consistent(Next(w, e))
  {
    hide RegisterNode, Sound;
    var w' := Next(w, e);
    FreshImpliesFreshFor(w, e.op);
    StepKeepsSound(w.s, e);
    forall h | h in w'.s.enrollments ensures TokenSound(w', h) {
      assert h != Sha256(e.op.token) ==> TokenSound(w, h);
    }
    forall k | k in w'.s.receipts ensures ReceiptSound(w', k) {
      assert ReceiptSound(w, k);
    }
  }

  lemma OthersKeepConsistent(w: World, e: Event)
    requires Consistent(w) && Fresh(w, e.op)
    requires !(e.op.Create? || e.op.Reenroll? || e.op.SetCommon? || e.op.Register?)
    ensures Consistent(Next(w, e))
  {
    hide RegisterNode, Sound;
    var w' := Next(w, e);
    FreshImpliesFreshFor(w, e.op);
    StepKeepsSound(w.s, e);
    forall h | h in w'.s.enrollments ensures TokenSound(w', h) {
      assert TokenSound(w, h);
    }
    forall k | k in w'.s.receipts ensures ReceiptSound(w', k) {
      assert ReceiptSound(w, k);
    }
  }

  lemma NextKeepsConsistent(w: World, e: Event)
    requires Consistent(w) && Fresh(w, e.op)
    ensures Consistent(Next(w, e)) && AnswersIdentity(w, e)
  {
    if e.op.Register? {
      if Enrols(w.s, Unix(e.now), e.op.request) {
        EnrolKeepsConsistent(w, e);
      } else {
        IdleRegisterKeepsConsistent(w, e);
      }
    } else if e.op.Create? || e.op.Reenroll? || e.op.SetCommon? {
      IssuingKeepsConsistent(w, e);
    } else {
      OthersKeepConsistent(w, e);
    }
  }

  // ---------- Theorems ----------

  lemma PrefixPossible(es: seq<Event>, n: nat)
    requires Possible(es) && n <= |es|
    ensures Possible(es[..n])
  {
    forall i | 0 <= i < n ensures Fresh(After(es[..n][..i]), es[..n][i].op) {
      assert es[..n][..i] == es[..i];
    }
  }

  /** Every reachable state is consistent. */
  lemma {:induction false} RunConsistent(es: seq<Event>)
    requires Possible(es)
    ensures Consistent(After(es))
  {
    if es != [] {
      var n := |es| - 1;
      PrefixPossible(es, n);
      RunConsistent(es[..n]);
      NextKeepsConsistent(After(es[..n]), es[n]);
    }
  }

  /**
   * In every reachable state each one-time enrollment names an existing node, no two enrollments compete, every node
   * has a runtime and no stranger has one, and the common token's counter is the number of nodes it created.
   */
  lemma ReachableStates(es: seq<Event>)
    requires Possible(es)
    ensures var w := After(es);
      && w.s.nodes.Keys == w.s.runtime.Keys
      && (forall h :: h in w.s.enrollments && !w.s.enrollments[h].reusable ==> w.s.enrollments[h].nodeID in w.s.nodes)
      && (forall h1, h2 :: h1 in w.s.enrollments && h2 in w.s.enrollments ==>
            (Competing(w.s.enrollments[h1], w.s.enrollments[h2]) ==> h1 == h2))
      && (forall h :: h in w.s.enrollments && w.s.enrollments[h].reusable ==>
            h in w.joiners && w.s.enrollments[h].joined == |w.joiners[h]|)
  {
    RunConsistent(es);
    var w := After(es);
    forall h | h in w.s.enrollments ensures NamesNode(w.s, h) && TokenSound(w, h) {
    }
  }

  /** No request ever meets an enrollment whose node is gone. */
  lemma EnrolledNodeNeverMissing(es: seq<Event>, i: nat)
    requires Possible(es) && i < |es|
    ensures AnswerAt(es, i) != EnrolledNodeMissing
  {
    PrefixPossible(es, i);
    RunConsistent(es[..i]);
    FreshImpliesFreshFor(After(es[..i]), es[i].op);
    StepKeepsSound(After(es[..i]).s, es[i]);
  }

  lemma IdentityGrows(w: World, e: Event)
    ensures w.oneTime <= Next(w, e).oneTime && w.ids <= Next(w, e).ids
    ensures forall t :: t in w.identity ==> t in Next(w, e).identity && Next(w, e).identity[t] == w.identity[t]
  {
    hide Step;
  }

  /** Bindings and the set of one-time tokens only grow. */
  lemma {:induction false} IdentityPersists(es: seq<Event>, i: nat, j: nat)
    requires i <= j <= |es|
    ensures After(es[..i]).oneTime <= After(es[..j]).oneTime
    ensures After(es[..i]).ids <= After(es[..j]).ids
    ensures forall t :: t in After(es[..i]).identity ==>
      t in After(es[..j]).identity && After(es[..j]).identity[t] == After(es[..i]).identity[t]
    decreases j
  {
    hide Next;
    if i < j {
      IdentityPersists(es, i, j - 1);
      assert es[..j][..j - 1] == es[..j - 1];
      IdentityGrows(After(es[..j - 1]), es[j - 1]);
    }
  }

  /** However often a one-time token is used, every successful answer to it names the same node and secret. */
  lemma OneIdentityPerToken(es: seq<Event>, i: nat, j: nat)
    requires Possible(es) && i <= j < |es|
    requires es[i].op.Register? && es[j].op.Register? && es[i].op.request.token == es[j].op.request.token
    requires es[i].op.request.token in After(es[..i]).oneTime
    requires AnswerAt(es, i).Registered? && AnswerAt(es, j).Registered?
    ensures AnswerAt(es, i).node == AnswerAt(es, j).node && AnswerAt(es, i).secret == AnswerAt(es, j).secret
  {
    hide Step, After, Next, Consistent, Fresh;
    RunStep(es, i + 1);
    RunStep(es, j + 1);
    IdentityPersists(es, i, j);
    IdentityPersists(es, i + 1, j + 1);
    NextKeepsConsistent(After(es[..i]), es[i]);
    NextKeepsConsistent(After(es[..j]), es[j]);
  }

  /** Handlers other than registration add at most the created node, and change at most a lapsed secret. */
  lemma OtherStepNodes(s: State, e: Event)
    requires !e.op.Register?
    ensures forall id :: id in Step(s, e).0.nodes && !(e.op.Create? && id == e.op.id) ==>
      && id in s.nodes
      && (|| Step(s, e).0.nodes[id] == s.nodes[id]
          || Step(s, e).0.nodes[id] == Tidied(s.nodes[id], Unix(e.now)))
  {
    hide RegisterNode, Tidied;
  }

  lemma OtherStepReceipts(s: State, e: Event)
    requires !e.op.Register?
    ensures forall k :: k in s.receipts && s.receipts[k].expiresAt >= Unix(e.now) ==>
      k in Step(s, e).0.receipts && Step(s, e).0.receipts[k] == s.receipts[k]
  {
    hide RegisterNode, Tidied;
  }

  lemma IdleRegisterStep(s: State, e: Event)
    requires Sound(s) && e.op.Register? && !Enrols(s, Unix(e.now), e.op.request)
    ensures Step(s, e).0 == s
  {
    NamesKnownNodes(s);
  }

  lemma NamesKnownNodes(s: State)
    requires Sound(s)
    ensures forall h :: h in s.enrollments && !s.enrollments[h].reusable ==> s.enrollments[h].nodeID in s.nodes
  {
    forall h | h in s.enrollments ensures NamesNode(s, h) {
    }
  }

  lemma GoneStep(w: World, e: Event, id: string)
    requires Consistent(w) && Fresh(w, e.op)
    requires id in w.ids && id !in w.s.nodes
    ensures id in Next(w, e).ids && id !in Next(w, e).s.nodes
  {
    hide Step, RegisterNode;
    if !e.op.Register? {
      OtherStepNodes(w.s, e);
    } else if Enrols(w.s, Unix(e.now), e.op.request) {
      NamesKnownNodes(w.s);
      var n := EnrolStep(w.s, e);
    } else {
      IdleRegisterStep(w.s, e);
    }
  }

  /** Event j - 1 takes the run from its state at j - 1, which is consistent, to its state at j. */
  lemma RunStep(es: seq<Event>, j: nat)
    requires Possible(es) && 0 < j <= |es|
    ensures Consistent(After(es[..j - 1])) && Fresh(After(es[..j - 1]), es[j - 1].op)
    ensures After(es[..j]) == Next(After(es[..j - 1]), es[j - 1])
  {
    hide Step, Consistent, Noted, Next;
    assert es[..j][..j - 1] == es[..j - 1];
    PrefixPossible(es, j - 1);
    RunConsistent(es[..j - 1]);
  }

  /** A node that is gone never comes back, because its id is never drawn again. */
  lemma {:induction false} NodeStaysGone(es: seq<Event>, i: nat, j: nat, id: string)
    requires Possible(es) && i <= j <= |es|
    requires id in After(es[..i]).ids && id !in After(es[..i]).s.nodes
    ensures id in After(es[..j]).ids && id !in After(es[..j]).s.nodes
    decreases j
  {
    hide After, Next, Consistent, Fresh;
    if i < j {
      NodeStaysGone(es, i, j - 1, id);
      RunStep(es, j);
      GoneStep(After(es[..j - 1]), es[j - 1], id);
    }
  }

  /** A live receipt of a node that is still there survives any step. */
  lemma ReceiptSurvives(w: World, e: Event, k: Digest)
    requires Sound(w.s) && k in w.s.receipts
    requires w.s.receipts[k].expiresAt > Unix(e.now) && w.s.receipts[k].nodeID in w.s.nodes
    ensures k in Next(w, e).s.receipts && Next(w, e).s.receipts[k] == w.s.receipts[k]
  {
    hide Step, RegisterNode;
    if !e.op.Register? {
      OtherStepReceipts(w.s, e);
    } else if Enrols(w.s, Unix(e.now), e.op.request) {
      var n := EnrolStep(w.s, e);
    } else {
      IdleRegisterStep(w.s, e);
    }
  }

  lemma {:induction false} ReceiptPersists(es: seq<Event>, i: nat, j: nat, k: Digest)
    requires Possible(es) && i <= j < |es|
    requires k in After(es[..i]).s.receipts
    requires After(es[..i]).s.receipts[k].expiresAt > Unix(es[j].now)
    requires After(es[..i]).s.receipts[k].nodeID in After(es[..i]).ids
    requires After(es[..i]).s.receipts[k].nodeID in After(es[..j]).s.nodes
    ensures k in After(es[..j]).s.receipts && After(es[..j]).s.receipts[k] == After(es[..i]).s.receipts[k]
    decreases j
  {
    hide After, Next, Fresh;
    if i < j {
      var id := After(es[..i]).s.receipts[k].nodeID;
      IdentityPersists(es, i, j - 1);
      if id !in After(es[..j - 1]).s.nodes {
        NodeStaysGone(es, j - 1, j, id);
        assert false;
      }
      ReceiptPersists(es, i, j - 1, k);
      RunStep(es, j);
      assert Sound(After(es[..j - 1]).s);
      ReceiptSurvives(After(es[..j - 1]), es[j - 1], k);
    }
  }

  lemma ReplayStep(s: State, e: Event)
    requires e.op.Register? && e.op.request.protocol == 1 && e.op.request.token != ""
    requires Replays(s, Unix(e.now), e.op.request)
    ensures var receipt := s.receipts[ReceiptKey(e.op.request)];
      var n := s.nodes[receipt.nodeID];
      Step(s, e) == (s, Registered(receipt.nodeID, n.name, receipt.secret, n.interval))
  {
  }

  /**
   * Retrying a registration: after request i was given a new identity, repeating it with the same token and enrollment
   * id within ten minutes, while the node exists, answers with that identity and changes nothing.
   */
  lemma RetryReturnsOriginal(es: seq<Event>, i: nat, j: nat)
    requires Possible(es) && i < j < |es|
    requires es[i].op.Register? && es[j].op.Register?
    requires es[i].op.request.enrollmentID != "" && Enrols(After(es[..i]).s, Unix(es[i].now), es[i].op.request)
    requires es[j].op.request.protocol == 1
    requires es[j].op.request.token == es[i].op.request.token
    requires es[j].op.request.enrollmentID == es[i].op.request.enrollmentID
    requires Unix(es[j].now) < Unix(es[i].now) + 600
    requires AnswerAt(es, i).node in After(es[..j]).s.nodes
    ensures AnswerAt(es, i).Registered?
    ensures Step(After(es[..j]).s, es[j]) ==
      (After(es[..j]).s,
       Registered(AnswerAt(es, i).node, After(es[..j]).s.nodes[AnswerAt(es, i).node].name, AnswerAt(es, i).secret,
                  After(es[..j]).s.nodes[AnswerAt(es, i).node].interval))
  {
    hide After, Fresh, Step, RegisterNode;
    var k := ReceiptKey(es[i].op.request);
    RunStep(es, i + 1);
    var n := EnrolStep(After(es[..i]).s, es[i]);
    NextKeepsConsistent(After(es[..i]), es[i]);
    ReceiptPersists(es, i + 1, j, k);
    ReplayStep(After(es[..j]).s, es[j]);
  }

  // ---------- Secrets ----------

  lemma NamesToEnrol(s: State, e: Event)
    requires e.op.Register? && Enrols(s, Unix(e.now), e.op.request)
    ensures Sha256(e.op.request.token) in s.enrollments
  {
  }

  /** A step that hands out no secret for a node that stays leaves it alone, but may wipe a lapsed secret. */
  lemma UntouchedStep(w: World, e: Event, id: string)
    requires Sound(w.s) && Fresh(w, e.op) && id in w.s.nodes && id in w.ids && id in Next(w, e).s.nodes
    requires e.op.Register? && Enrols(w.s, Unix(e.now), e.op.request) ==>
      EnrolledNode(w.s, e.op.request, e.op.id) != id
    ensures Next(w, e).s.nodes[id] == w.s.nodes[id] || Next(w, e).s.nodes[id] == Tidied(w.s.nodes[id], Unix(e.now))
  {
    hide Step, RegisterNode, Tidied;
    if !e.op.Register? {
      OtherStepNodes(w.s, e);
    } else if Enrols(w.s, Unix(e.now), e.op.request) {
      var n := EnrolNext(w, e);
    } else {
      IdleRegisterStep(w.s, e);
    }
  }

  /** A step that leaves the node's current secret in place keeps both keys, except that a lapsed one may be wiped. */
  lemma UnrotatedStep(w: World, e: Event, id: string)
    requires id in w.s.nodes && w.s.nodes[id].registered
    requires Sound(w.s) && Fresh(w, e.op) && id in w.ids && w.s.nodes[id].agentSecret in w.secrets
    requires id in Next(w, e).s.nodes && Next(w, e).s.nodes[id].agentSecret == w.s.nodes[id].agentSecret
    ensures var n, n' := w.s.nodes[id], Next(w, e).s.nodes[id];
      && n'.registered
      && ((n'.previousSecret == n.previousSecret && n'.previousExpires == n.previousExpires)
          || (n'.previousSecret == "" && n.previousExpires < Unix(e.now)))
  {
    hide Next, Step, RegisterNode, Enrols, Replays;
    if e.op.Register? && Enrols(w.s, Unix(e.now), e.op.request) {
      NamesToEnrol(w.s, e);
      if EnrolledNode(w.s, e.op.request, e.op.id) == id {
        var n := EnrolNext(w, e);
        assert false;
      }
    }
    UntouchedStep(w, e, id);
  }

  /** The node keeps the secret handed out at event i until event j. */
  ghost predicate NotRotated(es: seq<Event>, i: nat, j: nat, id: string, secret: string)
    requires i < j <= |es|
  {
    forall k :: i < k <= j ==> id in After(es[..k]).s.nodes && After(es[..k]).s.nodes[id].agentSecret == secret
  }

  lemma {:induction false} PreviousKept(
    es: seq<Event>, i: nat, j: nat, id: string, secret: string, replaced: string, exp: int)
    requires Possible(es) && i < j < |es| && NotRotated(es, i, j, id, secret)
    requires var n := After(es[..i + 1]).s.nodes[id];
      n.registered && n.previousSecret == replaced && n.previousExpires == exp
    ensures var n := After(es[..j]).s.nodes[id];
      && n.registered
      && ((n.previousSecret == replaced && n.previousExpires == exp)
          || (n.previousSecret == "" && exp < Unix(es[j].now)))
    decreases j
  {
    hide After, Next, Fresh;
    if i + 1 < j {
      assert NotRotated(es, i, j - 1, id, secret);
      PreviousKept(es, i, j - 1, id, secret, replaced, exp);
      RunStep(es, j);
      var w := After(es[..j - 1]);
      assert NodeSound(w.s.nodes[id]) && id in w.ids && secret in w.secrets;
      UnrotatedStep(w, es[j - 1], id);
    }
  }

  /**
   * Rotation: when event i replaces a registered node's secret and nothing rotates it again, then at any later event
   * the new secret is accepted, and the replaced one is accepted exactly until five minutes after event i.
   */
  lemma ReplacedSecretWindow(es: seq<Event>, i: nat, j: nat, id: string)
    requires Possible(es) && i < j < |es| && es[i].op.Register?
    requires Enrols(After(es[..i]).s, Unix(es[i].now), es[i].op.request)
    requires id == EnrolledNode(After(es[..i]).s, es[i].op.request, es[i].op.id)
    requires id in After(es[..i]).s.nodes && After(es[..i]).s.nodes[id].registered
    requires NotRotated(es, i, j, id, es[i].op.secret)
    ensures SecretAccepted(After(es[..j]).s.nodes[id], es[i].op.secret, Unix(es[j].now))
    ensures SecretAccepted(After(es[..j]).s.nodes[id], After(es[..i]).s.nodes[id].agentSecret, Unix(es[j].now))
      <==> Unix(es[j].now) <= Unix(es[i].now) + 300
  {
    hide After, Step, RegisterNode, Replays;
    var w := After(es[..i]);
    var replaced := w.s.nodes[id].agentSecret;
    RunStep(es, i + 1);
    assert NodeSound(w.s.nodes[id]) && replaced in w.secrets;
    var n := EnrolStep(w.s, es[i]);
    PreviousKept(es, i, j, id, es[i].op.secret, replaced, Unix(es[i].now) + ROTATION_GRACE);
  }

  // ---------- Secrets after any number of rotations ----------

  /** Event k hands out a new secret for the node. */
  ghost predicate Rotates(es: seq<Event>, k: nat, id: string)
    requires k < |es|
  {
    && es[k].op.Register? && Enrols(After(es[..k]).s, Unix(es[k].now), es[k].op.request)
    && id == EnrolledNode(After(es[..k]).s, es[k].op.request, es[k].op.id)
  }

  /** The events strictly between i and j that do so, in order. */
  ghost function Rotations(es: seq<Event>, i: nat, j: nat, id: string): seq<nat>
    requires j <= |es|
  {
    if j <= i + 1 then []
    else Rotations(es, i, j - 1, id) + if Rotates(es, j - 1, id) then [j - 1] else []
  }

  ghost predicate Between(rs: seq<nat>, i: nat, j: nat) {
    forall x :: 0 <= x < |rs| ==> i < rs[x] < j
  }

  lemma SecretsGrow(w: World, e: Event)
    ensures w.secrets <= Next(w, e).secrets
  {
    hide Step;
  }

  /**
   * What became of a secret: still current while nothing rotated it; after one rotation, at t, kept as the replaced one
   * with its five minutes, or wiped after them; after a second one gone.
   */
  ghost predicate Aged(n: Node, secret: string, rotations: nat, t: int, now: int) {
    && n.registered
    && (rotations == 0 ==> n.agentSecret == secret)
    && (rotations > 0 ==> n.agentSecret != secret)
    && (rotations == 1 ==>
          || (n.previousSecret == secret && n.previousExpires == t + ROTATION_GRACE)
          || (n.previousSecret == "" && t + ROTATION_GRACE < now))
    && (rotations > 1 ==> n.previousSecret != secret)
  }

  lemma RekeyedAges(n: Node, secret: string, rotations: nat, t: int, now: int, sec: int, s': Secret, name: string)
    requires Aged(n, secret, rotations, t, now) && NodeSound(n) && secret != s' && secret != ""
    ensures Aged(Rekeyed(n, sec, s', name), secret, rotations + 1, if rotations == 0 then sec else t, sec)
  {
  }

  lemma TidiedAges(n: Node, secret: string, rotations: nat, t: int, now: int, sec: int)
    requires Aged(n, secret, rotations, t, now) && now <= sec && secret != ""
    ensures Aged(n, secret, rotations, t, sec) && Aged(Tidied(n, sec), secret, rotations, t, sec)
  {
  }

  /** When event rs[0] happened, if there is one. */
  ghost function FirstTime(es: seq<Event>, rs: seq<nat>): int
    requires forall x :: 0 <= x < |rs| ==> rs[x] < |es|
  {
    if rs == [] then 0 else Unix(es[rs[0]].now)
  }

  /** Rotation by event j - 1: the secret ages by one. */
  lemma RotationAges(w: World, e: Event, id: string, secret: string, rotations: nat, t: int, now: int)
    requires Consistent(w) && Fresh(w, e.op) && id in w.s.nodes && secret in w.secrets && secret != ""
    requires Aged(w.s.nodes[id], secret, rotations, t, now)
    requires e.op.Register? && Enrols(w.s, Unix(e.now), e.op.request)
    requires id == EnrolledNode(w.s, e.op.request, e.op.id) && id in w.ids
    ensures id in Next(w, e).s.nodes
    ensures Aged(Next(w, e).s.nodes[id], secret, rotations + 1, if rotations == 0 then Unix(e.now) else t, Unix(e.now))
  {
    hide Next, Step, Enrols, Aged, Rekeyed;
    assert NodeSound(w.s.nodes[id]);
    assert e.op.secret !in w.secrets && e.op.id !in w.ids;
    NamesToEnrol(w.s, e);
    var n := EnrolNext(w, e);
    RekeyedAges(w.s.nodes[id], secret, rotations, t, now, Unix(e.now), e.op.secret, e.op.request.name);
  }

  /** The node after the first j events, against the secret event i handed out. */
  ghost predicate AgedAt(es: seq<Event>, i: nat, j: nat, id: string)
    requires i < |es| && 0 < j <= |es|
  {
    var rs := Rotations(es, i, j, id);
    && es[i].op.Register? && Between(rs, i, j)
    && id in After(es[..j]).s.nodes && id in After(es[..j]).ids && es[i].op.secret in After(es[..j]).secrets
    && Aged(After(es[..j]).s.nodes[id], es[i].op.secret, |rs|, FirstTime(es, rs), Unix(es[j - 1].now))
  }

  lemma IssuedStep(es: seq<Event>, i: nat, id: string)
    requires Possible(es) && i < |es| && Rotates(es, i, id)
    ensures AgedAt(es, i, i + 1, id)
  {
    hide After, Next, Step, Enrols, Fresh;
    RunStep(es, i + 1);
    NamesToEnrol(After(es[..i]).s, es[i]);
    var n := EnrolNext(After(es[..i]), es[i]);
    NextKeepsConsistent(After(es[..i]), es[i]);
  }

  lemma StillThereBefore(es: seq<Event>, i: nat, j: nat, id: string)
    requires Possible(es) && i + 1 < j <= |es| && AgedAt(es, i, i + 1, id) && id in After(es[..j]).s.nodes
    ensures id in After(es[..j - 1]).s.nodes
  {
    hide After, Possible, Aged, Between, Rotations;
    IdentityPersists(es, i + 1, j - 1);
    if id !in After(es[..j - 1]).s.nodes {
      NodeStaysGone(es, j - 1, j, id);
    }
  }

  lemma SecretAgesStep(es: seq<Event>, i: nat, j: nat, id: string)
    requires Possible(es) && i + 1 < j <= |es| && AgedAt(es, i, j - 1, id) && id in After(es[..j]).s.nodes
    ensures AgedAt(es, i, j, id)
  {
    hide After, Next, Fresh, Aged, Enrols, EnrolledNode, Tidied;
    var w, e, secret := After(es[..j - 1]), es[j - 1], es[i].op.secret;
    var rs := Rotations(es, i, j - 1, id);
    RunStep(es, j);
    IdentityGrows(w, e);
    SecretsGrow(w, e);
    if Rotates(es, j - 1, id) {
      RotationAges(w, e, id, secret, |rs|, FirstTime(es, rs), Unix(es[j - 2].now));
      assert Rotations(es, i, j, id) == rs + [j - 1];
    } else {
      UntouchedStep(w, e, id);
      TidiedAges(w.s.nodes[id], secret, |rs|, FirstTime(es, rs), Unix(es[j - 2].now), Unix(e.now));
      assert Rotations(es, i, j, id) == rs + [];
    }
  }

  /** The secret event i handed out, at any later time, by the rotations since. */
  lemma {:induction false} SecretAges(es: seq<Event>, i: nat, j: nat, id: string)
    requires Possible(es) && i < j <= |es| && Rotates(es, i, id) && id in After(es[..j]).s.nodes
    ensures AgedAt(es, i, j, id)
    decreases j
  {
    hide After, Rotates, Possible, AgedAt;
    IssuedStep(es, i, id);
    if j > i + 1 {
      StillThereBefore(es, i, j, id);
      SecretAges(es, i, j - 1, id);
      SecretAgesStep(es, i, j, id);
    }
  }

  /**
   * The life of a secret: the one that event i handed out is accepted at a later event j, the node still being there,
   * if and only if nothing has rotated it since, or exactly one event has, at most five minutes ago.
   */
  lemma IssuedSecretWindow(es: seq<Event>, i: nat, j: nat, id: string)
    requires Possible(es) && i < j < |es| && Rotates(es, i, id) && id in After(es[..j]).s.nodes
    ensures Between(Rotations(es, i, j, id), i, j)
    ensures var rs := Rotations(es, i, j, id);
      SecretAccepted(After(es[..j]).s.nodes[id], es[i].op.secret, Unix(es[j].now))
      <==> rs == [] || (|rs| == 1 && Unix(es[j].now) <= Unix(es[rs[0]].now) + 300)
  {
    SecretAges(es, i, j, id);
    hide After, Rotations, Rotates;
    assert es[j - 1].now <= es[j].now;
  }

  /**
   * Retry and rotation together: a retry of registration i within its receipt's life, the node still being there,
   * always answers with the secret first handed out; that secret is accepted if and only if nothing has rotated it
   * since, or exactly one event has, at most five minutes ago.
   */
  lemma RetryAfterRotation(es: seq<Event>, i: nat, j: nat)
    requires Possible(es) && i < j < |es|
    requires es[i].op.Register? && es[j].op.Register?
    requires es[i].op.request.enrollmentID != "" && Enrols(After(es[..i]).s, Unix(es[i].now), es[i].op.request)
    requires es[j].op.request.protocol == 1
    requires es[j].op.request.token == es[i].op.request.token
    requires es[j].op.request.enrollmentID == es[i].op.request.enrollmentID
    requires Unix(es[j].now) < Unix(es[i].now) + 600
    requires AnswerAt(es, i).Registered? && AnswerAt(es, i).node in After(es[..j]).s.nodes
    ensures AnswerAt(es, j).Registered? && AnswerAt(es, j).node == AnswerAt(es, i).node
    ensures AnswerAt(es, j).secret == AnswerAt(es, i).secret
    ensures Between(Rotations(es, i, j, AnswerAt(es, i).node), i, j)
    ensures var rs := Rotations(es, i, j, AnswerAt(es, i).node);
      SecretAccepted(After(es[..j]).s.nodes[AnswerAt(es, i).node], AnswerAt(es, j).secret, Unix(es[j].now))
      <==> rs == [] || (|rs| == 1 && Unix(es[j].now) <= Unix(es[rs[0]].now) + 300)
  {
    RetryReturnsOriginal(es, i, j);
    EnrolAnswers(es, i);
    hide After, Step, RegisterNode, Replays, Enrols, Fresh, Rotations;
    IssuedSecretWindow(es, i, j, AnswerAt(es, i).node);
  }

  lemma EnrolAnswers(es: seq<Event>, i: nat)
    requires i < |es| && es[i].op.Register? && Enrols(After(es[..i]).s, Unix(es[i].now), es[i].op.request)
    ensures AnswerAt(es, i).Registered? && AnswerAt(es, i).secret == es[i].op.secret
    ensures Rotates(es, i, AnswerAt(es, i).node)
  {
    hide After, Step, RegisterNode, Replays, Enrols;
    NamesToEnrol(After(es[..i]).s, es[i]);
    var n := EnrolStep(After(es[..i]).s, es[i]);
  }

  // ---------- A retry that returns a retired secret ----------

  lemma AfterNext(es: seq<Event>, k: nat)
    requires k < |es|
    ensures After(es[..k + 1]) == Next(After(es[..k]), es[k])
  {
    hide Next;
    assert es[..k + 1][..k] == es[..k];
  }

  function JoinRequest(token: string, enrollmentID: string): Request {
    Request(PROTOCOL, token, "", enrollmentID)
  }

  /** Create a node, register it, re-enrol it, register it again, and 400 seconds later retry the first registration. */
  function RetriedTooLate(ids: seq<NodeId>, tokens: seq<Secret>, secrets: seq<Secret>): seq<Event>
    requires |ids| == 4 && |tokens| == 2 && |secrets| == 3
  {
    [Event(0, Create(ids[0], tokens[0], "a", "")),
     Event(0, Register(JoinRequest(tokens[0], "e"), ids[1], secrets[0])),
     Event(0, Reenroll(ids[0], tokens[1])),
     Event(0, Register(JoinRequest(tokens[1], ""), ids[2], secrets[1])),
     Event(400 * SECOND, Register(JoinRequest(tokens[0], "e"), ids[3], secrets[2]))]
  }

  lemma FirstRegistration(ids: seq<NodeId>, tokens: seq<Secret>, secrets: seq<Secret>)
    requires |ids| == 4 && |tokens| == 2 && |secrets| == 3
    ensures var es := RetriedTooLate(ids, tokens, secrets);
      var w := After(es[..2]);
      && w.ids == {ids[0], ids[1]} && w.tokens == {tokens[0]} && w.secrets == {secrets[0]}
      && w.s.nodes == map[ids[0] := Node("a", "", 2, Some(Sha256(secrets[0])), secrets[0], "", 0, true, 0)]
      && w.s.enrollments == map[]
      && w.s.receipts == map[ReceiptKey(JoinRequest(tokens[0], "e")) := Receipt(ids[0], secrets[0], 600)]
      && After(es[..1]).ids == {ids[0]} && After(es[..1]).secrets == {}
      && After(es[..0]) == START
  {
    var es := RetriedTooLate(ids, tokens, secrets);
    AfterNext(es, 0);
    AfterNext(es, 1);
    assert After(es[..1]).s.nodes == map[ids[0] := FRESH_NODE.(name := "a")];
    assert After(es[..1]).s.enrollments == map[Sha256(tokens[0]) := Enrollment(ids[0], "", TOKEN_LIFE, false, 0)];
    assert After(es[..1]).s.receipts == map[];
  }

  lemma Reenrolled(ids: seq<NodeId>, tokens: seq<Secret>, secrets: seq<Secret>)
    requires |ids| == 4 && |tokens| == 2 && |secrets| == 3
    ensures var es := RetriedTooLate(ids, tokens, secrets);
      var w := After(es[..3]);
      && w.ids == {ids[0], ids[1]} && w.secrets == {secrets[0]}
      && w.s.nodes == map[ids[0] := Node("a", "", 2, Some(Sha256(secrets[0])), secrets[0], "", 0, true, 0)]
      && w.s.enrollments == map[Sha256(tokens[1]) := Enrollment(ids[0], "", TOKEN_LIFE, false, 0)]
      && w.s.receipts == map[ReceiptKey(JoinRequest(tokens[0], "e")) := Receipt(ids[0], secrets[0], 600)]
  {
    hide After, Hex, RegisterNode;
    var es := RetriedTooLate(ids, tokens, secrets);
    FirstRegistration(ids, tokens, secrets);
    AfterNext(es, 2);
  }

  lemma SecondRegistration(ids: seq<NodeId>, tokens: seq<Secret>, secrets: seq<Secret>)
    requires |ids| == 4 && |tokens| == 2 && |secrets| == 3
    ensures var es := RetriedTooLate(ids, tokens, secrets);
      var w := After(es[..4]);
      && w.ids == {ids[0], ids[1], ids[2]} && w.secrets == {secrets[0], secrets[1]}
      && w.s.nodes == map[ids[0] := Node("a", "", 2, Some(Sha256(secrets[1])), secrets[1], secrets[0], 300,
                                        true, 0)]
      && w.s.receipts == map[ReceiptKey(JoinRequest(tokens[0], "e")) := Receipt(ids[0], secrets[0], 600)]
  {
    hide After, Hex, Next, Step;
    var es := RetriedTooLate(ids, tokens, secrets);
    Reenrolled(ids, tokens, secrets);
    AfterNext(es, 3);
    var n := EnrolNext(After(es[..3]), es[3]);
  }

  lemma RetriedTooLateFresh(ids: seq<NodeId>, tokens: seq<Secret>, secrets: seq<Secret>, i: nat)
    requires |ids| == 4 && Distinct(ids) && |tokens| == 2 && Distinct(tokens) && |secrets| == 3 && Distinct(secrets)
    requires i < 5
    ensures var es := RetriedTooLate(ids, tokens, secrets);
      Fresh(After(es[..i]), es[i].op)
  {
    hide After, Hex;
    assert tokens[0] != tokens[1];
    if i <= 2 {
      FirstRegistration(ids, tokens, secrets);
    } else if i == 3 {
      Reenrolled(ids, tokens, secrets);
    } else {
      SecondRegistration(ids, tokens, secrets);
    }
  }

  lemma RetriedTooLatePossible(ids: seq<NodeId>, tokens: seq<Secret>, secrets: seq<Secret>)
    requires |ids| == 4 && Distinct(ids) && |tokens| == 2 && Distinct(tokens) && |secrets| == 3 && Distinct(secrets)
    ensures Possible(RetriedTooLate(ids, tokens, secrets))
  {
    hide After, Hex, Fresh, Distinct;
    forall i: nat | i < 5
      ensures Fresh(After(RetriedTooLate(ids, tokens, secrets)[..i]), RetriedTooLate(ids, tokens, secrets)[i].op)
    {
      RetriedTooLateFresh(ids, tokens, secrets, i);
    }
  }

  /** The run above can happen, and the retry is answered with a secret that is no longer accepted. */
  lemma RetryCanReturnRetiredSecret(ids: seq<NodeId>, tokens: seq<Secret>, secrets: seq<Secret>)
    requires |ids| == 4 && Distinct(ids) && |tokens| == 2 && Distinct(tokens) && |secrets| == 3 && Distinct(secrets)
    ensures var es := RetriedTooLate(ids, tokens, secrets);
      && Possible(es)
      && AnswerAt(es, 4) == Registered(ids[0], "a", secrets[0], 2)
      && ids[0] in After(es[..4]).s.nodes
      && !SecretAccepted(After(es[..4]).s.nodes[ids[0]], secrets[0], Unix(es[4].now))
  {
    RetriedTooLatePossible(ids, tokens, secrets);
    hide After, Hex, Possible, Step;
    var es := RetriedTooLate(ids, tokens, secrets);
    SecondRegistration(ids, tokens, secrets);
    ReplayStep(After(es[..4]).s, es[4]);
    assert secrets[0] != secrets[1];
  }
}
