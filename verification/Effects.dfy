/**
 * What single requests to the identity state do, in the terms of whoever sends them: which entries appear, change and
 * go, with every limit written out, and that nothing else moves.
 */
module Effects {
  import opened Basics
  import opened MetricRing
  import H = History
  import opened Identity

  /** The two maps agree on every key but one. */
  ghost predicate SameElsewhere<K(!new), V(!new)>(m: map<K, V>, m': map<K, V>, key: K) {
    forall k :: k != key ==> (k in m <==> k in m') && (k in m ==> m'[k] == m[k])
  }

  /** Creating a node adds one unregistered node, one enrollment for 30 minutes and one empty history. */
  lemma CreateAdds(s: State, now: int, id: NodeId, token: Secret, name: string, group: string)
    requires |name| <= 80
    ensures var (s', a) := Step(s, Event(now, Create(id, token, name, group)));
      && a == Created(id, token)
      && id in s'.nodes && !s'.nodes[id].registered
      && s'.nodes[id].agentSecret == "" && s'.nodes[id].previousSecret == ""
      && s'.nodes[id].name == (if name == "" then "node-" + id[..6] else name)
      && s'.nodes[id].group == group && s'.nodes[id].interval == 0
      && Sha256(token) in s'.enrollments && s'.enrollments[Sha256(token)].nodeID == id
      && !s'.enrollments[Sha256(token)].reusable && s'.enrollments[Sha256(token)].expiresAt == Unix(now) + 1800
      && id in s'.runtime && s'.runtime[id].points == [] && s'.runtime[id].last.None?
      && SameElsewhere(s.nodes, s'.nodes, id) && SameElsewhere(s.runtime, s'.runtime, id)
      && SameElsewhere(s.enrollments, s'.enrollments, Sha256(token))
      && s'.receipts == s.receipts && s'.sessions == s.sessions
  {
  }

  lemma CreateRefuses(s: State, now: int, id: NodeId, token: Secret, name: string, group: string)
    requires |name| > 80
    ensures Step(s, Event(now, Create(id, token, name, group))) == (s, BadInput)
  {
  }

  /** Deleting a node removes it, its history and every enrollment that names it, and touches nothing else. */
  lemma DeleteRemoves(s: State, now: int, node: string)
    requires node in s.nodes
    ensures var (s', a) := Step(s, Event(now, Delete(node)));
      && a == Done
      && node !in s'.nodes && node !in s'.runtime
      && (forall h :: h in s'.enrollments ==> s'.enrollments[h].nodeID != node)
      && (forall h :: h in s.enrollments && s.enrollments[h].nodeID != node ==>
            h in s'.enrollments && s'.enrollments[h] == s.enrollments[h])
      && (forall h :: h in s'.enrollments ==> h in s.enrollments)
      && SameElsewhere(s.nodes, s'.nodes, node) && SameElsewhere(s.runtime, s'.runtime, node)
      && s'.receipts == s.receipts && s'.sessions == s.sessions
  {
  }

  lemma MissingNodeUntouched(s: State, now: int, node: string, token: Secret)
    requires node !in s.nodes
    ensures Step(s, Event(now, Delete(node))) == (s, NodeMissing)
    ensures Step(s, Event(now, Reenroll(node, token))) == (s, NodeMissing)
  {
  }

  /** Re-enrolling replaces the node's tokens by one for 30 minutes and leaves every node and credential alone. */
  lemma ReenrollReplaces(s: State, now: int, node: string, token: Secret)
    requires node in s.nodes
    ensures var (s', a) := Step(s, Event(now, Reenroll(node, token)));
      && a == TokenIssued(token)
      && Sha256(token) in s'.enrollments && s'.enrollments[Sha256(token)].nodeID == node
      && !s'.enrollments[Sha256(token)].reusable && s'.enrollments[Sha256(token)].expiresAt == Unix(now) + 1800
      && (forall h :: h in s'.enrollments && h != Sha256(token) ==>
            h in s.enrollments && s'.enrollments[h] == s.enrollments[h] && s.enrollments[h].nodeID != node)
      && (forall h :: h in s.enrollments && s.enrollments[h].nodeID != node && h != Sha256(token) ==>
            h in s'.enrollments)
      && s'.nodes == s.nodes && s'.runtime == s.runtime && s'.receipts == s.receipts && s'.sessions == s.sessions
  {
  }

  /** After issuing a common token there is no other; after revoking there is none; one-time tokens stay either way. */
  lemma CommonTokenReplaced(s: State, now: int, token: Secret, days: int, name: string)
    requires days in {0, 1, 7, 30}
    ensures var (s', a) := Step(s, Event(now, SetCommon(token, days, name)));
      && a == CommonIssued(token, if days == 0 then 0 else Unix(now) + 86400 * days)
      && Sha256(token) in s'.enrollments
      && (forall h :: h in s'.enrollments && s'.enrollments[h].reusable ==> h == Sha256(token))
      && (forall h :: h in s.enrollments && !s.enrollments[h].reusable && h != Sha256(token) ==>
            h in s'.enrollments && s'.enrollments[h] == s.enrollments[h])
      && s'.nodes == s.nodes && s'.runtime == s.runtime && s'.receipts == s.receipts && s'.sessions == s.sessions
  {
  }

  lemma CommonTokenRevoked(s: State, now: int)
    ensures var (s', a) := Step(s, Event(now, RevokeCommon));
      && a == Done
      && (forall h :: h in s'.enrollments ==> !s'.enrollments[h].reusable && h in s.enrollments)
      && (forall h :: h in s.enrollments && !s.enrollments[h].reusable ==>
            h in s'.enrollments && s'.enrollments[h] == s.enrollments[h])
      && s'.nodes == s.nodes && s'.runtime == s.runtime && s'.receipts == s.receipts && s'.sessions == s.sessions
  {
  }

  /** Other terms than 0, 1, 7 and 30 days are refused. */
  lemma CommonTokenTerms(s: State, now: int, token: Secret, days: int, name: string)
    requires days !in {0, 1, 7, 30}
    ensures Step(s, Event(now, SetCommon(token, days, name))) == (s, BadInput)
  {
  }

  /** Registration refusals that come before any token is looked at. */
  lemma RegistrationRefusals(s: State, now: int, r: Request, id: NodeId, secret: Secret)
    ensures var result := Step(s, Event(now, Register(r, id, secret)));
      && (r.protocol == 0 ==> result == (s, MissingProtocol))
      && (r.protocol < 0 ==> result == (s, AgentTooOld))
      && (r.protocol > 1 ==> result == (s, ServerTooOld))
      && (r.protocol == 1 && r.token == "" ==> result == (s, InvalidToken))
  {
    hide Replays, Enrol;
  }

  lemma RegistrationTouchesNode(s: State, now: int, r: Request, id: NodeId, secret: Secret)
    ensures var (s', a) := Step(s, Event(now, Register(r, id, secret)));
      && (a.Registered? ==> SameElsewhere(s.nodes, s'.nodes, a.node) && SameElsewhere(s.runtime, s'.runtime, a.node))
      && (!a.Registered? ==> s'.nodes == s.nodes && s'.runtime == s.runtime && s'.receipts == s.receipts)
      && s'.sessions == s.sessions
  {
    hide Rekeyed, JoinedNode, Hex;
  }

  lemma RegistrationTouchesToken(s: State, now: int, r: Request, id: NodeId, secret: Secret)
    ensures var s' := Step(s, Event(now, Register(r, id, secret))).0;
      && SameElsewhere(s.enrollments, s'.enrollments, Sha256(r.token))
      && SameElsewhere(s.receipts, s'.receipts, Sha256(r.token + "|" + r.enrollmentID))
  {
    hide Rekeyed, JoinedNode, Hex;
  }

  lemma RegistrationKeepsHistory(s: State, now: int, r: Request, id: NodeId, secret: Secret)
    ensures var (s', a) := Step(s, Event(now, Register(r, id, secret)));
      a.Registered? && a.node in s.runtime && a.node != id ==> s'.runtime == s.runtime
  {
    hide Rekeyed, JoinedNode, Hex;
  }

  /**
   * A registration concerns one node and one token: every other node, history, enrollment and receipt stays, as do all
   * sessions; and the history of a node that was there already stays too.
   */
  lemma RegistrationTouchesOnly(s: State, now: int, r: Request, id: NodeId, secret: Secret)
    ensures var (s', a) := Step(s, Event(now, Register(r, id, secret)));
      && (a.Registered? ==> SameElsewhere(s.nodes, s'.nodes, a.node) && SameElsewhere(s.runtime, s'.runtime, a.node))
      && (a.Registered? && a.node in s.runtime && a.node != id ==> s'.runtime == s.runtime)
      && (!a.Registered? ==> s'.nodes == s.nodes && s'.runtime == s.runtime && s'.receipts == s.receipts)
      && SameElsewhere(s.enrollments, s'.enrollments, Sha256(r.token))
      && SameElsewhere(s.receipts, s'.receipts, Sha256(r.token + "|" + r.enrollmentID))
      && s'.sessions == s.sessions
  {
    hide *;
    RegistrationTouchesNode(s, now, r, id, secret);
    RegistrationTouchesToken(s, now, r, id, secret);
    RegistrationKeepsHistory(s, now, r, id, secret);
  }

  /** A heartbeat counts exactly under the node's current secret, or its replaced one through its last second. */
  lemma HeartbeatNeedsSecret(s: State, now: int, node: string, key: string, sample: MetricPoint)
    requires NodesSound(s)
    ensures var (s', a) := Step(s, Event(now, Heartbeat(node, key, sample)));
      && (a == Done <==>
            && node in s.nodes && key != ""
            && (|| key == s.nodes[node].agentSecret
                || (key == s.nodes[node].previousSecret && s.nodes[node].previousExpires >= Unix(now))))
      && (a != Done ==> a == Unauthorized && s' == s)
      && SameElsewhere(s.runtime, s'.runtime, node)
      && s' == s.(runtime := s'.runtime)
  {
    if node in s.nodes {
      assert NodeSound(s.nodes[node]);
    }
    hide H.Beat;
  }

  /** What it adds to the node's history: at most one point per five seconds, with the sample's values. */
  lemma HeartbeatAddsPoint(s: State, now: int, node: string, key: string, sample: MetricPoint)
    requires node in s.runtime && Step(s, Event(now, Heartbeat(node, key, sample))).1 == Done
    ensures var h, s' := s.runtime[node], Step(s, Event(now, Heartbeat(node, key, sample))).0;
      && node in s'.runtime
      && (h.last.None? || now - h.last.value >= 5_000_000_000 ==>
            var points := s'.runtime[node].points;
            && s'.runtime[node].last == Some(now) && points != []
            && points[|points| - 1] == MetricPoint(
                 Unix(now), sample.cpu, sample.memory, sample.disk, sample.temp, sample.load1,
                 sample.netIn, sample.netOut, sample.tempValid))
      && (h.last.Some? && now - h.last.value < 5_000_000_000 ==> s'.runtime[node] == h)
  {
  }

  /** A sweep leaves nothing stale behind, and everything else as it was. */
  lemma SweepExactly(s: State, now: int)
    ensures var s' := Step(s, Event(now, Identity.Maintenance)).0;
      && (forall h :: h in s'.enrollments <==>
            h in s.enrollments && !(0 < s.enrollments[h].expiresAt < Unix(now)))
      && (forall h :: h in s'.enrollments ==> s'.enrollments[h] == s.enrollments[h])
      && (forall k :: k in s'.receipts <==> k in s.receipts && s.receipts[k].expiresAt >= Unix(now))
      && (forall k :: k in s'.receipts ==> s'.receipts[k] == s.receipts[k])
      && (forall k :: k in s'.sessions <==> k in s.sessions && s.sessions[k].expires >= now)
      && (forall k :: k in s'.sessions ==> s'.sessions[k] == s.sessions[k])
  {
  }

  /** The same for nodes and histories: lapsed secrets are wiped, points over an hour old are dropped, in order. */
  lemma SweepNodesExactly(s: State, now: int)
    ensures var s' := Step(s, Event(now, Identity.Maintenance)).0;
      && s'.nodes.Keys == s.nodes.Keys && s'.runtime.Keys == s.runtime.Keys
      && (forall id :: id in s.nodes ==>
            var n := s.nodes[id];
            s'.nodes[id] == if n.previousSecret != "" && 0 < n.previousExpires < Unix(now)
                            then n.(previousSecret := "", previousExpires := 0) else n)
      && (forall id :: id in s.runtime ==>
            && s'.runtime[id].last == s.runtime[id].last
            && Subsequence(s'.runtime[id].points, s.runtime[id].points)
            && forall p :: p in s'.runtime[id].points <==> p in s.runtime[id].points && p.t >= Unix(now) - 3600)
  {
    hide Newer;
    forall id | id in s.runtime
      ensures var h := s.runtime[id];
        && Subsequence(H.Tick(h, now).points, h.points)
        && forall p :: p in H.Tick(h, now).points <==> p in h.points && p.t >= Unix(now) - 3600
    {
      NewerExactly(s.runtime[id].points, Unix(now) - 3600);
    }
  }
}
