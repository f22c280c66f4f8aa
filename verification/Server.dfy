/**
 * The handlers as they run: one object whose maps are updated step by step. Every method is proved to make exactly the
 * step that Identity defines, so the theorems about runs of steps are theorems about runs of these methods.
 */
module Server {
  import opened Basics
  import opened MetricRing
  import H = History
  import opened Identity

  class App {
    var nodes: map<string, Node>
    var enrollments: map<Digest, Enrollment>
    var receipts: map<Digest, Receipt>
    var sessions: map<string, Session>
    var runtime: map<string, H.HistoryState>

    ghost function View(): State
      reads this
    {
      State(nodes, enrollments, receipts, sessions, runtime)
    }

    constructor ()
      ensures View() == INITIAL
    {
      nodes, enrollments, receipts, sessions, runtime := map[], map[], map[], map[], map[];
    }

    method Create(now: int, id: NodeId, token: Secret, name: string, group: string) returns (a: Answer)
      modifies this
      ensures (View(), a) == CreateNode(old(View()), Unix(now), id, token, name, group)
    {
      if |name| > 80 {
        return BadInput;
      }
      var shown := name;
      if shown == "" {
        shown := "node-" + id[..6];
      }
      nodes := nodes[id := Node(shown, group, 0, None, "", "", 0, false, Unix(now))];
      enrollments := enrollments[Sha256(token) := Enrollment(id, "", Unix(now) + TOKEN_LIFE, false, 0)];
      runtime := runtime[id := H.EMPTY];
      return Created(id, token);
    }

    /** The loop that re-enrolling and deleting share: drop every enrollment that names the node. */
    method DropEnrollmentsOf(node: string)
      modifies this`enrollments
      ensures enrollments == WithoutNode(old(enrollments), node)
    {
      var keys := enrollments.Keys;
      while keys != {}
        invariant enrollments == map h | h in old(enrollments)
                    && (h in keys || old(enrollments)[h].nodeID != node) :: old(enrollments)[h]
      {
        var k :| k in keys;
        keys := keys - {k};
        if enrollments[k].nodeID == node {
          enrollments := enrollments - {k};
        }
      }
    }

    /** The loop that issuing and revoking the common token share. */
    method DropReusable()
      modifies this`enrollments
      ensures enrollments == WithoutReusable(old(enrollments))
    {
      var keys := enrollments.Keys;
      while keys != {}
        invariant enrollments == map h | h in old(enrollments)
                    && (h in keys || !old(enrollments)[h].reusable) :: old(enrollments)[h]
      {
        var k :| k in keys;
        keys := keys - {k};
        if enrollments[k].reusable {
          enrollments := enrollments - {k};
        }
      }
    }

    method Reenroll(now: int, node: string, token: Secret) returns (a: Answer)
      modifies this
      ensures (View(), a) == ReenrollNode(old(View()), Unix(now), node, token)
    {
      if node !in nodes {
        return NodeMissing;
      }
      DropEnrollmentsOf(node);
      enrollments := enrollments[Sha256(token) := Enrollment(node, "", Unix(now) + TOKEN_LIFE, false, 0)];
      return TokenIssued(token);
    }

    method Delete(node: string) returns (a: Answer)
      modifies this
      ensures (View(), a) == DeleteNode(old(View()), node)
    {
      if node !in nodes {
        return NodeMissing;
      }
      nodes := nodes - {node};
      runtime := runtime - {node};
      DropEnrollmentsOf(node);
      return Done;
    }

    method SetCommon(now: int, token: Secret, days: int, name: string) returns (a: Answer)
      modifies this
      ensures (View(), a) == SetCommonEnrollment(old(View()), Unix(now), token, days, name)
    {
      if days != 0 && days != 1 && days != 7 && days != 30 {
        return BadInput;
      }
      var exp := 0;
      if days > 0 {
        exp := Unix(now + days * 24 * 3600 * SECOND);
      }
      DropReusable();
      enrollments := enrollments[Sha256(token) := Enrollment("", name, exp, true, 0)];
      return CommonIssued(token, exp);
    }

    method RevokeCommon() returns (a: Answer)
      modifies this
      ensures (View(), a) == RevokeCommonEnrollment(old(View()))
    {
      DropReusable();
      return Done;
    }

    /** The common token's status; map iteration stops at the first reusable enrollment, and there is at most one. */
    method CommonStatus(now: int) returns (a: Answer)
      requires Sound(View())
      ensures a == CommonAnswer(View(), Unix(now))
    {
      var keys := enrollments.Keys;
      while keys != {}
        invariant keys <= enrollments.Keys
        invariant forall h :: h in enrollments && h !in keys ==> !enrollments[h].reusable
      {
        var k :| k in keys;
        keys := keys - {k};
        if enrollments[k].reusable {
          var e := enrollments[k];
          assert Competing(e, e);
          assert CommonEnrollment(View()) == Some(e);
          return Common(e.expiresAt == 0 || e.expiresAt > Unix(now), e.expiresAt, e.joined);
        }
      }
      assert CommonEnrollment(View()) == None;
      return Common(false, 0, 0);
    }

    method Register(now: int, r: Request, freshId: NodeId, secret: Secret) returns (a: Answer)
      modifies this
      ensures (View(), a) == RegisterNode(old(View()), Unix(now), r, freshId, secret)
    {
      if r.protocol == 0 {
        return MissingProtocol;
      }
      if r.protocol < PROTOCOL {
        return AgentTooOld;
      }
      if r.protocol > PROTOCOL {
        return ServerTooOld;
      }
      if r.token == "" {
        return InvalidToken;
      }
      var sec := Unix(now);
      if r.enrollmentID != "" {
        var key := ReceiptKey(r);
        if key in receipts && receipts[key].expiresAt > sec {
          var rec := receipts[key];
          if rec.nodeID in nodes {
            var n := nodes[rec.nodeID];
            return Registered(rec.nodeID, n.name, rec.secret, n.interval);
          }
        }
      }
      var th := Sha256(r.token);
      if th !in enrollments || (enrollments[th].expiresAt > 0 && sec > enrollments[th].expiresAt) {
        return InvalidToken;
      }
      var e := enrollments[th];
      if e.reusable {
        var name := r.name;
        if name == "" {
          name := e.name;
        }
        if name == "" {
          name := "node-" + freshId[..6];
        }
        runtime := runtime[freshId := H.EMPTY];
        enrollments := enrollments[th := e.(joined := e.joined + 1)];
        a := HandOut(now, r, e, freshId, Node(name, "默认分组", 2, None, "", "", 0, false, sec), secret);
      } else {
        if e.nodeID !in nodes {
          enrollments := enrollments - {th};
          return EnrolledNodeMissing;
        }
        a := HandOut(now, r, e, e.nodeID, nodes[e.nodeID], secret);
      }
    }

    /** The common end of both branches of a registration: a new secret for node id, and the bookkeeping around it. */
    method HandOut(now: int, r: Request, e: Enrollment, id: string, n0: Node, secret: Secret) returns (a: Answer)
      modifies this
      ensures var n := Rekeyed(n0, Unix(now), secret, r.name);
        && nodes == old(nodes)[id := n]
        && enrollments == (if e.reusable then old(enrollments) else old(enrollments) - {Sha256(r.token)})
        && runtime == (if id in old(runtime) then old(runtime) else old(runtime)[id := H.EMPTY])
        && receipts == (if r.enrollmentID == "" then old(receipts)
                        else old(receipts)[ReceiptKey(r) := Receipt(id, secret, Unix(now) + RECEIPT_LIFE)])
        && sessions == old(sessions)
        && a == Registered(id, n.name, secret, n.interval)
    {
      var n := n0;
      if n.registered && n.agentSecret != "" {
        n := n.(previousSecret := n.agentSecret, previousExpires := Unix(now + 300 * SECOND));
      }
      n := n.(secretHash := Some(Sha256(secret)), agentSecret := secret);
      if r.name != "" {
        n := n.(name := r.name);
      }
      n := n.(registered := true);
      if n.interval == 0 {
        n := n.(interval := 2);
      }
      nodes := nodes[id := n];
      if !e.reusable {
        enrollments := enrollments - {Sha256(r.token)};
      }
      if id !in runtime {
        runtime := runtime[id := H.EMPTY];
      }
      if r.enrollmentID != "" {
        receipts := receipts[ReceiptKey(r) := Receipt(id, secret, Unix(now + 600 * SECOND))];
      }
      return Registered(id, n.name, secret, n.interval);
    }

    method Login(now: int, sid: string, csrf: string)
      modifies this`sessions
      ensures View() == Step(old(View()), Event(now, Identity.Login(sid, csrf))).0
    {
      sessions := sessions[sid := Session(csrf, now + 12 * 3600 * SECOND)];
    }

    method Logout(now: int, sid: string)
      modifies this`sessions
      ensures View() == Step(old(View()), Event(now, Identity.Logout(sid))).0
    {
      sessions := sessions - {sid};
    }

    method GetSession(now: int, sid: string) returns (session: Option<Session>)
      ensures session == LiveSession(View(), sid, now)
    {
      if sid !in sessions || now > sessions[sid].expires {
        return None;
      }
      return Some(sessions[sid]);
    }

    /** Key check of authAgentDetailed, then the history part of agentHeartbeat. */
    method Heartbeat(now: int, node: string, key: string, sample: MetricPoint) returns (a: Answer)
      modifies this`runtime
      ensures (View(), a) == BeatNode(old(View()), now, node, key, sample)
    {
      if node !in nodes || !nodes[node].registered {
        return Unauthorized;
      }
      var n := nodes[node];
      var accepted := key != "" && key == n.agentSecret;
      if !accepted && n.previousSecret != "" && n.previousExpires >= Unix(now) {
        accepted := key != "" && key == n.previousSecret;
      }
      if !accepted {
        return Unauthorized;
      }
      if node !in runtime {
        runtime := runtime[node := H.EMPTY];
      }
      runtime := runtime[node := H.Beat(runtime[node], now, sample)];
      assert runtime == old(runtime)[node := runtime[node]];
      return Done;
    }

    method PruneHistories(now: int)
      modifies this`runtime
      ensures runtime == map id | id in old(runtime) :: H.Tick(old(runtime)[id], now)
    {
      hide H.Tick;
      var keys := runtime.Keys;
      while keys != {}
        invariant keys <= old(runtime).Keys
        invariant runtime == map id | id in old(runtime) ::
                    if id in keys then old(runtime)[id] else H.Tick(old(runtime)[id], now)
      {
        var k :| k in keys;
        keys := keys - {k};
        runtime := runtime[k := H.Tick(runtime[k], now)];
      }
    }

    method DropExpiredEnrollments(sec: int)
      modifies this`enrollments
      ensures enrollments == map h | h in old(enrollments)
                && !TokenExpired(old(enrollments)[h], sec) :: old(enrollments)[h]
    {
      var keys := enrollments.Keys;
      while keys != {}
        invariant enrollments == map h | h in old(enrollments)
                    && (h in keys || !TokenExpired(old(enrollments)[h], sec)) :: old(enrollments)[h]
      {
        var k :| k in keys;
        keys := keys - {k};
        if enrollments[k].expiresAt > 0 && sec > enrollments[k].expiresAt {
          enrollments := enrollments - {k};
        }
      }
    }

    method DropExpiredReceipts(sec: int)
      modifies this`receipts
      ensures receipts == map h | h in old(receipts) && !(sec > old(receipts)[h].expiresAt) :: old(receipts)[h]
    {
      var keys := receipts.Keys;
      while keys != {}
        invariant receipts == map h | h in old(receipts)
                    && (h in keys || !(sec > old(receipts)[h].expiresAt)) :: old(receipts)[h]
      {
        var k :| k in keys;
        keys := keys - {k};
        if sec > receipts[k].expiresAt {
          receipts := receipts - {k};
        }
      }
    }

    method WipeLapsedSecrets(sec: int)
      modifies this`nodes
      ensures nodes == map id | id in old(nodes) :: Tidied(old(nodes)[id], sec)
    {
      var keys := nodes.Keys;
      while keys != {}
        invariant keys <= old(nodes).Keys
        invariant nodes == map id | id in old(nodes) ::
                    if id in keys then old(nodes)[id] else Tidied(old(nodes)[id], sec)
      {
        var k :| k in keys;
        keys := keys - {k};
        var n := nodes[k];
        if n.previousSecret != "" && n.previousExpires > 0 && sec > n.previousExpires {
          nodes := nodes[k := n.(previousSecret := "", previousExpires := 0)];
        }
      }
    }

    method DropExpiredSessions(now: int)
      modifies this`sessions
      ensures sessions == map k | k in old(sessions) && !(now > old(sessions)[k].expires) :: old(sessions)[k]
    {
      var keys := sessions.Keys;
      while keys != {}
        invariant sessions == map h | h in old(sessions)
                    && (h in keys || !(now > old(sessions)[h].expires)) :: old(sessions)[h]
      {
        var k :| k in keys;
        keys := keys - {k};
        if now > sessions[k].expires {
          sessions := sessions - {k};
        }
      }
    }

    /** One iteration of the maintenance loop. */
    method Maintain(now: int)
      modifies this
      ensures View() == Maintained(old(View()), now)
    {
      hide Tidied, TokenExpired, H.Tick;
      PruneHistories(now);
      DropExpiredEnrollments(Unix(now));
      DropExpiredReceipts(Unix(now));
      WipeLapsedSecrets(Unix(now));
      DropExpiredSessions(now);
    }
  }
}
