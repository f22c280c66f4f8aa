/**
 * How long things last, over whole runs and in the numbers a caller knows: one-time and common tokens, receipts,
 * sessions, and what is left of a deleted node.
 */
module TokenLife {
  import opened Basics
  import opened Identity
  import opened IdentityRuns

  // ---------- What requests other than registrations do to enrollments ----------

  /** The request issues a token. */
  predicate Issues(op: Op) {
    op.Create? || op.Reenroll? || op.SetCommon?
  }

  /** The request drops this enrollment. */
  predicate Drops(e: Event, x: Enrollment) {
    || ((e.op.Delete? || e.op.Reenroll?) && x.nodeID == e.op.node)
    || ((e.op.SetCommon? || e.op.RevokeCommon?) && x.reusable)
    || (e.op.Maintenance? && 0 < x.expiresAt < Unix(e.now))
  }

  lemma OtherKept(s: State, e: Event)
    requires !e.op.Register?
    ensures var s' := Step(s, e).0;
      forall h :: h in s'.enrollments && !(Issues(e.op) && h == Sha256(e.op.token)) ==>
        h in s.enrollments && s'.enrollments[h] == s.enrollments[h]
  {
    hide RegisterNode, Tidied, SecretAccepted, CommonAnswer, LiveSession;
  }

  lemma OtherDropped(s: State, e: Event)
    requires !e.op.Register?
    ensures var s' := Step(s, e).0;
      forall h :: h in s.enrollments && h !in s'.enrollments ==> Drops(e, s.enrollments[h])
  {
    hide RegisterNode, Tidied, SecretAccepted, CommonAnswer, LiveSession;
  }

  lemma OtherReceipts(s: State, e: Event)
    requires !e.op.Register?
    ensures var s' := Step(s, e).0;
      forall k :: k in s'.receipts ==> k in s.receipts && s'.receipts[k] == s.receipts[k]
  {
    hide RegisterNode, Tidied, SecretAccepted, CommonAnswer, LiveSession;
  }

  lemma OtherIssued(s: State, e: Event)
    requires !e.op.Register?
    ensures var s' := Step(s, e).0;
      && (e.op.SetCommon? && !Step(s, e).1.CommonIssued? ==> s' == s)
      && ((e.op.Delete? || e.op.Reenroll?) && e.op.node !in s.nodes ==> s' == s)
      && (e.op.Create? || e.op.Reenroll? ==> IssuesOneTime(s, s', Sha256(e.op.token)))
  {
    hide RegisterNode, Tidied, SecretAccepted, CommonAnswer, LiveSession;
  }

  ghost predicate IssuesOneTime(s: State, s': State, h: Digest) {
    h !in s.enrollments && h in s'.enrollments ==> !s'.enrollments[h].reusable
  }

  lemma OtherEnrollments(s: State, e: Event)
    requires !e.op.Register?
    ensures var s' := Step(s, e).0;
      && (forall h :: h in s'.enrollments && !(Issues(e.op) && h == Sha256(e.op.token)) ==>
            h in s.enrollments && s'.enrollments[h] == s.enrollments[h])
      && (forall h :: h in s.enrollments && h !in s'.enrollments ==> Drops(e, s.enrollments[h]))
      && (e.op.SetCommon? && !Step(s, e).1.CommonIssued? ==> s' == s)
      && ((e.op.Delete? || e.op.Reenroll?) && e.op.node !in s.nodes ==> s' == s)
      && (e.op.Create? || e.op.Reenroll? ==> IssuesOneTime(s, s', Sha256(e.op.token)))
      && (forall k :: k in s'.receipts ==> k in s.receipts && s'.receipts[k] == s.receipts[k])
  {
    hide Step, Drops;
    OtherKept(s, e);
    OtherDropped(s, e);
    OtherReceipts(s, e);
    OtherIssued(s, e);
  }

  /** What the run remembers of a request other than a registration. */
  lemma OtherNoted(w: World, e: Event)
    requires !e.op.Register?
    ensures var w' := Next(w, e);
      && w'.s == Step(w.s, e).0 && w'.identity == w.identity && w.ids <= w'.ids
      && w'.tokens == (if Issues(e.op) then w.tokens + {e.op.token} else w.tokens)
      && w'.oneTime == (if e.op.Create? || e.op.Reenroll? then w.oneTime + {e.op.token} else w.oneTime)
  {
    hide Step;
  }

  lemma OtherNodes(s: State, e: Event, node: string)
    requires !e.op.Register? && node in s.nodes && !(e.op.Delete? && e.op.node == node)
    ensures node in Step(s, e).0.nodes
  {
    hide RegisterNode, Tidied;
  }

  /** A registration that hands out no identity changes nothing but what was drawn. */
  lemma IdleNoted(w: World, e: Event)
    requires Consistent(w) && e.op.Register? && !Enrols(w.s, Unix(e.now), e.op.request)
    ensures var w' := Next(w, e);
      && w'.s == w.s && w'.tokens == w.tokens && w'.oneTime == w.oneTime && w.ids <= w'.ids
      && w'.identity == (if Step(w.s, e).1.Registered? && e.op.request.token in w.oneTime
                            && e.op.request.token !in w.identity
                         then w.identity[e.op.request.token := (Step(w.s, e).1.node, Step(w.s, e).1.secret)]
                         else w.identity)
  {
    IdleRegisterStep(w.s, e);
    hide Step, Enrols;
  }

  lemma FreshToken(w: World, e: Event, token: string)
    requires Fresh(w, e.op) && Issues(e.op) && token in w.tokens
    ensures Sha256(token) != Sha256(e.op.token)
  {
  }

  lemma AnswerStep(es: seq<Event>, j: nat)
    requires j < |es|
    ensures AnswerAt(es, j) == Step(After(es[..j]).s, es[j]).1
  {
  }

  lemma ClockGoesOn(es: seq<Event>, i: nat, j: nat)
    requires Possible(es) && i <= j < |es|
    ensures Unix(es[i].now) <= Unix(es[j].now)
    ensures 0 <= es[i].now ==> 0 <= Unix(es[i].now)
  {
    hide Fresh, After;
  }

  // ---------- One-time tokens ----------

  /** Event i answers with a one-time token for the node. */
  ghost predicate IssuedFor(es: seq<Event>, i: nat, token: string, node: string)
    requires i < |es|
  {
    || (es[i].op.Create? && AnswerAt(es, i) == Created(node, token))
    || (es[i].op.Reenroll? && es[i].op.node == node && AnswerAt(es, i) == TokenIssued(token))
  }

  /** Event k does not use the token, replace the node's tokens or delete the node. */
  ghost predicate LeavesToken(es: seq<Event>, k: nat, token: string, node: string)
    requires k < |es|
  {
    && !(es[k].op.Register? && es[k].op.request.token == token && AnswerAt(es, k).Registered?)
    && !(es[k].op.Reenroll? && es[k].op.node == node)
    && !(es[k].op.Delete? && es[k].op.node == node)
  }

  /** The token is stored for its node until exp, or has been dropped after that, and never led to an identity. */
  ghost predicate TokenAt(w: World, token: string, node: string, exp: int, now: int) {
    && node in w.s.nodes && node in w.ids && token in w.oneTime && token !in w.identity
    && (Sha256(token) in w.s.enrollments ==> w.s.enrollments[Sha256(token)] == Enrollment(node, "", exp, false, 0))
    && (Sha256(token) !in w.s.enrollments ==> exp < now)
  }

  lemma IssuedStep(es: seq<Event>, i: nat, token: string, node: string)
    requires Possible(es) && i < |es| && IssuedFor(es, i, token, node)
    ensures TokenAt(After(es[..i + 1]), token, node, Unix(es[i].now) + 1800, Unix(es[i].now))
  {
    hide After, RegisterNode;
    RunStep(es, i + 1);
  }

  lemma TokenKeptByRegister(w: World, e: Event, token: string, node: string, exp: int, now: int)
    requires Consistent(w) && Fresh(w, e.op) && e.op.Register? && TokenAt(w, token, node, exp, now)
    requires e.op.request.token == token ==> !Step(w.s, e).1.Registered?
    requires now <= Unix(e.now)
    ensures TokenAt(Next(w, e), token, node, exp, Unix(e.now))
  {
    hide Next, Step, Enrols;
    if Enrols(w.s, Unix(e.now), e.op.request) {
      NamesToEnrol(w.s, e);
      var n := EnrolNext(w, e);
    } else {
      IdleNoted(w, e);
    }
  }

  lemma TokenKeptByOthers(w: World, e: Event, token: string, node: string, exp: int, now: int)
    requires Consistent(w) && Fresh(w, e.op) && !e.op.Register? && TokenAt(w, token, node, exp, now)
    requires !(e.op.Reenroll? && e.op.node == node) && !(e.op.Delete? && e.op.node == node)
    requires now <= Unix(e.now)
    ensures TokenAt(Next(w, e), token, node, exp, Unix(e.now))
  {
    hide Step, Next, Sound;
    OtherEnrollments(w.s, e);
    OtherNoted(w, e);
    OtherNodes(w.s, e, node);
    if Issues(e.op) {
      FreshToken(w, e, token);
    }
  }

  lemma {:induction false} TokenKept(es: seq<Event>, i: nat, j: nat, token: string, node: string)
    requires Possible(es) && i < j <= |es| && IssuedFor(es, i, token, node)
    requires forall k :: i < k < j ==> LeavesToken(es, k, token, node)
    ensures TokenAt(After(es[..j]), token, node, Unix(es[i].now) + 1800, Unix(es[j - 1].now))
    decreases j
  {
    hide After, Next, Step, Fresh, TokenAt, IssuedFor;
    if j == i + 1 {
      IssuedStep(es, i, token, node);
    } else {
      TokenKept(es, i, j - 1, token, node);
      RunStep(es, j);
      assert LeavesToken(es, j - 1, token, node);
      var w, exp, now := After(es[..j - 1]), Unix(es[i].now) + 1800, Unix(es[j - 2].now);
      if es[j - 1].op.Register? {
        TokenKeptByRegister(w, es[j - 1], token, node, exp, now);
      } else {
        TokenKeptByOthers(w, es[j - 1], token, node, exp, now);
      }
    }
  }

  /** A token that never led to an identity has no receipts. */
  lemma UnusedHasNoReceipt(w: World, r: Request)
    requires Consistent(w) && r.token in w.oneTime && r.token !in w.identity
    ensures Sha256(r.token + "|" + r.enrollmentID) !in w.s.receipts
  {
    var k := Sha256(r.token + "|" + r.enrollmentID);
    BeforeBarOfHex(r.token, r.enrollmentID);
    assert k in w.s.receipts ==> ReceiptSound(w, k);
  }

  lemma UseToken(w: World, e: Event, node: string, exp: int, now: int)
    requires Consistent(w) && e.op.Register? && e.op.request.protocol == 1 && e.op.request.token != ""
    requires TokenAt(w, e.op.request.token, node, exp, now) && now <= Unix(e.now) && 0 < exp
    ensures node in w.s.nodes
    ensures var (s', a) := Step(w.s, e);
      && (a.Registered? <==> Unix(e.now) <= exp)
      && (Unix(e.now) > exp ==> s' == w.s && a == InvalidToken)
      && (Unix(e.now) <= exp ==>
            var n := w.s.nodes[node];
            && a == Registered(node, if e.op.request.name != "" then e.op.request.name else n.name, e.op.secret,
                               if n.interval == 0 then 2 else n.interval)
            && node in s'.nodes && s'.nodes[node].registered && s'.nodes[node].agentSecret == e.op.secret
            && Sha256(e.op.request.token) !in s'.enrollments)
  {
    UnusedHasNoReceipt(w, e.op.request);
  }

  /**
   * How long a one-time token is good. Issued at event i, and neither used nor replaced since, nor its node deleted, it
   * registers exactly that node through the 1800th second after event i; after that it is refused and nothing changes.
   */
  lemma OneTimeTokenLife(es: seq<Event>, i: nat, j: nat, token: string, node: string)
    requires Possible(es) && i < j < |es| && 0 <= es[i].now
    requires IssuedFor(es, i, token, node) && forall k :: i < k < j ==> LeavesToken(es, k, token, node)
    requires es[j].op.Register? && es[j].op.request.token == token && es[j].op.request.protocol == 1
    ensures AnswerAt(es, j).Registered? <==> Unix(es[j].now) <= Unix(es[i].now) + 1800
    ensures Unix(es[j].now) > Unix(es[i].now) + 1800 ==>
      Step(After(es[..j]).s, es[j]) == (After(es[..j]).s, InvalidToken)
    ensures node in After(es[..j]).s.nodes
    ensures Unix(es[j].now) <= Unix(es[i].now) + 1800 ==>
      var n := After(es[..j]).s.nodes[node];
      AnswerAt(es, j) == Registered(node, if es[j].op.request.name != "" then es[j].op.request.name else n.name,
                                    es[j].op.secret, if n.interval == 0 then 2 else n.interval)
  {
    hide *;
    TokenKept(es, i, j, token, node);
    RunStep(es, j + 1);
    AnswerStep(es, j);
    ClockGoesOn(es, j - 1, j);
    ClockGoesOn(es, i, j);
    TokenNotEmpty(es, i, token, node);
    UseToken(After(es[..j]), es[j], node, Unix(es[i].now) + 1800, Unix(es[j - 1].now));
  }

  lemma TokenNotEmpty(es: seq<Event>, i: nat, token: string, node: string)
    requires i < |es| && IssuedFor(es, i, token, node)
    ensures token != ""
  {
  }

  // ---------- The common token ----------

  /** Event i answers with a common token. */
  ghost predicate CommonIssuedAt(es: seq<Event>, i: nat, token: string)
    requires i < |es|
  {
    es[i].op.SetCommon? && AnswerAt(es, i).CommonIssued? && AnswerAt(es, i).token == token
  }

  /** Event k neither revokes nor replaces the common token. */
  ghost predicate LeavesCommon(es: seq<Event>, k: nat)
    requires k < |es|
  {
    !es[k].op.RevokeCommon? && !(es[k].op.SetCommon? && AnswerAt(es, k).CommonIssued?)
  }

  ghost predicate CommonAt(w: World, token: string, name: string, exp: int, now: int) {
    && token in w.tokens
    && (Sha256(token) in w.s.enrollments ==>
          var e := w.s.enrollments[Sha256(token)];
          e.reusable && e.nodeID == "" && e.name == name && e.expiresAt == exp)
    && (Sha256(token) !in w.s.enrollments ==>
          0 < exp < now && forall h :: h in w.s.enrollments ==> !w.s.enrollments[h].reusable)
  }

  lemma CommonIssuedStep(es: seq<Event>, i: nat, token: string)
    requires Possible(es) && i < |es| && CommonIssuedAt(es, i, token)
    ensures es[i].op.SetCommon? && es[i].op.days in {0, 1, 7, 30} && token != ""
    ensures CommonAt(After(es[..i + 1]), token, es[i].op.name,
                     if es[i].op.days == 0 then 0 else Unix(es[i].now) + 86400 * es[i].op.days, Unix(es[i].now))
  {
    hide After, Fresh, RegisterNode;
    RunStep(es, i + 1);
  }

  lemma CommonKeptByRegister(w: World, e: Event, token: string, name: string, exp: int, now: int)
    requires Consistent(w) && Fresh(w, e.op) && e.op.Register? && CommonAt(w, token, name, exp, now)
    requires now <= Unix(e.now)
    ensures CommonAt(Next(w, e), token, name, exp, Unix(e.now))
  {
    hide Next, Step, Enrols;
    if Enrols(w.s, Unix(e.now), e.op.request) {
      NamesToEnrol(w.s, e);
      var n := EnrolNext(w, e);
    } else {
      IdleNoted(w, e);
    }
  }

  lemma CommonKeptByOthers(w: World, e: Event, token: string, name: string, exp: int, now: int)
    requires Consistent(w) && Fresh(w, e.op) && !e.op.Register? && CommonAt(w, token, name, exp, now)
    requires Sound(w.s) && !e.op.RevokeCommon? && !(e.op.SetCommon? && Step(w.s, e).1.CommonIssued?)
    requires now <= Unix(e.now)
    ensures CommonAt(Next(w, e), token, name, exp, Unix(e.now))
  {
    hide Step, Next;
    OtherEnrollments(w.s, e);
    OtherNoted(w, e);
    if Issues(e.op) {
      FreshToken(w, e, token);
    }
    var h0 := Sha256(token);
    if e.op.Maintenance? && h0 in w.s.enrollments && h0 !in Next(w, e).s.enrollments {
      forall h | h in Next(w, e).s.enrollments ensures !Next(w, e).s.enrollments[h].reusable {
        assert Competing(w.s.enrollments[h0], w.s.enrollments[h]) ==> h == h0;
      }
    }
    SoundNames(w.s);
    if e.op.Create? || e.op.Reenroll? {
      FreshImpliesFreshFor(w, e.op);
    }
  }

  lemma SoundNames(s: State)
    requires Sound(s)
    ensures "" !in s.nodes
  {
  }

  lemma {:induction false} CommonKept(es: seq<Event>, i: nat, j: nat, token: string)
    requires Possible(es) && i < j <= |es| && CommonIssuedAt(es, i, token)
    requires forall k :: i < k < j ==> LeavesCommon(es, k)
    ensures CommonAt(After(es[..j]), token, es[i].op.name,
                     if es[i].op.days == 0 then 0 else Unix(es[i].now) + 86400 * es[i].op.days, Unix(es[j - 1].now))
    decreases j
  {
    hide After, Next, Step, Fresh, CommonAt;
    if j == i + 1 {
      CommonIssuedStep(es, i, token);
    } else {
      CommonKept(es, i, j - 1, token);
      RunStep(es, j);
      assert LeavesCommon(es, j - 1);
      var w, now := After(es[..j - 1]), Unix(es[j - 2].now);
      var exp := if es[i].op.days == 0 then 0 else Unix(es[i].now) + 86400 * es[i].op.days;
      if es[j - 1].op.Register? {
        CommonKeptByRegister(w, es[j - 1], token, es[i].op.name, exp, now);
      } else {
        CommonKeptByOthers(w, es[j - 1], token, es[i].op.name, exp, now);
      }
    }
  }

  /** No live receipt of a node that is still there answers the request. */
  ghost predicate NoReceipt(s: State, r: Request, sec: int) {
    var k := Sha256(r.token + "|" + r.enrollmentID);
    r.enrollmentID == "" || k !in s.receipts || s.receipts[k].expiresAt <= sec || s.receipts[k].nodeID !in s.nodes
  }

  lemma UseCommon(w: World, e: Event, name: string, exp: int, now: int)
    requires Consistent(w) && e.op.Register? && e.op.request.protocol == 1 && e.op.request.token != ""
    requires NoReceipt(w.s, e.op.request, Unix(e.now)) && 0 <= exp
    requires CommonAt(w, e.op.request.token, name, exp, now) && now <= Unix(e.now)
    ensures var (s', a) := Step(w.s, e);
      && (a.Registered? <==> exp == 0 || Unix(e.now) <= exp)
      && (exp > 0 && Unix(e.now) > exp ==> s' == w.s && a == InvalidToken)
      && (exp == 0 || Unix(e.now) <= exp ==>
            var shown := if e.op.request.name != "" then e.op.request.name
                         else if name != "" then name else "node-" + e.op.id[..6];
            && a == Registered(e.op.id, shown, e.op.secret, 2)
            && e.op.id in s'.nodes
            && s'.nodes[e.op.id] == Node(shown, "默认分组", 2, Some(Sha256(e.op.secret)), e.op.secret, "", 0, true,
                                         Unix(e.now))
            && Sha256(e.op.request.token) in s'.enrollments
            && s'.enrollments - {Sha256(e.op.request.token)} == w.s.enrollments - {Sha256(e.op.request.token)})
  {
  }

  /**
   * How long the common token is good. Issued at event i, and neither revoked nor replaced since, it registers a new
   * node for every request that no receipt answers: for good if issued for 0 days, else through the last second of
   * its days; after that it is refused and nothing changes.
   */
  lemma CommonTokenLife(es: seq<Event>, i: nat, j: nat, token: string)
    requires Possible(es) && i < j < |es| && 0 <= es[i].now
    requires CommonIssuedAt(es, i, token) && forall k :: i < k < j ==> LeavesCommon(es, k)
    requires es[j].op.Register? && es[j].op.request.token == token && es[j].op.request.protocol == 1
    requires NoReceipt(After(es[..j]).s, es[j].op.request, Unix(es[j].now))
    ensures AnswerAt(es, j).Registered? <==>
      es[i].op.days == 0 || Unix(es[j].now) <= Unix(es[i].now) + 86400 * es[i].op.days
    ensures !AnswerAt(es, j).Registered? ==>
      Step(After(es[..j]).s, es[j]) == (After(es[..j]).s, InvalidToken)
    ensures AnswerAt(es, j).Registered? ==>
      AnswerAt(es, j) == Registered(
        es[j].op.id,
        if es[j].op.request.name != "" then es[j].op.request.name
        else if es[i].op.name != "" then es[i].op.name else "node-" + es[j].op.id[..6],
        es[j].op.secret, 2)
  {
    hide *;
    CommonIssuedStep(es, i, token);
    CommonKept(es, i, j, token);
    RunStep(es, j + 1);
    AnswerStep(es, j);
    ClockGoesOn(es, j - 1, j);
    ClockGoesOn(es, i, j);
    UseCommon(After(es[..j]), es[j], es[i].op.name,
              if es[i].op.days == 0 then 0 else Unix(es[i].now) + 86400 * es[i].op.days, Unix(es[j - 1].now));
  }

  lemma ReportCommon(w: World, e: Event, token: string, name: string, exp: int, now: int)
    requires Consistent(w) && CommonAt(w, token, name, exp, now) && now <= Unix(e.now) && e.op.CommonStatus? && 0 <= exp
    ensures Step(w.s, e).1.Common?
    ensures Step(w.s, e).1.active <==> exp == 0 || Unix(e.now) < exp
    ensures Step(w.s, e).1.active ==> Step(w.s, e).1.expiresAt == exp
    ensures Step(w.s, e).1.active ==>
      Sha256(token) in w.joiners && Step(w.s, e).1.joined == |w.joiners[Sha256(token)]|
  {
    assert Sha256(token) in w.s.enrollments ==> TokenSound(w, Sha256(token));
    OnlyCommon(w.s, Sha256(token));
    hide RegisterNode, Sound, CommonEnrollment;
  }

  /**
   * The status page for that token: active before its last second, and for good if it has none; while active, with its
   * last second and the number of nodes that joined through it.
   */
  lemma CommonStatusLife(es: seq<Event>, i: nat, j: nat, token: string)
    requires Possible(es) && i < j < |es| && 0 <= es[i].now
    requires CommonIssuedAt(es, i, token) && forall k :: i < k < j ==> LeavesCommon(es, k)
    requires es[j].op.CommonStatus?
    ensures AnswerAt(es, j).Common?
    ensures AnswerAt(es, j).active <==> es[i].op.days == 0 || Unix(es[j].now) < Unix(es[i].now) + 86400 * es[i].op.days
    ensures AnswerAt(es, j).active ==>
      AnswerAt(es, j).expiresAt == if es[i].op.days == 0 then 0 else Unix(es[i].now) + 86400 * es[i].op.days
    ensures AnswerAt(es, j).active ==>
      Sha256(token) in After(es[..j]).joiners && AnswerAt(es, j).joined == |After(es[..j]).joiners[Sha256(token)]|
  {
    hide *;
    CommonIssuedStep(es, i, token);
    CommonKept(es, i, j, token);
    RunStep(es, j + 1);
    AnswerStep(es, j);
    ClockGoesOn(es, j - 1, j);
    ClockGoesOn(es, i, j);
    ReportCommon(After(es[..j]), es[j], token, es[i].op.name,
                 if es[i].op.days == 0 then 0 else Unix(es[i].now) + 86400 * es[i].op.days, Unix(es[j - 1].now));
  }

  lemma OnlyCommon(s: State, h: Digest)
    requires Sound(s)
    ensures h in s.enrollments && s.enrollments[h].reusable ==> CommonEnrollment(s) == Some(s.enrollments[h])
    ensures (forall k :: k in s.enrollments ==> !s.enrollments[k].reusable) ==> CommonEnrollment(s).None?
  {
    if h in s.enrollments && s.enrollments[h].reusable {
      forall k | k in s.enrollments && s.enrollments[k].reusable ensures k == h {
        assert Competing(s.enrollments[k], s.enrollments[h]);
      }
    }
  }

  // ---------- Tokens that are gone ----------

  /** A token that was drawn and is not stored. */
  ghost predicate Dead(w: World, token: string) {
    token in w.tokens && Sha256(token) !in w.s.enrollments
  }

  lemma DeadStep(w: World, e: Event, token: string)
    requires Consistent(w) && Fresh(w, e.op) && Dead(w, token)
    ensures Dead(Next(w, e), token)
  {
    hide Next, Step, Enrols, Sound;
    if !e.op.Register? {
      OtherEnrollments(w.s, e);
      OtherNoted(w, e);
      if Issues(e.op) {
        FreshToken(w, e, token);
      }
    } else if Enrols(w.s, Unix(e.now), e.op.request) {
      NamesToEnrol(w.s, e);
      var n := EnrolNext(w, e);
    } else {
      IdleNoted(w, e);
    }
  }

  lemma {:induction false} DeadForGood(es: seq<Event>, i: nat, j: nat, token: string)
    requires Possible(es) && i <= j <= |es| && Dead(After(es[..i]), token)
    ensures Dead(After(es[..j]), token)
    decreases j
  {
    hide After, Next, Fresh, Dead, Consistent;
    if i < j {
      DeadForGood(es, i, j - 1, token);
      RunStep(es, j);
      DeadStep(After(es[..j - 1]), es[j - 1], token);
    }
  }

  lemma DeadRefused(s: State, e: Event)
    requires e.op.Register? && e.op.request.protocol == 1 && NoReceipt(s, e.op.request, Unix(e.now))
    requires Sha256(e.op.request.token) !in s.enrollments
    ensures Step(s, e) == (s, InvalidToken)
  {
  }

  lemma DeadAndRefused(es: seq<Event>, j: nat)
    requires j < |es| && es[j].op.Register? && es[j].op.request.protocol == 1
    requires Dead(After(es[..j]), es[j].op.request.token)
    requires NoReceipt(After(es[..j]).s, es[j].op.request, Unix(es[j].now))
    ensures Step(After(es[..j]).s, es[j]) == (After(es[..j]).s, InvalidToken)
  {
    hide After, Step, NoReceipt;
    DeadRefused(After(es[..j]).s, es[j]);
  }

  /** What token t was drawn for never changes: for one node, or for everyone. */
  lemma {:induction false} KindPersists(es: seq<Event>, i: nat, j: nat, token: string)
    requires Possible(es) && i <= j <= |es| && token in After(es[..i]).tokens
    ensures token in After(es[..j]).tokens
    ensures token in After(es[..j]).oneTime <==> token in After(es[..i]).oneTime
    decreases j
  {
    hide After, Next, Fresh, Consistent;
    if i < j {
      KindPersists(es, i, j - 1, token);
      RunStep(es, j);
      KindStep(After(es[..j - 1]), es[j - 1], token);
    }
  }

  lemma KindStep(w: World, e: Event, token: string)
    requires Fresh(w, e.op) && token in w.tokens
    ensures token in Next(w, e).tokens && (token in Next(w, e).oneTime <==> token in w.oneTime)
  {
    hide Step;
  }

  /** A one-time token that led to an identity is used up: without a receipt it is refused from then on. */
  lemma UsedTokenRefused(es: seq<Event>, i: nat, j: nat)
    requires Possible(es) && i < j < |es| && es[i].op.Register? && es[j].op.Register?
    requires es[i].op.request.token in After(es[..i]).oneTime && AnswerAt(es, i).Registered?
    requires es[j].op.request.token == es[i].op.request.token && es[j].op.request.protocol == 1
    requires NoReceipt(After(es[..j]).s, es[j].op.request, Unix(es[j].now))
    ensures Step(After(es[..j]).s, es[j]) == (After(es[..j]).s, InvalidToken)
  {
    hide *;
    UsedTokenDead(es, i);
    DeadForGood(es, i + 1, j, es[i].op.request.token);
    DeadAndRefused(es, j);
  }

  lemma UsedTokenDead(es: seq<Event>, i: nat)
    requires Possible(es) && i < |es| && es[i].op.Register?
    requires es[i].op.request.token in After(es[..i]).oneTime && AnswerAt(es, i).Registered?
    ensures Dead(After(es[..i + 1]), es[i].op.request.token)
  {
    hide After, Step, Fresh, Next;
    RunStep(es, i + 1);
    NextKeepsConsistent(After(es[..i]), es[i]);
    KindPersists(es, i, i + 1, es[i].op.request.token);
    if Sha256(es[i].op.request.token) in After(es[..i + 1]).s.enrollments {
      StoredTokenUnbound(After(es[..i + 1]), Sha256(es[i].op.request.token));
    }
  }

  /** Revoking or replacing the common token ends it for good: without a receipt it is refused from then on. */
  lemma RevokedTokenRefused(es: seq<Event>, k: nat, i: nat, j: nat, token: string)
    requires Possible(es) && k < i < j < |es| && CommonIssuedAt(es, k, token) && !LeavesCommon(es, i)
    requires es[j].op.Register? && es[j].op.request.token == token && es[j].op.request.protocol == 1
    requires NoReceipt(After(es[..j]).s, es[j].op.request, Unix(es[j].now))
    ensures Step(After(es[..j]).s, es[j]) == (After(es[..j]).s, InvalidToken)
  {
    hide *;
    CommonDrawn(es, k, token);
    RevokedTokenDead(es, k, i, token);
    DeadForGood(es, i + 1, j, token);
    DeadAndRefused(es, j);
  }

  lemma CommonDrawn(es: seq<Event>, k: nat, token: string)
    requires Possible(es) && k < |es| && CommonIssuedAt(es, k, token)
    ensures token in After(es[..k + 1]).tokens && token !in After(es[..k + 1]).oneTime
  {
    hide After, RegisterNode;
    RunStep(es, k + 1);
  }

  lemma RevokedTokenDead(es: seq<Event>, k: nat, i: nat, token: string)
    requires Possible(es) && k < i < |es| && !LeavesCommon(es, i)
    requires token in After(es[..k + 1]).tokens && token !in After(es[..k + 1]).oneTime
    ensures Dead(After(es[..i + 1]), token)
  {
    hide After, RegisterNode;
    KindPersists(es, k + 1, i, token);
    RunStep(es, i + 1);
    var w := After(es[..i]);
    assert Sha256(token) in w.s.enrollments ==> TokenSound(w, Sha256(token));
  }

  /** After revoking, and until a new token is issued, there is no common token to report. */
  lemma RevokedStatus(es: seq<Event>, i: nat, j: nat)
    requires Possible(es) && i < j < |es| && es[i].op.RevokeCommon? && es[j].op.CommonStatus?
    requires forall k :: i < k < j ==> LeavesCommon(es, k)
    ensures AnswerAt(es, j) == Common(false, 0, 0)
  {
    hide *;
    NoCommonKept(es, i, j);
    AnswerStep(es, j);
    RunStep(es, j + 1);
    ReportNone(After(es[..j]), es[j]);
  }

  lemma ReportNone(w: World, e: Event)
    requires NoCommon(w.s) && e.op.CommonStatus?
    ensures Step(w.s, e).1 == Common(false, 0, 0)
  {
    hide RegisterNode;
  }

  ghost predicate NoCommon(s: State) {
    forall h :: h in s.enrollments ==> !s.enrollments[h].reusable
  }

  lemma {:induction false} NoCommonKept(es: seq<Event>, i: nat, j: nat)
    requires Possible(es) && i < j <= |es| && es[i].op.RevokeCommon?
    requires forall k :: i < k < j ==> LeavesCommon(es, k)
    ensures NoCommon(After(es[..j]).s)
    decreases j
  {
    hide After, Fresh, RegisterNode, Consistent, NoCommon;
    RunStep(es, j);
    if j == i + 1 {
      Revoked(After(es[..i]).s, es[i]);
    } else {
      NoCommonKept(es, i, j - 1);
      assert LeavesCommon(es, j - 1);
      NoCommonStep(After(es[..j - 1]), es[j - 1]);
    }
  }

  lemma Revoked(s: State, e: Event)
    requires e.op.RevokeCommon?
    ensures NoCommon(Step(s, e).0)
  {
  }

  lemma NoCommonStep(w: World, e: Event)
    requires Consistent(w) && Fresh(w, e.op) && NoCommon(w.s) && !(e.op.SetCommon? && Step(w.s, e).1.CommonIssued?)
    ensures NoCommon(Next(w, e).s)
  {
    hide Next, Step, Enrols, Sound;
    if !e.op.Register? {
      OtherEnrollments(w.s, e);
      OtherNoted(w, e);
      if e.op.Create? || e.op.Reenroll? {
        FreshImpliesFreshFor(w, e.op);
      }
    } else if Enrols(w.s, Unix(e.now), e.op.request) {
      NamesToEnrol(w.s, e);
      var n := EnrolNext(w, e);
    } else {
      IdleNoted(w, e);
    }
  }

  // ---------- What a token belongs to ----------

  /** Whatever is stored under the token, as an enrollment or as a receipt, names the node. */
  ghost predicate Belongs(w: World, token: string, node: string) {
    && token in w.tokens
    && (Sha256(token) in w.s.enrollments ==>
          !w.s.enrollments[Sha256(token)].reusable && w.s.enrollments[Sha256(token)].nodeID == node)
    && (forall k :: k in w.s.receipts && BeforeBar(k.preimage) == token ==> w.s.receipts[k].nodeID == node)
  }

  lemma BelongsFirst(es: seq<Event>, i: nat, token: string, node: string)
    requires Possible(es) && i < |es| && IssuedFor(es, i, token, node)
    ensures Belongs(After(es[..i + 1]), token, node)
  {
    hide After, RegisterNode;
    RunStep(es, i + 1);
    var w := After(es[..i]);
    assert forall k :: k in w.s.receipts ==> ReceiptSound(w, k);
  }

  lemma BelongsEnrol(w: World, e: Event, token: string, node: string)
    requires Consistent(w) && Fresh(w, e.op) && e.op.Register? && Enrols(w.s, Unix(e.now), e.op.request)
    requires Belongs(w, token, node)
    ensures Belongs(Next(w, e), token, node)
  {
    hide Next, Step, Enrols, Sound;
    NamesToEnrol(w.s, e);
    var r := e.op.request;
    assert TokenSound(w, Sha256(r.token));
    BeforeBarOfHex(r.token, r.enrollmentID);
    var n := EnrolNext(w, e);
  }

  lemma BelongsStep(w: World, e: Event, token: string, node: string)
    requires Consistent(w) && Fresh(w, e.op) && Belongs(w, token, node)
    ensures Belongs(Next(w, e), token, node)
  {
    hide Next, Step, Enrols, Sound, BeforeBar;
    if !e.op.Register? {
      OtherEnrollments(w.s, e);
      OtherNoted(w, e);
      if Issues(e.op) {
        FreshToken(w, e, token);
      }
    } else if Enrols(w.s, Unix(e.now), e.op.request) {
      BelongsEnrol(w, e, token, node);
    } else {
      IdleNoted(w, e);
    }
  }

  lemma {:induction false} BelongsKept(es: seq<Event>, i: nat, j: nat, token: string, node: string)
    requires Possible(es) && i < j <= |es| && IssuedFor(es, i, token, node)
    ensures Belongs(After(es[..j]), token, node)
    decreases j
  {
    hide After, Next, Fresh, Belongs, Consistent, IssuedFor;
    if j == i + 1 {
      BelongsFirst(es, i, token, node);
    } else {
      BelongsKept(es, i, j - 1, token, node);
      RunStep(es, j);
      BelongsStep(After(es[..j - 1]), es[j - 1], token, node);
    }
  }

  /** Re-enrolling a node ends the tokens issued for it before: without a receipt they are refused from then on. */
  lemma ReplacedTokenRefused(es: seq<Event>, k: nat, i: nat, j: nat, token: string, node: string)
    requires Possible(es) && k < i < j < |es| && IssuedFor(es, k, token, node)
    requires es[i].op.Reenroll? && es[i].op.node == node && AnswerAt(es, i).TokenIssued?
    requires es[j].op.Register? && es[j].op.request.token == token && es[j].op.request.protocol == 1
    requires NoReceipt(After(es[..j]).s, es[j].op.request, Unix(es[j].now))
    ensures Step(After(es[..j]).s, es[j]) == (After(es[..j]).s, InvalidToken)
  {
    hide *;
    BelongsKept(es, k, i, token, node);
    ReplacedTokenDead(es, i, token, node);
    DeadForGood(es, i + 1, j, token);
    DeadAndRefused(es, j);
  }

  lemma ReplacedTokenDead(es: seq<Event>, i: nat, token: string, node: string)
    requires Possible(es) && i < |es| && Belongs(After(es[..i]), token, node)
    requires (es[i].op.Reenroll? && es[i].op.node == node && AnswerAt(es, i).TokenIssued?)
      || (es[i].op.Delete? && es[i].op.node == node && AnswerAt(es, i) == Done)
    ensures Dead(After(es[..i + 1]), token)
  {
    hide After, RegisterNode, Consistent;
    RunStep(es, i + 1);
  }

  // ---------- Deleted nodes ----------

  lemma DeletionRemoves(es: seq<Event>, i: nat, node: string)
    requires Possible(es) && i < |es| && es[i].op.Delete? && es[i].op.node == node && AnswerAt(es, i) == Done
    ensures node in After(es[..i + 1]).ids && node !in After(es[..i + 1]).s.nodes
  {
    hide After, RegisterNode;
    RunStep(es, i + 1);
  }

  lemma GoneAnswers(s: State, e: Event, node: string)
    requires node !in s.nodes && node !in s.runtime
    ensures e.op.Heartbeat? && e.op.node == node ==> Step(s, e) == (s, Unauthorized)
    ensures e.op.QueryHistory? && e.op.node == node ==> Step(s, e) == (s, NodeMissing)
  {
    hide RegisterNode;
  }

  lemma NoNodeNoRuntime(w: World, node: string)
    requires Consistent(w) && node !in w.s.nodes
    ensures node !in w.s.runtime
  {
  }

  /**
   * A deleted node is gone for good: at every later event it is in neither table, its heartbeats are not authorized,
   * and its history is not found.
   */
  lemma DeletedForGood(es: seq<Event>, i: nat, j: nat, node: string)
    requires Possible(es) && i < j < |es|
    requires es[i].op.Delete? && es[i].op.node == node && AnswerAt(es, i) == Done
    ensures node !in After(es[..j]).s.nodes && node !in After(es[..j]).s.runtime
    ensures es[j].op.Heartbeat? && es[j].op.node == node ==>
      Step(After(es[..j]).s, es[j]) == (After(es[..j]).s, Unauthorized)
    ensures es[j].op.QueryHistory? && es[j].op.node == node ==> AnswerAt(es, j) == NodeMissing
  {
    hide *;
    DeletionRemoves(es, i, node);
    NodeStaysGone(es, i + 1, j, node);
    RunStep(es, j + 1);
    AnswerStep(es, j);
    NoNodeNoRuntime(After(es[..j]), node);
    GoneAnswers(After(es[..j]).s, es[j], node);
  }

  /** So are the tokens issued for it, receipts or not. */
  lemma DeletedTokenRefused(es: seq<Event>, k: nat, i: nat, j: nat, token: string, node: string)
    requires Possible(es) && k < i < j < |es| && IssuedFor(es, k, token, node)
    requires es[i].op.Delete? && es[i].op.node == node && AnswerAt(es, i) == Done
    requires es[j].op.Register? && es[j].op.request.token == token && es[j].op.request.protocol == 1
    ensures Step(After(es[..j]).s, es[j]) == (After(es[..j]).s, InvalidToken)
  {
    hide *;
    BelongsKept(es, k, i, token, node);
    ReplacedTokenDead(es, i, token, node);
    DeletedForGood(es, i, j, node);
    BelongsKept(es, k, j, token, node);
    DeadForGood(es, i + 1, j, token);
    RunStep(es, j + 1);
    GoneReceipts(After(es[..j]), es[j].op.request, node, Unix(es[j].now));
    DeadAndRefused(es, j);
  }

  lemma GoneReceipts(w: World, r: Request, node: string, sec: int)
    requires Consistent(w) && Belongs(w, r.token, node) && node !in w.s.nodes
    ensures NoReceipt(w.s, r, sec)
  {
    BeforeBarOfHex(r.token, r.enrollmentID);
  }

  // ---------- Receipts ----------

  /** Whatever is stored under this key is this receipt. */
  ghost predicate ReceiptFixed(w: World, k: Digest, receipt: Receipt) {
    k in w.s.receipts ==> w.s.receipts[k] == receipt
  }

  lemma ReceiptFixedStep(w: World, e: Event, token: string, enrollmentID: string, receipt: Receipt)
    requires Consistent(w) && Fresh(w, e.op) && Dead(w, token)
    requires ReceiptFixed(w, Sha256(token + "|" + enrollmentID), receipt)
    ensures ReceiptFixed(Next(w, e), Sha256(token + "|" + enrollmentID), receipt)
  {
    hide Next, Step, Enrols, Sound, BeforeBar;
    if !e.op.Register? {
      OtherEnrollments(w.s, e);
      OtherNoted(w, e);
    } else if Enrols(w.s, Unix(e.now), e.op.request) {
      var r := e.op.request;
      NamesToEnrol(w.s, e);
      assert TokenSound(w, Sha256(r.token));
      BeforeBarOfHex(r.token, r.enrollmentID);
      BeforeBarOfHex(token, enrollmentID);
      var n := EnrolNext(w, e);
    } else {
      IdleNoted(w, e);
    }
  }

  lemma {:induction false} ReceiptFixedKept(
    es: seq<Event>, i: nat, j: nat, token: string, enrollmentID: string, receipt: Receipt)
    requires Possible(es) && i <= j <= |es| && Dead(After(es[..i]), token)
    requires ReceiptFixed(After(es[..i]), Sha256(token + "|" + enrollmentID), receipt)
    ensures ReceiptFixed(After(es[..j]), Sha256(token + "|" + enrollmentID), receipt)
    decreases j
  {
    hide After, Next, Fresh, Dead, Consistent, ReceiptFixed;
    if i < j {
      ReceiptFixedKept(es, i, j - 1, token, enrollmentID, receipt);
      DeadForGood(es, i, j - 1, token);
      RunStep(es, j);
      ReceiptFixedStep(After(es[..j - 1]), es[j - 1], token, enrollmentID, receipt);
    }
  }

  /**
   * How long a retry is answered: after registration i used up a one-time token, the same request at event j, the node
   * still being there, gets the same node and secret through the 599th second, and is refused from the 600th on.
   */
  lemma ReceiptLife(es: seq<Event>, i: nat, j: nat)
    requires Possible(es) && i < j < |es| && es[i].op.Register? && es[j].op.Register?
    requires es[i].op.request.token in After(es[..i]).oneTime
    requires es[i].op.request.enrollmentID != "" && Enrols(After(es[..i]).s, Unix(es[i].now), es[i].op.request)
    requires es[j].op.request.protocol == 1
    requires es[j].op.request.token == es[i].op.request.token
    requires es[j].op.request.enrollmentID == es[i].op.request.enrollmentID
    requires AnswerAt(es, i).Registered? && AnswerAt(es, i).node in After(es[..j]).s.nodes
    ensures if Unix(es[j].now) < Unix(es[i].now) + 600
            then AnswerAt(es, j).Registered? && AnswerAt(es, j).node == AnswerAt(es, i).node
                 && AnswerAt(es, j).secret == AnswerAt(es, i).secret
                 && Step(After(es[..j]).s, es[j]).0 == After(es[..j]).s
            else Step(After(es[..j]).s, es[j]) == (After(es[..j]).s, InvalidToken)
  {
    hide *;
    if Unix(es[j].now) < Unix(es[i].now) + 600 {
      RetryReturnsOriginal(es, i, j);
      AnswerStep(es, j);
    } else {
      var token, enrollmentID := es[i].op.request.token, es[i].op.request.enrollmentID;
      var receipt := Receipt(AnswerAt(es, i).node, AnswerAt(es, i).secret, Unix(es[i].now) + 600);
      UsedTokenDead(es, i);
      ReceiptWritten(es, i);
      DeadForGood(es, i + 1, j, token);
      ReceiptFixedKept(es, i + 1, j, token, enrollmentID, receipt);
      LapsedReceipt(After(es[..j]), es[j].op.request, receipt, Unix(es[j].now));
      DeadAndRefused(es, j);
    }
  }

  lemma LapsedReceipt(w: World, r: Request, receipt: Receipt, sec: int)
    requires ReceiptFixed(w, Sha256(r.token + "|" + r.enrollmentID), receipt) && receipt.expiresAt <= sec
    ensures NoReceipt(w.s, r, sec)
  {
  }

  lemma ReceiptWritten(es: seq<Event>, i: nat)
    requires Possible(es) && i < |es| && es[i].op.Register?
    requires es[i].op.request.enrollmentID != "" && Enrols(After(es[..i]).s, Unix(es[i].now), es[i].op.request)
    ensures AnswerAt(es, i).Registered?
    ensures ReceiptFixed(After(es[..i + 1]), Sha256(es[i].op.request.token + "|" + es[i].op.request.enrollmentID),
                         Receipt(AnswerAt(es, i).node, AnswerAt(es, i).secret, Unix(es[i].now) + 600))
  {
    hide After, Step, Next, Enrols, Fresh;
    RunStep(es, i + 1);
    NamesToEnrol(After(es[..i]).s, es[i]);
    var n := EnrolNext(After(es[..i]), es[i]);
  }

  // ---------- Sessions ----------

  /** The session is stored as it was opened, or was dropped after its end. */
  ghost predicate SessionAt(s: State, sid: string, session: Session, now: int) {
    if sid in s.sessions then s.sessions[sid] == session else session.expires < now
  }

  lemma OtherSessionsKept(s: State, e: Event, sid: string)
    requires !(e.op.Login? && e.op.sid == sid) && !(e.op.Logout? && e.op.sid == sid)
    ensures var s' := Step(s, e).0;
      && (sid in s'.sessions ==> sid in s.sessions && s'.sessions[sid] == s.sessions[sid])
      && (sid in s.sessions && sid !in s'.sessions ==> s.sessions[sid].expires < e.now)
  {
    hide Replays, Rekeyed, JoinedNode, Tidied;
  }

  lemma {:induction false} SessionKept(es: seq<Event>, i: nat, j: nat)
    requires Possible(es) && i < j <= |es| && es[i].op.Login?
    requires forall k :: i < k < j ==>
      !(es[k].op.Login? && es[k].op.sid == es[i].op.sid) && !(es[k].op.Logout? && es[k].op.sid == es[i].op.sid)
    ensures SessionAt(After(es[..j]).s, es[i].op.sid,
                      Session(es[i].op.csrf, es[i].now + 43_200_000_000_000), es[j - 1].now)
    decreases j
  {
    hide After, Fresh, RegisterNode, Consistent;
    RunStep(es, j);
    if j > i + 1 {
      SessionKept(es, i, j - 1);
      OtherSessionsKept(After(es[..j - 1]).s, es[j - 1], es[i].op.sid);
      hide Step;
      assert es[j - 2].now <= es[j - 1].now;
    }
  }

  lemma EarlierEvent(es: seq<Event>, j: nat)
    requires Possible(es) && 0 < j < |es|
    ensures es[j - 1].now <= es[j].now
  {
    hide Fresh, After;
  }

  lemma CheckedSession(s: State, e: Event, session: Session, now: int)
    requires e.op.CheckSession? && SessionAt(s, e.op.sid, session, now) && now <= e.now
    ensures Step(s, e).1 == SessionIs(if e.now <= session.expires then Some(session) else None)
  {
    hide RegisterNode;
  }

  lemma NoSession(s: State, e: Event)
    requires e.op.CheckSession? && e.op.sid !in s.sessions
    ensures Step(s, e).1 == SessionIs(None)
  {
    hide RegisterNode;
  }

  /** A session lasts through the last nanosecond of its twelve hours, unless it is logged out. */
  lemma SessionLife(es: seq<Event>, i: nat, j: nat)
    requires Possible(es) && i < j < |es| && es[i].op.Login? && es[j].op.CheckSession? && es[j].op.sid == es[i].op.sid
    requires forall k :: i < k < j ==>
      !(es[k].op.Login? && es[k].op.sid == es[i].op.sid) && !(es[k].op.Logout? && es[k].op.sid == es[i].op.sid)
    ensures AnswerAt(es, j) == SessionIs(
      if es[j].now <= es[i].now + 43_200_000_000_000
      then Some(Session(es[i].op.csrf, es[i].now + 43_200_000_000_000)) else None)
  {
    hide *;
    SessionKept(es, i, j);
    AnswerStep(es, j);
    EarlierEvent(es, j);
    CheckedSession(After(es[..j]).s, es[j], Session(es[i].op.csrf, es[i].now + 43_200_000_000_000), es[j - 1].now);
  }

  lemma {:induction false} LoggedOutKept(es: seq<Event>, i: nat, j: nat)
    requires Possible(es) && i < j <= |es| && es[i].op.Logout?
    requires forall k :: i < k < j ==> !(es[k].op.Login? && es[k].op.sid == es[i].op.sid)
    ensures es[i].op.sid !in After(es[..j]).s.sessions
    decreases j
  {
    hide After, Fresh, RegisterNode, Consistent;
    RunStep(es, j);
    if j > i + 1 {
      LoggedOutKept(es, i, j - 1);
      if !(es[j - 1].op.Logout? && es[j - 1].op.sid == es[i].op.sid) {
        OtherSessionsKept(After(es[..j - 1]).s, es[j - 1], es[i].op.sid);
        hide Step;
      }
    }
  }

  /** A session that was logged out is not accepted again until someone logs in under its id. */
  lemma LogoutEndsSession(es: seq<Event>, i: nat, j: nat)
    requires Possible(es) && i < j < |es| && es[i].op.Logout? && es[j].op.CheckSession? && es[j].op.sid == es[i].op.sid
    requires forall k :: i < k < j ==> !(es[k].op.Login? && es[k].op.sid == es[i].op.sid)
    ensures AnswerAt(es, j) == SessionIs(None)
  {
    hide *;
    LoggedOutKept(es, i, j);
    AnswerStep(es, j);
    NoSession(After(es[..j]).s, es[j]);
  }
}
