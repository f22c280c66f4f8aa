/**
 * The server's identity state and what each handler does to it: nodes, enrollment tokens, enrollment receipts,
 * rotated secrets, sessions, and the maintenance sweep.
 */
module Identity {
  import opened Basics
  import opened MetricRing
  import opened History

  const TOKEN_LIFE := 1800
  const RECEIPT_LIFE := 600
  const ROTATION_GRACE := 300
  const SESSION_LIFE := 12 * 3600 * SECOND
  const PROTOCOL := 1

  // ---------- Data ----------

  /** hashString, taken as an injective function of its argument. */
  datatype Digest = Sha256(preimage: string)

  predicate Hex(s: string) {
    forall i :: 0 <= i < |s| ==> '0' <= s[i] <= '9' || 'a' <= s[i] <= 'f'
  }

  /** The values randomHex(12) and randomToken(32) can return. */
  type NodeId = s: string | |s| == 24 && Hex(s) witness seq(24, _ => '0')
  type Secret = s: string | |s| == 64 && Hex(s) witness seq(64, _ => '0')

  datatype Node = Node(
    name: string, group: string, interval: int,
    secretHash: Option<Digest>, agentSecret: string, previousSecret: string, previousExpires: int,
    registered: bool, createdAt: int)

  datatype Enrollment = Enrollment(nodeID: string, name: string, expiresAt: int, reusable: bool, joined: int)

  datatype Receipt = Receipt(nodeID: string, secret: string, expiresAt: int)

  /** expires is a nanosecond instant, as time.Time is. */
  datatype Session = Session(csrf: string, expires: int)

  datatype State = State(
    nodes: map<string, Node>,
    enrollments: map<Digest, Enrollment>,
    receipts: map<Digest, Receipt>,
    sessions: map<string, Session>,
    runtime: map<string, HistoryState>)

  const INITIAL := State(map[], map[], map[], map[], map[])

  /** A registration request after strings.TrimSpace on its fields. */
  datatype Request = Request(protocol: int, token: string, name: string, enrollmentID: string)

  datatype Op =
    | Create(id: NodeId, token: Secret, name: string, group: string)
    | Reenroll(node: string, token: Secret)
    | Delete(node: string)
    | SetCommon(token: Secret, days: int, name: string)
    | RevokeCommon
    | Register(request: Request, id: NodeId, secret: Secret)
    | Login(sid: string, csrf: string)
    | Logout(sid: string)
    | CheckSession(sid: string)
    | CommonStatus
    | Heartbeat(node: string, key: string, sample: MetricPoint)
    | QueryHistory(node: string, minutes: int)
    | Maintenance

  datatype Event = Event(now: int, op: Op)

  datatype Answer =
    | Created(id: string, token: string)
    | TokenIssued(token: string)
    | CommonIssued(token: string, expiresAt: int)
    | Done
    | NodeMissing
    | BadInput
    | MissingProtocol | AgentTooOld | ServerTooOld | InvalidToken | EnrolledNodeMissing
    | Registered(node: string, name: string, secret: string, interval: int)
    | SessionIs(session: Option<Session>)
    | Common(active: bool, expiresAt: int, joined: int)
    | Unauthorized
    | Points(points: seq<HistoryPoint>)

  // ---------- Readers ----------

  /** Which signing keys a node answers to at a given second. */
  predicate SecretAccepted(n: Node, key: string, sec: int) {
    && n.registered
    && key != ""
    && (key == n.agentSecret || (n.previousSecret != "" && n.previousExpires >= sec && key == n.previousSecret))
  }

  predicate TokenExpired(e: Enrollment, sec: int) {
    e.expiresAt > 0 && sec > e.expiresAt
  }

  function LiveSession(s: State, sid: string, now: int): Option<Session> {
    if sid !in s.sessions || now > s.sessions[sid].expires then None else Some(s.sessions[sid])
  }

  ghost function CommonEnrollment(s: State): Option<Enrollment> {
    if h :| h in s.enrollments && s.enrollments[h].reusable then Some(s.enrollments[h]) else None
  }

  ghost function CommonAnswer(s: State, sec: int): Answer {
    match CommonEnrollment(s)
    case None => Common(false, 0, 0)
    case Some(e) => Common(e.expiresAt == 0 || e.expiresAt > sec, e.expiresAt, e.joined)
  }

  function ReceiptKey(r: Request): Digest {
    Sha256(r.token + "|" + r.enrollmentID)
  }

  /** A receipt that answers the request without touching any state. */
  predicate Replays(s: State, sec: int, r: Request) {
    && r.enrollmentID != ""
    && ReceiptKey(r) in s.receipts
    && s.receipts[ReceiptKey(r)].expiresAt > sec
    && s.receipts[ReceiptKey(r)].nodeID in s.nodes
  }

  // ---------- Handlers ----------

  function WithoutNode(m: map<Digest, Enrollment>, node: string): map<Digest, Enrollment> {
    map h | h in m && m[h].nodeID != node :: m[h]
  }

  function WithoutReusable(m: map<Digest, Enrollment>): map<Digest, Enrollment> {
    map h | h in m && !m[h].reusable :: m[h]
  }

  const FRESH_NODE := Node("", "", 0, None, "", "", 0, false, 0)

  function CreateNode(s: State, sec: int, id: NodeId, token: Secret, name: string, group: string): (State, Answer) {
    if |name| > 80 then (s, BadInput)
    else
      var shown := if name == "" then "node-" + id[..6] else name;
      (s.(nodes := s.nodes[id := FRESH_NODE.(name := shown, group := group, createdAt := sec)],
          enrollments := s.enrollments[Sha256(token) := Enrollment(id, "", sec + TOKEN_LIFE, false, 0)],
          runtime := s.runtime[id := EMPTY]),
       Created(id, token))
  }

  function ReenrollNode(s: State, sec: int, node: string, token: Secret): (State, Answer) {
    if node !in s.nodes then (s, NodeMissing)
    else
      (s.(enrollments := WithoutNode(s.enrollments, node)[
            Sha256(token) := Enrollment(node, "", sec + TOKEN_LIFE, false, 0)]),
       TokenIssued(token))
  }

  function DeleteNode(s: State, node: string): (State, Answer) {
    if node !in s.nodes then (s, NodeMissing)
    else
      (s.(nodes := s.nodes - {node}, runtime := s.runtime - {node},
          enrollments := WithoutNode(s.enrollments, node)),
       Done)
  }

  function SetCommonEnrollment(s: State, sec: int, token: Secret, days: int, name: string): (State, Answer) {
    if days != 0 && days != 1 && days != 7 && days != 30 then (s, BadInput)
    else
      var exp := if days > 0 then sec + 86400 * days else 0;
      (s.(enrollments := WithoutReusable(s.enrollments)[Sha256(token) := Enrollment("", name, exp, true, 0)]),
       CommonIssued(token, exp))
  }

  function RevokeCommonEnrollment(s: State): (State, Answer) {
    (s.(enrollments := WithoutReusable(s.enrollments)), Done)
  }

  /** The new secret takes over; the one it replaces stays valid for five minutes. */
  function Rekeyed(n: Node, sec: int, secret: Secret, name: string): Node {
    var kept := if n.registered && n.agentSecret != ""
                then n.(previousSecret := n.agentSecret, previousExpires := sec + ROTATION_GRACE)
                else n;
    kept.(secretHash := Some(Sha256(secret)), agentSecret := secret, registered := true,
          name := if name != "" then name else kept.name,
          interval := if kept.interval == 0 then 2 else kept.interval)
  }

  function JoinedNode(e: Enrollment, sec: int, id: NodeId, name: string): Node {
    var shown := if name != "" then name else if e.name != "" then e.name else "node-" + id[..6];
    FRESH_NODE.(name := shown, group := "默认分组", interval := 2, createdAt := sec)
  }

  /** Hands out a new identity for node id under the enrollment stored at th. */
  function Enrol(s: State, sec: int, r: Request, th: Digest, id: string, n: Node, secret: Secret): (State, Answer)
    requires th in s.enrollments
  {
    var e := s.enrollments[th];
    var n' := Rekeyed(n, sec, secret, r.name);
    (s.(nodes := s.nodes[id := n'],
        enrollments := if e.reusable then s.enrollments[th := e.(joined := e.joined + 1)] else s.enrollments - {th},
        runtime := if e.reusable || id !in s.runtime then s.runtime[id := EMPTY] else s.runtime,
        receipts := if r.enrollmentID != ""
                    then s.receipts[ReceiptKey(r) := Receipt(id, secret, sec + RECEIPT_LIFE)]
                    else s.receipts),
     Registered(id, n'.name, secret, n'.interval))
  }

  function RegisterNode(s: State, sec: int, r: Request, id: NodeId, secret: Secret): (State, Answer) {
    if r.protocol == 0 then (s, MissingProtocol)
    else if r.protocol < PROTOCOL then (s, AgentTooOld)
    else if r.protocol > PROTOCOL then (s, ServerTooOld)
    else if r.token == "" then (s, InvalidToken)
    else if Replays(s, sec, r) then
      var receipt := s.receipts[ReceiptKey(r)];
      var n := s.nodes[receipt.nodeID];
      (s, Registered(receipt.nodeID, n.name, receipt.secret, n.interval))
    else
      var th := Sha256(r.token);
      if th !in s.enrollments || TokenExpired(s.enrollments[th], sec) then (s, InvalidToken)
      else
        var e := s.enrollments[th];
        if e.reusable then Enrol(s, sec, r, th, id, JoinedNode(e, sec, id, r.name), secret)
        else if e.nodeID !in s.nodes then (s.(enrollments := s.enrollments - {th}), EnrolledNodeMissing)
        else Enrol(s, sec, r, th, e.nodeID, s.nodes[e.nodeID], secret)
  }

  /** The request gets past every refusal and no receipt answers it: a new secret is handed out. */
  predicate Enrols(s: State, sec: int, r: Request) {
    && r.protocol == PROTOCOL && r.token != "" && !Replays(s, sec, r)
    && Sha256(r.token) in s.enrollments
    && !TokenExpired(s.enrollments[Sha256(r.token)], sec)
    && (s.enrollments[Sha256(r.token)].reusable || s.enrollments[Sha256(r.token)].nodeID in s.nodes)
  }

  function BeatNode(s: State, now: int, node: string, key: string, sample: MetricPoint): (State, Answer) {
    if node !in s.nodes || !SecretAccepted(s.nodes[node], key, Unix(now)) then (s, Unauthorized)
    else
      var h := if node in s.runtime then s.runtime[node] else EMPTY;
      (s.(runtime := s.runtime[node := Beat(h, now, sample)]), Done)
  }

  predicate SecretLapsed(n: Node, sec: int) {
    n.previousSecret != "" && n.previousExpires > 0 && sec > n.previousExpires
  }

  function Tidied(n: Node, sec: int): Node {
    if SecretLapsed(n, sec) then n.(previousSecret := "", previousExpires := 0) else n
  }

  /** One pass of the five-second maintenance loop. */
  function Maintained(s: State, now: int): State {
    var sec := Unix(now);
    State(
      map id | id in s.nodes :: Tidied(s.nodes[id], sec),
      map h | h in s.enrollments && !TokenExpired(s.enrollments[h], sec) :: s.enrollments[h],
      map h | h in s.receipts && !(sec > s.receipts[h].expiresAt) :: s.receipts[h],
      map k | k in s.sessions && !(now > s.sessions[k].expires) :: s.sessions[k],
      map id | id in s.runtime :: Tick(s.runtime[id], now))
  }

  ghost function Step(s: State, e: Event): (State, Answer) {
    var sec := Unix(e.now);
    match e.op
    case Create(id, token, name, group) => CreateNode(s, sec, id, token, name, group)
    case Reenroll(node, token) => ReenrollNode(s, sec, node, token)
    case Delete(node) => DeleteNode(s, node)
    case SetCommon(token, days, name) => SetCommonEnrollment(s, sec, token, days, name)
    case RevokeCommon => RevokeCommonEnrollment(s)
    case Register(r, id, secret) => RegisterNode(s, sec, r, id, secret)
    case Login(sid, csrf) => (s.(sessions := s.sessions[sid := Session(csrf, e.now + SESSION_LIFE)]), Done)
    case Logout(sid) => (s.(sessions := s.sessions - {sid}), Done)
    case CheckSession(sid) => (s, SessionIs(LiveSession(s, sid, e.now)))
    case CommonStatus => (s, CommonAnswer(s, sec))
    case Heartbeat(node, key, sample) => BeatNode(s, e.now, node, key, sample)
    case QueryHistory(node, minutes) =>
      (s, if node in s.runtime then Points(History.Answer(s.runtime[node], e.now, minutes)) else NodeMissing)
    case Maintenance => (Maintained(s, e.now), Done)
  }

  // ---------- What every state keeps ----------

  ghost predicate NamesNode(s: State, h: Digest)
    requires h in s.enrollments
  {
    var e := s.enrollments[h];
    if e.reusable then e.nodeID == "" else e.nodeID in s.nodes
  }

  /** Two enrollments compete when both are the common token or both are for the same node. */
  ghost predicate Competing(e1: Enrollment, e2: Enrollment) {
    e1.reusable == e2.reusable && (e1.reusable || e1.nodeID == e2.nodeID)
  }

  ghost predicate EnrollmentsSound(s: State) {
    && (forall h :: h in s.enrollments ==> NamesNode(s, h))
    && (forall h1, h2 :: h1 in s.enrollments && h2 in s.enrollments ==>
          (Competing(s.enrollments[h1], s.enrollments[h2]) ==> h1 == h2))
  }

  ghost predicate NodeSound(n: Node) {
    && (n.registered <==> n.agentSecret != "")
    && (n.registered ==> n.secretHash == Some(Sha256(n.agentSecret)))
    && (n.previousSecret != "" ==> n.registered)
  }

  ghost predicate NodesSound(s: State) {
    && "" !in s.nodes
    && s.nodes.Keys == s.runtime.Keys
    && forall id :: id in s.nodes ==> NodeSound(s.nodes[id])
  }

  ghost predicate Sound(s: State) {
    EnrollmentsSound(s) && NodesSound(s)
  }

  /** Random values do not repeat what the state already holds. */
  ghost predicate FreshFor(s: State, op: Op) {
    match op
    case Create(id, token, _, _) => id !in s.nodes && Sha256(token) !in s.enrollments
    case Reenroll(_, token) => Sha256(token) !in s.enrollments
    case SetCommon(token, _, _) => Sha256(token) !in s.enrollments
    case Register(_, id, _) => id !in s.nodes
    case _ => true
  }

  lemma EnrolKeepsNodes(s: State, sec: int, r: Request, th: Digest, id: string, n: Node, secret: Secret)
    requires NodesSound(s) && th in s.enrollments && id != "" && NodeSound(n)
    requires s.enrollments[th].reusable || id in s.nodes
    ensures NodesSound(Enrol(s, sec, r, th, id, n, secret).0)
  {
    var s' := Enrol(s, sec, r, th, id, n, secret).0;
    assert s'.nodes.Keys == s'.runtime.Keys;
    assert NodeSound(Rekeyed(n, sec, secret, r.name));
  }

  lemma EnrolKeepsEnrollments(s: State, sec: int, r: Request, th: Digest, id: string, n: Node, secret: Secret)
    requires EnrollmentsSound(s) && th in s.enrollments
    ensures EnrollmentsSound(Enrol(s, sec, r, th, id, n, secret).0)
  {
    var s' := Enrol(s, sec, r, th, id, n, secret).0;
    forall h | h in s'.enrollments ensures h in s.enrollments && NamesNode(s', h) {
      assert NamesNode(s, h);
    }
    forall h1, h2 | h1 in s'.enrollments && h2 in s'.enrollments && Competing(s'.enrollments[h1], s'.enrollments[h2])
      ensures h1 == h2
    {
      assert Competing(s.enrollments[h1], s.enrollments[h2]);
    }
  }

  lemma RegisterKeepsSound(s: State, sec: int, r: Request, id: NodeId, secret: Secret)
    requires Sound(s) && id !in s.nodes
    ensures Sound(RegisterNode(s, sec, r, id, secret).0)
    ensures RegisterNode(s, sec, r, id, secret).1 != EnrolledNodeMissing
  {
    var th := Sha256(r.token);
    if th in s.enrollments {
      var e := s.enrollments[th];
      assert NamesNode(s, th);
      var node := if e.reusable then id else e.nodeID;
      var n := if e.reusable then JoinedNode(e, sec, id, r.name) else s.nodes[e.nodeID];
      EnrolKeepsNodes(s, sec, r, th, node, n, secret);
      EnrolKeepsEnrollments(s, sec, r, th, node, n, secret);
    }
  }

  /** Adding one enrollment that competes with none keeps the enrollments sound. */
  lemma AddingKeepsEnrollments(s: State, s': State, h: Digest)
    requires EnrollmentsSound(s) && s.nodes.Keys <= s'.nodes.Keys
    requires h in s'.enrollments && NamesNode(s', h)
    requires forall k :: k in s'.enrollments && k != h ==> k in s.enrollments && s'.enrollments[k] == s.enrollments[k]
    requires forall k :: k in s'.enrollments && k != h ==> !Competing(s'.enrollments[k], s'.enrollments[h])
    ensures EnrollmentsSound(s')
  {
    forall k | k in s'.enrollments ensures NamesNode(s', k) {
      assert k != h ==> NamesNode(s, k);
    }
  }

  /** Dropping enrollments and nodes, as long as no enrollment keeps naming a dropped node. */
  lemma DroppingKeepsEnrollments(s: State, s': State)
    requires EnrollmentsSound(s)
    requires forall k :: k in s'.enrollments ==> k in s.enrollments && s'.enrollments[k] == s.enrollments[k]
    requires forall k :: k in s'.enrollments && s.enrollments[k].nodeID in s.nodes ==>
      s.enrollments[k].nodeID in s'.nodes
    ensures EnrollmentsSound(s')
  {
    forall k | k in s'.enrollments ensures NamesNode(s', k) {
      assert NamesNode(s, k);
    }
  }

  lemma CreateKeepsSound(s: State, sec: int, id: NodeId, token: Secret, name: string, group: string)
    requires Sound(s) && id !in s.nodes
    ensures Sound(CreateNode(s, sec, id, token, name, group).0)
  {
    var s' := CreateNode(s, sec, id, token, name, group).0;
    forall k | k in s.enrollments ensures NamesNode(s, k) {}
    if s' != s {
      AddingKeepsEnrollments(s, s', Sha256(token));
      assert s'.nodes.Keys == s'.runtime.Keys;
    }
  }

  lemma ReenrollKeepsSound(s: State, sec: int, node: string, token: Secret)
    requires Sound(s)
    ensures Sound(ReenrollNode(s, sec, node, token).0)
  {
    var s' := ReenrollNode(s, sec, node, token).0;
    if s' != s {
      AddingKeepsEnrollments(s, s', Sha256(token));
    }
  }

  lemma SetCommonKeepsSound(s: State, sec: int, token: Secret, days: int, name: string)
    requires Sound(s)
    ensures Sound(SetCommonEnrollment(s, sec, token, days, name).0)
  {
    var s' := SetCommonEnrollment(s, sec, token, days, name).0;
    if s' != s {
      AddingKeepsEnrollments(s, s', Sha256(token));
    }
  }

  lemma DeleteKeepsSound(s: State, node: string)
    requires Sound(s)
    ensures Sound(DeleteNode(s, node).0)
  {
    var s' := DeleteNode(s, node).0;
    DroppingKeepsEnrollments(s, s');
    assert s'.nodes.Keys == s'.runtime.Keys;
  }

  lemma RevokeKeepsSound(s: State)
    requires Sound(s)
    ensures Sound(RevokeCommonEnrollment(s).0)
  {
    DroppingKeepsEnrollments(s, RevokeCommonEnrollment(s).0);
  }

  lemma BeatKeepsSound(s: State, now: int, node: string, key: string, sample: MetricPoint)
    requires Sound(s)
    ensures Sound(BeatNode(s, now, node, key, sample).0)
  {
    var s' := BeatNode(s, now, node, key, sample).0;
    DroppingKeepsEnrollments(s, s');
    assert s'.nodes.Keys == s'.runtime.Keys;
  }

  lemma MaintenanceKeepsSound(s: State, now: int)
    requires Sound(s)
    ensures Sound(Maintained(s, now))
  {
    var s' := Maintained(s, now);
    DroppingKeepsEnrollments(s, s');
    assert s'.nodes.Keys == s'.runtime.Keys;
  }

  lemma SessionsKeepSound(s: State, sessions: map<string, Session>)
    requires Sound(s)
    ensures Sound(s.(sessions := sessions))
  {
    DroppingKeepsEnrollments(s, s.(sessions := sessions));
  }

  /** Every handler keeps the invariants, and the branch for an enrollment that names no node is never taken. */
  lemma StepKeepsSound(s: State, e: Event)
    requires Sound(s) && FreshFor(s, e.op)
    ensures Sound(Step(s, e).0)
    ensures Step(s, e).1 != EnrolledNodeMissing
  {
    hide Sound, RegisterNode, Maintained;
    var sec := Unix(e.now);
    match e.op {
      case Create(id, token, name, group) => CreateKeepsSound(s, sec, id, token, name, group);
      case Reenroll(node, token) => ReenrollKeepsSound(s, sec, node, token);
      case Delete(node) => DeleteKeepsSound(s, node);
      case SetCommon(token, days, name) => SetCommonKeepsSound(s, sec, token, days, name);
      case RevokeCommon => RevokeKeepsSound(s);
      case Register(r, id, secret) => RegisterKeepsSound(s, sec, r, id, secret);
      case Login(_, _) => SessionsKeepSound(s, Step(s, e).0.sessions);
      case Logout(_) => SessionsKeepSound(s, Step(s, e).0.sessions);
      case Heartbeat(node, key, sample) => BeatKeepsSound(s, e.now, node, key, sample);
      case Maintenance => MaintenanceKeepsSound(s, e.now);
      case _ =>
    }
  }
}
