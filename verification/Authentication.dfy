/**
 * HMAC request authentication with the bounded nonce cache: what one check decides, and over whole runs when an
 * accepted request can be accepted again.
 */
module Authentication {
  import opened Basics
  import opened Signing
  import Id = Identity

  const MAX_SKEW := 60
  const RETENTION := 120
  const CAPACITY: nat := 4096
  const TRIM: nat := 2048

  type Cache = map<string, int>

  /** The headers after strings.TrimSpace, the request line, and the body. */
  datatype Request = Request(
    httpMethod: string, uri: string, body: string,
    nodeID: string, timestamp: string, nonce: string, signature: string)

  /** The three clock readings of one check, in seconds: skew test, grace test of the replaced secret, nonce cache. */
  datatype Readings = Readings(skewAt: int, graceAt: int, nonceAt: int)

  datatype Outcome = Accepted | Legacy | Incomplete | BadTimestamp | ClockSkew | Revoked | BadSignature | Replay

  // ---------- The decisions that do not involve the cache ----------

  /** 64-bit subtraction and abs64, both of which wrap. */
  function Wrap(x: int): int {
    (x + INT64_LIMIT) % (2 * INT64_LIMIT) - INT64_LIMIT
  }

  function Abs64(x: int): int {
    if x < 0 then Wrap(-x) else x
  }

  predicate SkewPassed(now: int, ts: int) {
    Abs64(Wrap(now - ts)) <= MAX_SKEW
  }

  /** The skew test is the intended one except for one timestamp, whose distance from now has no absolute value. */
  lemma SkewExactly(now: int, ts: int)
    requires 0 <= now < INT64_LIMIT - 60 && -INT64_LIMIT <= ts < INT64_LIMIT
    ensures SkewPassed(now, ts) <==> -60 <= now - ts <= 60 || now - ts == INT64_LIMIT
  {
    var d := now - ts;
    assert -INT64_LIMIT < d < 2 * INT64_LIMIT - MAX_SKEW;
    if d < INT64_LIMIT {
      assert Wrap(d) == d;
    } else {
      assert Wrap(d) == d - 2 * INT64_LIMIT;
    }
  }

  function SignedMessage(c: Crypto, r: Request): string {
    Message(r.httpMethod, r.uri, r.timestamp, r.nonce, c.bodyHash(r.body))
  }

  predicate ValidUnder(c: Crypto, r: Request, secret: string) {
    secret != "" && c.mac(secret, SignedMessage(c, r)) == r.signature
  }

  predicate SignatureAccepted(c: Crypto, n: Id.Node, r: Request, at: int) {
    || ValidUnder(c, r, n.agentSecret)
    || (n.previousSecret != "" && n.previousExpires >= at && ValidUnder(c, r, n.previousSecret))
  }

  /** The verdict before the cache is consulted; Accepted means the signature is good. */
  function Screened(c: Crypto, nodes: map<string, Id.Node>, r: Request, t: Readings): (verdict: Outcome)
    ensures verdict != Replay
  {
    if r.nodeID == "" then Legacy
    else if r.timestamp == "" || r.nonce == "" || r.signature == "" then Incomplete
    else
      match ParseInt(r.timestamp)
      case None => BadTimestamp
      case Some(ts) =>
        if !SkewPassed(t.skewAt, ts) then ClockSkew
        else if r.nodeID !in nodes || !nodes[r.nodeID].registered then Revoked
        else if !SignatureAccepted(c, nodes[r.nodeID], r, t.graceAt) then BadSignature
        else Accepted
  }

  /** The signature is the code of the request's five lines under a key the node has at that second. */
  ghost predicate SignedByKey(c: Crypto, n: Id.Node, r: Request, at: int, key: string) {
    && key != ""
    && (key == n.agentSecret || (key == n.previousSecret && n.previousExpires >= at))
    && r.signature == c.mac(
         key, r.httpMethod + "\n" + r.uri + "\n" + r.timestamp + "\n" + r.nonce + "\n" + c.bodyHash(r.body))
  }

  lemma SignatureExactly(c: Crypto, n: Id.Node, r: Request, at: int)
    ensures SignatureAccepted(c, n, r, at) <==> exists key :: SignedByKey(c, n, r, at, key)
  {
    SameLines(c, r);
    hide Message;
    assert ValidUnder(c, r, n.agentSecret) ==> SignedByKey(c, n, r, at, n.agentSecret);
    assert n.previousExpires >= at && ValidUnder(c, r, n.previousSecret) ==> SignedByKey(c, n, r, at, n.previousSecret);
  }

  lemma SameLines(c: Crypto, r: Request)
    ensures SignedMessage(c, r)
      == r.httpMethod + "\n" + r.uri + "\n" + r.timestamp + "\n" + r.nonce + "\n" + c.bodyHash(r.body)
  {
    var m, u, t, n, h := r.httpMethod, r.uri, r.timestamp, r.nonce, c.bodyHash(r.body);
    assert m + "\n" + (u + "\n" + (t + "\n" + (n + "\n" + h))) == m + "\n" + u + "\n" + (t + "\n" + (n + "\n" + h));
    assert m + "\n" + u + "\n" + (t + "\n" + (n + "\n" + h)) == m + "\n" + u + "\n" + t + "\n" + (n + "\n" + h);
    assert m + "\n" + u + "\n" + t + "\n" + (n + "\n" + h) == m + "\n" + u + "\n" + t + "\n" + n + "\n" + h;
  }

  /** The clocks are within a minute of each other, 64-bit wrap-around aside. */
  predicate Timely(now: int, ts: int) {
    -60 <= now - ts <= 60 || now - ts == INT64_LIMIT
  }

  /**
   * Which verdict a request gets before the nonce cache: each names the first thing wrong with it, in this order, and
   * nothing is wrong exactly if a current key of a registered node signed it in time.
   */
  lemma VerdictExactly(c: Crypto, nodes: map<string, Id.Node>, r: Request, t: Readings)
    requires 0 <= t.skewAt < INT64_LIMIT - 60
    ensures var verdict, ts := Screened(c, nodes, r, t), ParseInt(r.timestamp);
      if r.nodeID == "" then verdict == Legacy
      else if r.timestamp == "" || r.nonce == "" || r.signature == "" then verdict == Incomplete
      else if ts.None? then verdict == BadTimestamp
      else if !Timely(t.skewAt, ts.value) then verdict == ClockSkew
      else if r.nodeID !in nodes || !nodes[r.nodeID].registered then verdict == Revoked
      else if !exists key :: SignedByKey(c, nodes[r.nodeID], r, t.graceAt, key) then verdict == BadSignature
      else verdict == Accepted
  {
    ParseIntBounded(r.timestamp);
    hide ParseInt;
    if ParseInt(r.timestamp).Some? {
      SkewExactly(t.skewAt, ParseInt(r.timestamp).value);
    }
    hide SkewPassed;
    if r.nodeID in nodes {
      SignatureExactly(c, nodes[r.nodeID], r, t.graceAt);
    }
    hide SignatureAccepted, SignedByKey;
  }

  function NonceKey(r: Request): string {
    r.nodeID + ":" + r.nonce
  }

  // ---------- The cache ----------

  function Purged(cache: Cache, now: int): Cache {
    map k | k in cache && !(now - cache[k] > RETENTION) :: cache[k]
  }

  /** The entries a full cache gives up: any 2048 of them, in whatever order the map is iterated. */
  ghost predicate TrimChoice(cache: Cache, drop: set<string>) {
    if |cache| >= CAPACITY then drop <= cache.Keys && |drop| == TRIM else drop == {}
  }

  /** One authentication. drop is what a trim, if one is due, removes. */
  function Step(c: Crypto, nodes: map<string, Id.Node>, cache: Cache, r: Request, t: Readings, drop: set<string>)
    : (Cache, Outcome)
  {
    var verdict := Screened(c, nodes, r, t);
    if verdict != Accepted then (cache, verdict)
    else
      var live := Purged(cache, t.nonceAt);
      if NonceKey(r) in live then (live, Replay)
      else ((live - drop)[NonceKey(r) := t.nonceAt], Accepted)
  }

  class NonceGate {
    const crypto: Crypto
    var nonces: Cache

    constructor (crypto: Crypto)
      ensures nonces == map[] && this.crypto == crypto
    {
      this.crypto := crypto;
      nonces := map[];
    }

    method Purge(now: int)
      modifies this
      ensures nonces == Purged(old(nonces), now)
    {
      var keys := nonces.Keys;
      while keys != {}
        invariant nonces == map k | k in old(nonces)
                    && (k in keys || !(now - old(nonces)[k] > RETENTION)) :: old(nonces)[k]
      {
        var k :| k in keys;
        keys := keys - {k};
        if now - nonces[k] > 120 {
          nonces := nonces - {k};
        }
      }
    }

    method Trim() returns (ghost drop: set<string>)
      modifies this
      ensures TrimChoice(old(nonces), drop) && nonces == old(nonces) - drop
    {
      drop := {};
      if |nonces| >= 4096 {
        var trimmed := 0;
        var keys := nonces.Keys;
        while keys != {}
          invariant keys <= old(nonces).Keys && keys !! drop && drop <= old(nonces).Keys
          invariant |drop| == trimmed < TRIM && |keys| + trimmed == |old(nonces)|
          invariant nonces == old(nonces) - drop
        {
          var k :| k in keys;
          keys := keys - {k};
          drop := drop + {k};
          nonces := nonces - {k};
          trimmed := trimmed + 1;
          if trimmed >= 2048 {
            break;
          }
        }
      }
    }

    method Authenticate(nodes: map<string, Id.Node>, r: Request, t: Readings)
      returns (outcome: Outcome, ghost drop: set<string>)
      modifies this
      ensures (nonces, outcome) == Step(crypto, nodes, old(nonces), r, t, drop)
      ensures outcome == Accepted ==> TrimChoice(Purged(old(nonces), t.nonceAt), drop)
    {
      drop := {};
      if r.nodeID == "" {
        return Legacy, drop;
      }
      if r.timestamp == "" || r.nonce == "" || r.signature == "" {
        return Incomplete, drop;
      }
      var ts := ParseInt(r.timestamp);
      if ts.None? {
        return BadTimestamp, drop;
      }
      if Abs64(Wrap(t.skewAt - ts.value)) > 60 {
        return ClockSkew, drop;
      }
      if r.nodeID !in nodes || !nodes[r.nodeID].registered {
        return Revoked, drop;
      }
      var n := nodes[r.nodeID];
      var accepted := ValidUnder(crypto, r, n.agentSecret);
      if !accepted && n.previousSecret != "" && n.previousExpires >= t.graceAt {
        accepted := ValidUnder(crypto, r, n.previousSecret);
      }
      if !accepted {
        return BadSignature, drop;
      }
      var key := NonceKey(r);
      Purge(t.nonceAt);
      if key in nonces {
        return Replay, drop;
      }
      drop := Trim();
      nonces := nonces[key := t.nonceAt];
      return Accepted, drop;
    }
  }

  // ---------- The agent's side ----------

  /** signRequest: an agent without an identity sends the request unsigned. */
  function SignRequest(c: Crypto, nodeID: string, secret: string, now: int, nonce: string,
                       httpMethod: string, uri: string, body: string): Request
  {
    if nodeID == "" || secret == "" then Request(httpMethod, uri, body, "", "", "", "")
    else
      var ts := FormatInt(now);
      Request(httpMethod, uri, body, nodeID, ts, nonce,
              c.mac(secret, Message(httpMethod, uri, ts, nonce, c.bodyHash(body))))
  }

  /** The keys the server would try for a node. */
  function StoredKeys(nodes: map<string, Id.Node>, nodeID: string): set<string> {
    if nodeID in nodes then {nodes[nodeID].agentSecret, nodes[nodeID].previousSecret} else {}
  }

  /** None of these keys but the signer's own gives this message the signer's code. */
  ghost predicate NoCollision(c: Crypto, keys: set<string>, secret: string, message: string) {
    forall k :: k in keys && c.mac(k, message) == c.mac(secret, message) ==> k == secret
  }

  /**
   * Signer and verifier agree: a request the agent signs at second ts passes exactly when the clocks are within 60
   * seconds, the node is registered, the key is its current secret or its replaced one within the grace period, and
   * the nonce has not been seen.
   */
  lemma SignedRequestAccepted(
    c: Crypto, nodes: map<string, Id.Node>, cache: Cache, nodeID: string, secret: string, ts: int, nonce: string,
    httpMethod: string, uri: string, body: string, t: Readings, drop: set<string>)
    requires nodeID != "" && secret != "" && nonce != ""
    requires 0 <= ts < INT64_LIMIT - 60 && 0 <= t.skewAt < INT64_LIMIT - 60
    requires NoCollision(c, StoredKeys(nodes, nodeID), secret,
                         Message(httpMethod, uri, FormatInt(ts), nonce, c.bodyHash(body)))
    ensures var r := SignRequest(c, nodeID, secret, ts, nonce, httpMethod, uri, body);
      Step(c, nodes, cache, r, t, drop).1 == Accepted
      <==> (&& -60 <= t.skewAt - ts <= 60
            && nodeID in nodes
            && Id.SecretAccepted(nodes[nodeID], secret, t.graceAt)
            && (nodeID + ":" + nonce in cache ==> t.nonceAt - cache[nodeID + ":" + nonce] > 120))
  {
    hide ParseInt, FormatInt, SkewPassed, Message;
    TimestampRoundTrip(ts);
    SkewExactly(t.skewAt, ts);
  }

  // ---------- Runs ----------

  /** One authentication attempt, against the nodes as they are at that moment. */
  datatype Attempt = Attempt(nodes: map<string, Id.Node>, r: Request, t: Readings, drop: set<string>)

  datatype Entry = Entry(key: string, at: int)

  /** The cache, every acceptance so far, and how many of them were already there at the last trim. */
  datatype History = History(cache: Cache, log: seq<Entry>, sinceTrim: nat)

  ghost predicate Trims(cache: Cache, now: int) {
    |Purged(cache, now)| >= CAPACITY
  }

  ghost function Extended(c: Crypto, h: History, a: Attempt): History {
    var (cache, outcome) := Step(c, a.nodes, h.cache, a.r, a.t, a.drop);
    if outcome != Accepted then h.(cache := cache)
    else
      History(cache, h.log + [Entry(NonceKey(a.r), a.t.nonceAt)],
              if Trims(h.cache, a.t.nonceAt) then |h.log| else h.sinceTrim)
  }

  ghost function After(c: Crypto, run: seq<Attempt>): History {
    if run == [] then History(map[], [], 0) else Extended(c, After(c, run[..|run| - 1]), run[|run| - 1])
  }

  ghost function OutcomeAt(c: Crypto, run: seq<Attempt>, i: nat): Outcome
    requires i < |run|
  {
    Step(c, run[i].nodes, After(c, run[..i]).cache, run[i].r, run[i].t, run[i].drop).1
  }

  /** The attempt is accepted and finds the cache full. */
  ghost predicate TrimsAt(c: Crypto, run: seq<Attempt>, i: nat)
    requires i < |run|
  {
    OutcomeAt(c, run, i) == Accepted && Trims(After(c, run[..i]).cache, run[i].t.nonceAt)
  }

  /** Readings of one attempt are ordered, attempts reach the cache in clock order, and trims drop 2048 entries. */
  ghost predicate Possible(c: Crypto, run: seq<Attempt>) {
    && (forall i :: 0 <= i < |run| ==> 0 <= run[i].t.skewAt <= run[i].t.graceAt <= run[i].t.nonceAt < INT64_LIMIT / 2)
    && (forall i, j :: 0 <= i < j < |run| ==> run[i].t.nonceAt <= run[j].t.nonceAt)
    && (forall i :: 0 <= i < |run| && OutcomeAt(c, run, i) == Accepted ==>
          TrimChoice(Purged(After(c, run[..i]).cache, run[i].t.nonceAt), run[i].drop))
  }

  ghost predicate Logged(cache: Cache, log: seq<Entry>) {
    forall k :: k in cache ==> Entry(k, cache[k]) in log
  }

  ghost predicate Cached(cache: Cache, e: Entry) {
    e.key in cache && cache[e.key] >= e.at
  }

  ghost predicate RecentCached(cache: Cache, log: seq<Entry>, from: nat, now: int) {
    forall i :: from <= i < |log| && now - log[i].at <= RETENTION ==> Cached(cache, log[i])
  }

  ghost predicate NoneLater(log: seq<Entry>, now: int) {
    forall i :: 0 <= i < |log| ==> log[i].at <= now
  }

  /** The cache holds only logged acceptances, holds every recent one since the last trim, and is bounded. */
  ghost predicate Faithful(h: History, now: int) {
    && Logged(h.cache, h.log)
    && RecentCached(h.cache, h.log, h.sinceTrim, now)
    && NoneLater(h.log, now)
    && h.sinceTrim <= |h.log|
    && |h.cache| <= CAPACITY
  }

  lemma PurgedSmaller(cache: Cache, now: int)
    ensures |Purged(cache, now)| <= |cache|
  {
    SubsetSize(Purged(cache, now).Keys, cache.Keys);
  }

  lemma {:induction false} SubsetSize(a: set<string>, b: set<string>)
    requires a <= b
    ensures |a| <= |b|
  {
    if a != {} {
      var x :| x in a;
      SubsetSize(a - {x}, b - {x});
    }
  }

  /** Purging removes nothing that is still recent. */
  lemma PurgeKeepsRecent(cache: Cache, log: seq<Entry>, from: nat, now: int, at: int)
    requires RecentCached(cache, log, from, now) && now <= at
    ensures RecentCached(Purged(cache, at), log, from, at)
  {
    forall i | from <= i < |log| && at - log[i].at <= RETENTION ensures Cached(Purged(cache, at), log[i]) {
      assert Cached(cache, log[i]);
    }
  }

  lemma InsertKeepsRecent(cache: Cache, log: seq<Entry>, from: nat, key: string, at: int)
    requires RecentCached(cache, log, from, at) && NoneLater(log, at)
    ensures RecentCached(cache[key := at], log + [Entry(key, at)], from, at)
  {
    var log' := log + [Entry(key, at)];
    forall i | from <= i < |log'| && at - log'[i].at <= RETENTION ensures Cached(cache[key := at], log'[i]) {
      assert i < |log| ==> log'[i] == log[i] && Cached(cache, log[i]);
    }
  }

  lemma InsertKeepsLogged(cache: Cache, log: seq<Entry>, drop: set<string>, key: string, at: int)
    requires Logged(cache, log)
    ensures Logged((Purged(cache, at) - drop)[key := at], log + [Entry(key, at)])
  {
    var cache' := (Purged(cache, at) - drop)[key := at];
    forall k | k in cache' ensures Entry(k, cache'[k]) in log + [Entry(key, at)] {
      assert k != key ==> Entry(k, cache[k]) in log;
      assert (log + [Entry(key, at)])[|log|] == Entry(key, at);
    }
  }

  lemma RemovalSize(cache: Cache, drop: set<string>)
    requires drop <= cache.Keys
    ensures |cache - drop| == |cache| - |drop|
  {
    assert (cache - drop).Keys == cache.Keys - drop;
  }

  lemma InsertionSize(cache: Cache, key: string, at: int)
    ensures |cache[key := at]| <= |cache| + 1
  {
    assert cache[key := at].Keys == cache.Keys + {key};
  }

  /** A trim makes room for the insertion; without one there is room already. */
  lemma InsertKeepsBound(cache: Cache, drop: set<string>, key: string, at: int)
    requires |cache| <= 4096 && TrimChoice(Purged(cache, at), drop)
    ensures |(Purged(cache, at) - drop)[key := at]| <= 4096
  {
    hide Purged;
    PurgedSmaller(cache, at);
    RemovalSize(Purged(cache, at), drop);
    InsertionSize(Purged(cache, at) - drop, key, at);
  }

  lemma AcceptKeepsFaithful(h: History, key: string, at: int, now: int, drop: set<string>)
    requires Faithful(h, now) && now <= at
    requires TrimChoice(Purged(h.cache, at), drop)
    ensures Faithful(History((Purged(h.cache, at) - drop)[key := at], h.log + [Entry(key, at)],
                             if Trims(h.cache, at) then |h.log| else h.sinceTrim), at)
  {
    hide Purged;
    InsertKeepsLogged(h.cache, h.log, drop, key, at);
    InsertKeepsBound(h.cache, drop, key, at);
    PurgeKeepsRecent(h.cache, h.log, h.sinceTrim, now, at);
    if drop == {} {
      assert Purged(h.cache, at) - drop == Purged(h.cache, at);
    }
    InsertKeepsRecent(Purged(h.cache, at) - drop, h.log, if Trims(h.cache, at) then |h.log| else h.sinceTrim, key, at);
  }

  /** The latest cache time of a run. */
  ghost function Clock(run: seq<Attempt>): int {
    if run == [] then 0 else run[|run| - 1].t.nonceAt
  }

  lemma AttemptKeepsFaithful(c: Crypto, h: History, a: Attempt, now: int)
    requires Faithful(h, now) && now <= a.t.nonceAt
    requires Step(c, a.nodes, h.cache, a.r, a.t, a.drop).1 == Accepted ==>
      TrimChoice(Purged(h.cache, a.t.nonceAt), a.drop)
    ensures Faithful(Extended(c, h, a), a.t.nonceAt)
  {
    hide Screened, RecentCached, TrimChoice;
    PurgeKeepsRecent(h.cache, h.log, h.sinceTrim, now, a.t.nonceAt);
    LaterRecent(h.cache, h.log, h.sinceTrim, now, a.t.nonceAt);
    PurgedSmaller(h.cache, a.t.nonceAt);
    if Step(c, a.nodes, h.cache, a.r, a.t, a.drop).1 == Accepted {
      AcceptKeepsFaithful(h, NonceKey(a.r), a.t.nonceAt, now, a.drop);
    }
  }

  lemma LaterRecent(cache: Cache, log: seq<Entry>, from: nat, now: int, later: int)
    requires RecentCached(cache, log, from, now) && now <= later
    ensures RecentCached(cache, log, from, later)
  {
  }

  lemma PrefixPossible(c: Crypto, run: seq<Attempt>, n: nat)
    requires Possible(c, run) && n <= |run|
    ensures Possible(c, run[..n])
  {
    forall i | 0 <= i < n
      ensures OutcomeAt(c, run[..n], i) == OutcomeAt(c, run, i) && After(c, run[..n][..i]) == After(c, run[..i])
    {
      assert run[..n][..i] == run[..i];
    }
  }

  lemma {:induction false} RunFaithful(c: Crypto, run: seq<Attempt>)
    requires Possible(c, run)
    ensures Faithful(After(c, run), Clock(run))
  {
    hide Step, Faithful, Screened;
    if run == [] {
      EmptyFaithful();
    } else {
      var n := |run| - 1;
      PrefixPossible(c, run, n);
      RunFaithful(c, run[..n]);
      assert OutcomeAt(c, run, n) == Accepted ==>
          TrimChoice(Purged(After(c, run[..n]).cache, run[n].t.nonceAt), run[n].drop);
      AttemptKeepsFaithful(c, After(c, run[..n]), run[n], Clock(run[..n]));
    }
  }

  lemma EmptyFaithful()
    ensures Faithful(History(map[], [], 0), 0)
  {
  }

  // ---------- Theorems ----------

  /** Nothing unsigned is accepted: over any run, every accepted request is timely and signed by a key of its node. */
  lemma AcceptedIsSigned(c: Crypto, run: seq<Attempt>, i: nat)
    requires Possible(c, run) && i < |run| && OutcomeAt(c, run, i) == Accepted
    ensures var r, nodes, t := run[i].r, run[i].nodes, run[i].t;
      && r.nodeID in nodes && nodes[r.nodeID].registered
      && ParseInt(r.timestamp).Some? && Timely(t.skewAt, ParseInt(r.timestamp).value)
      && exists key :: SignedByKey(c, nodes[r.nodeID], r, t.graceAt, key)
  {
    VerdictExactly(c, run[i].nodes, run[i].r, run[i].t);
    hide After, Screened, ParseInt, SignedByKey;
  }

  /** The entries of the last 120 seconds. */
  ghost function LiveKeys(cache: Cache, at: int): set<string> {
    set k | k in cache && at - cache[k] <= 120
  }

  lemma LiveKeysSize(before: Cache, at: int)
    ensures Purged(before, at).Keys == LiveKeys(before, at) && |Purged(before, at)| == |LiveKeys(before, at)|
  {
  }

  lemma InsertedSize(cache: Cache, key: string, at: int)
    requires key !in cache
    ensures |cache[key := at]| == |cache| + 1
  {
    assert cache[key := at].Keys == cache.Keys + {key};
  }

  lemma InsertedInto(before: Cache, key: string, at: int, drop: set<string>)
    requires key !in Purged(before, at) && TrimChoice(Purged(before, at), drop)
    ensures var live, after := LiveKeys(before, at), (Purged(before, at) - drop)[key := at];
      && (forall k :: k in after && k != key ==> k in live && after[k] == before[k])
      && |after| == (if |live| >= 4096 then |live| - 2048 + 1 else |live| + 1)
  {
    var purged := Purged(before, at);
    LiveKeysSize(before, at);
    assert forall k :: k in purged ==> purged[k] == before[k];
    hide Purged, LiveKeys;
    RemovalSize(purged, drop);
    InsertedSize(purged - drop, key, at);
  }

  /** What an acceptance leaves in the cache: the live entries and its own, less exactly 2048 if 4096 were live. */
  lemma AcceptanceLeaves(c: Crypto, run: seq<Attempt>, i: nat)
    requires Possible(c, run) && i < |run| && OutcomeAt(c, run, i) == Accepted
    ensures var before, after, at := After(c, run[..i]).cache, After(c, run[..i + 1]).cache, run[i].t.nonceAt;
      var live, key := LiveKeys(before, at), NonceKey(run[i].r);
      && key in after && after[key] == at
      && (forall k :: k in after && k != key ==> k in live && after[k] == before[k])
      && |after| == (if |live| >= 4096 then |live| - 2048 + 1 else |live| + 1)
  {
    hide Screened, After, Purged, TrimChoice, LiveKeys, Trims;
    AfterStep(c, run, i);
    InsertedInto(After(c, run[..i]).cache, NonceKey(run[i].r), run[i].t.nonceAt, run[i].drop);
  }

  /** The cache never holds more than 4096 entries. */
  lemma CacheBounded(c: Crypto, run: seq<Attempt>)
    requires Possible(c, run)
    ensures |After(c, run).cache| <= 4096
  {
    RunFaithful(c, run);
  }

  /** Event i - 1 takes the run from its prefix before it to its prefix after it. */
  lemma AfterStep(c: Crypto, run: seq<Attempt>, i: nat)
    requires i < |run|
    ensures After(c, run[..i + 1]) == Extended(c, After(c, run[..i]), run[i])
  {
    hide Extended;
    assert run[..i + 1][..i] == run[..i];
  }

  /** An attempt adds at most its own acceptance to the log; only a trim moves the mark. */
  lemma LogStep(c: Crypto, run: seq<Attempt>, i: nat)
    requires i < |run|
    ensures var h, h' := After(c, run[..i]), After(c, run[..i + 1]);
      && h'.log == (if OutcomeAt(c, run, i) == Accepted
                    then h.log + [Entry(NonceKey(run[i].r), run[i].t.nonceAt)] else h.log)
      && h'.sinceTrim == (if TrimsAt(c, run, i) then |h.log| else h.sinceTrim)
  {
    hide Step, After, Trims;
    AfterStep(c, run, i);
  }

  /** Without a trim, an acceptance at event i is still in the log, after the last trim, at event j. */
  lemma {:induction false} AcceptanceRemembered(c: Crypto, run: seq<Attempt>, i: nat, j: nat) returns (p: nat)
    requires Possible(c, run) && i < j <= |run|
    requires OutcomeAt(c, run, i) == Accepted
    requires forall k :: i < k < j ==> !TrimsAt(c, run, k)
    ensures After(c, run[..j]).sinceTrim <= p < |After(c, run[..j]).log|
    ensures After(c, run[..j]).log[p] == Entry(NonceKey(run[i].r), run[i].t.nonceAt)
    decreases j
  {
    hide After, OutcomeAt, TrimsAt, Possible;
    LogStep(c, run, j - 1);
    if j == i + 1 {
      PrefixPossible(c, run, i);
      RunFaithful(c, run[..i]);
      p := |After(c, run[..i]).log|;
    } else {
      p := AcceptanceRemembered(c, run, i, j - 1);
    }
  }

  /** If the key was accepted at event i and no trim intervened, an acceptance at j comes over 120 seconds later. */
  lemma RepeatIsLate(c: Crypto, run: seq<Attempt>, i: nat, j: nat)
    requires Possible(c, run) && i < j < |run|
    requires OutcomeAt(c, run, i) == Accepted && OutcomeAt(c, run, j) == Accepted
    requires NonceKey(run[i].r) == NonceKey(run[j].r)
    requires forall k :: i < k < j ==> !TrimsAt(c, run, k)
    ensures run[j].t.nonceAt - run[i].t.nonceAt > 120
  {
    hide Screened, After, Trims;
    var h := After(c, run[..j]);
    PrefixPossible(c, run, j);
    RunFaithful(c, run[..j]);
    LaterRecent(h.cache, h.log, h.sinceTrim, Clock(run[..j]), run[j].t.nonceAt);
    var p := AcceptanceRemembered(c, run, i, j);
    var e := h.log[p];
    assert run[j].t.nonceAt - e.at > RETENTION || Cached(h.cache, e);
  }

  /**
   * A request accepted twice. With the same node, timestamp and nonce, and no trim in between, the second attempt must
   * have spent strictly longer than the first between its skew test and its cache lookup.
   */
  lemma RepeatNeedsTrimOrDelay(c: Crypto, run: seq<Attempt>, i: nat, j: nat)
    requires Possible(c, run) && i < j < |run|
    requires OutcomeAt(c, run, i) == Accepted && OutcomeAt(c, run, j) == Accepted
    requires run[i].r.nodeID == run[j].r.nodeID && run[i].r.nonce == run[j].r.nonce
    requires run[i].r.timestamp == run[j].r.timestamp
    requires forall k :: i < k < j ==> !TrimsAt(c, run, k)
    ensures run[j].t.nonceAt - run[j].t.skewAt > run[i].t.nonceAt - run[i].t.skewAt
  {
    RepeatIsLate(c, run, i, j);
    SkewOfAccepted(c, run, i);
    SkewOfAccepted(c, run, j);
  }

  lemma SkewOfAccepted(c: Crypto, run: seq<Attempt>, i: nat)
    requires Possible(c, run) && i < |run| && OutcomeAt(c, run, i) == Accepted
    ensures ParseInt(run[i].r.timestamp).Some?
    ensures var d := run[i].t.skewAt - ParseInt(run[i].r.timestamp).value;
      -60 <= d <= 60 || d == INT64_LIMIT
  {
    hide After, SkewPassed;
    ParseIntBounded(run[i].r.timestamp);
    SkewExactly(run[i].t.skewAt, ParseInt(run[i].r.timestamp).value);
  }

  lemma ParseIntBounded(s: string)
    ensures ParseInt(s).Some? ==> -INT64_LIMIT <= ParseInt(s).value < INT64_LIMIT
  {
  }

  /** With one clock reading per attempt, no request is accepted twice unless a trim came in between. */
  lemma NoReplayWithoutTrim(c: Crypto, run: seq<Attempt>, i: nat, j: nat)
    requires Possible(c, run) && i < j < |run|
    requires run[j].t.skewAt == run[j].t.nonceAt
    requires OutcomeAt(c, run, i) == Accepted && OutcomeAt(c, run, j) == Accepted
    requires run[i].r.nodeID == run[j].r.nodeID && run[i].r.nonce == run[j].r.nonce
    requires run[i].r.timestamp == run[j].r.timestamp
    ensures exists k :: i < k < j && TrimsAt(c, run, k)
  {
    if forall k :: i < k < j ==> !TrimsAt(c, run, k) {
      RepeatNeedsTrimOrDelay(c, run, i, j);
    }
  }

  // ---------- How often a trim can happen ----------

  /** How many of the logged acceptances fall between lo and hi, both included. */
  ghost function Accepts(log: seq<Entry>, lo: int, hi: int): nat {
    if log == [] then 0
    else Accepts(log[..|log| - 1], lo, hi) + (if lo <= log[|log| - 1].at <= hi then 1 else 0)
  }

  ghost function KeysWithin(log: seq<Entry>, lo: int, hi: int): set<string> {
    if log == [] then {}
    else
      var e := log[|log| - 1];
      KeysWithin(log[..|log| - 1], lo, hi) + (if lo <= e.at <= hi then {e.key} else {})
  }

  lemma {:induction false} KeysCounted(log: seq<Entry>, lo: int, hi: int)
    ensures |KeysWithin(log, lo, hi)| <= Accepts(log, lo, hi)
    ensures forall e :: e in log && lo <= e.at <= hi ==> e.key in KeysWithin(log, lo, hi)
  {
    if log != [] {
      KeysCounted(log[..|log| - 1], lo, hi);
      assert log == log[..|log| - 1] + [log[|log| - 1]];
    }
  }

  /** Live entries are distinct acceptances of the last 120 seconds. */
  lemma LiveEntriesCounted(h: History, now: int, at: int)
    requires Faithful(h, now) && now <= at
    ensures |Purged(h.cache, at)| <= Accepts(h.log, at - 120, at)
  {
    var live := Purged(h.cache, at);
    KeysCounted(h.log, at - RETENTION, at);
    forall k | k in live ensures k in KeysWithin(h.log, at - RETENTION, at) {
      assert Entry(k, h.cache[k]) in h.log;
    }
    SubsetSize(live.Keys, KeysWithin(h.log, at - RETENTION, at));
  }

  /** The acceptances of the 120 seconds that end with attempt k, that attempt included. */
  ghost function Load(c: Crypto, run: seq<Attempt>, k: nat): nat
    requires k < |run|
  {
    Accepts(After(c, run[..k + 1]).log, run[k].t.nonceAt - 120, run[k].t.nonceAt)
  }

  /** A trim happens only when 4097 acceptances, the present one included, fall into one 120-second window. */
  lemma TrimNeedsBurst(c: Crypto, run: seq<Attempt>, k: nat)
    requires Possible(c, run) && k < |run| && TrimsAt(c, run, k)
    ensures Load(c, run, k) > 4096
  {
    hide Step, After, Faithful, Screened;
    PrefixPossible(c, run, k);
    RunFaithful(c, run[..k]);
    var at := run[k].t.nonceAt;
    LiveEntriesCounted(After(c, run[..k]), Clock(run[..k]), at);
    LogStep(c, run, k);
    AcceptsSnoc(After(c, run[..k]).log, Entry(NonceKey(run[k].r), at), at - RETENTION, at);
  }

  lemma AcceptsSnoc(log: seq<Entry>, e: Entry, lo: int, hi: int)
    ensures Accepts(log + [e], lo, hi) == Accepts(log, lo, hi) + (if lo <= e.at <= hi then 1 else 0)
  {
    assert (log + [e])[..|log|] == log;
  }

  /** A server that never sees more than 4096 acceptances within 120 seconds never accepts a request twice. */
  lemma NoReplay(c: Crypto, run: seq<Attempt>, i: nat, j: nat)
    requires Possible(c, run) && i < j < |run|
    requires forall k :: i < k < j ==> Load(c, run, k) <= 4096
    requires run[j].t.skewAt == run[j].t.nonceAt
    requires run[i].r.nodeID == run[j].r.nodeID && run[i].r.nonce == run[j].r.nonce
    requires run[i].r.timestamp == run[j].r.timestamp
    ensures !(OutcomeAt(c, run, i) == Accepted && OutcomeAt(c, run, j) == Accepted)
  {
    hide OutcomeAt, TrimsAt, Load, Possible;
    if OutcomeAt(c, run, i) == Accepted && OutcomeAt(c, run, j) == Accepted {
      NoReplayWithoutTrim(c, run, i, j);
      var k :| i < k < j && TrimsAt(c, run, k);
      TrimNeedsBurst(c, run, k);
    }
  }

  /** Every logged acceptance was there at event i or was made by an event since. */
  lemma {:induction false} LogOrigin(c: Crypto, run: seq<Attempt>, i: nat, j: nat, e: Entry)
    requires i <= j <= |run| && e in After(c, run[..j]).log
    ensures e in After(c, run[..i]).log
      || exists k :: i <= k < j && OutcomeAt(c, run, k) == Accepted && e == Entry(NonceKey(run[k].r), run[k].t.nonceAt)
    decreases j
  {
    hide After, OutcomeAt, TrimsAt, NonceKey;
    if i < j {
      LogStep(c, run, j - 1);
      if e in After(c, run[..j - 1]).log {
        LogOrigin(c, run, i, j - 1, e);
      }
    }
  }

  /** Ids without a colon, such as all that the server hands out, are told apart from nonces in the cache's keys. */
  lemma NonceKeyInjective(r: Request, r': Request)
    requires ':' !in r.nodeID && ':' !in r'.nodeID && NonceKey(r) == NonceKey(r')
    ensures r.nodeID == r'.nodeID && r.nonce == r'.nonce
  {
    var s, s' := NonceKey(r), NonceKey(r');
    assert s[|r.nodeID|] == ':' && s'[|r'.nodeID|] == ':';
    assert forall i :: 0 <= i < |r.nodeID| ==> s[i] == r.nodeID[i];
    assert forall i :: 0 <= i < |r'.nodeID| ==> s'[i] == r'.nodeID[i];
    assert s[..|r.nodeID|] == r.nodeID && s'[..|r'.nodeID|] == r'.nodeID;
    assert s[|r.nodeID| + 1..] == r.nonce && s'[|r'.nodeID| + 1..] == r'.nonce;
  }

  /** The two requests are from one node with one nonce, as far as their ids are free of colons. */
  ghost predicate SameNonce(r: Request, r': Request) {
    && NonceKey(r) == NonceKey(r')
    && (':' !in r.nodeID && ':' !in r'.nodeID ==> r.nodeID == r'.nodeID && r.nonce == r'.nonce)
  }

  /**
   * Nothing fresh is mistaken for a replay: a request is refused as one only if a request of the same node with the
   * same nonce was accepted in the last 120 seconds.
   */
  lemma ReplayIsReal(c: Crypto, run: seq<Attempt>, j: nat)
    requires Possible(c, run) && j < |run| && OutcomeAt(c, run, j) == Replay
    ensures exists i ::
      && 0 <= i < j && OutcomeAt(c, run, i) == Accepted && SameNonce(run[i].r, run[j].r)
      && run[j].t.nonceAt - run[i].t.nonceAt <= 120
  {
    hide Screened, After, NonceKey;
    var h, key := After(c, run[..j]), NonceKey(run[j].r);
    var e := Entry(key, h.cache[key]);
    PrefixPossible(c, run, j);
    RunFaithful(c, run[..j]);
    FaithfulLogs(h, Clock(run[..j]), key);
    LogOrigin(c, run, 0, j, e);
    StartsEmpty(c, run);
    var i :| 0 <= i < j && OutcomeAt(c, run, i) == Accepted && e == Entry(NonceKey(run[i].r), run[i].t.nonceAt);
    if ':' !in run[i].r.nodeID && ':' !in run[j].r.nodeID {
      NonceKeyInjective(run[i].r, run[j].r);
    }
    assert SameNonce(run[i].r, run[j].r);
  }

  lemma StartsEmpty(c: Crypto, run: seq<Attempt>)
    ensures After(c, run[..0]) == History(map[], [], 0)
  {
    assert run[..0] == [];
  }

  /**
   * Exactly when a repeat is accepted: after an acceptance at event i, with no trim and no acceptance of the same key
   * in between, attempt j with that key is accepted iff it passes the checks before the cache and reaches the cache
   * more than 120 seconds after attempt i did.
   */
  lemma RepeatAcceptedExactly(c: Crypto, run: seq<Attempt>, i: nat, j: nat)
    requires Possible(c, run) && i < j < |run| && OutcomeAt(c, run, i) == Accepted
    requires NonceKey(run[i].r) == NonceKey(run[j].r)
    requires forall k :: i < k < j ==> !TrimsAt(c, run, k)
    requires forall k :: i < k < j && OutcomeAt(c, run, k) == Accepted ==> NonceKey(run[k].r) != NonceKey(run[i].r)
    ensures OutcomeAt(c, run, j) == Accepted
      <==> Screened(c, run[j].nodes, run[j].r, run[j].t) == Accepted && run[j].t.nonceAt - run[i].t.nonceAt > 120
  {
    hide Screened, After, Trims, Faithful, NonceKey;
    if OutcomeAt(c, run, j) == Accepted {
      RepeatIsLate(c, run, i, j);
    } else if Screened(c, run[j].nodes, run[j].r, run[j].t) == Accepted {
      var h, key := After(c, run[..j]), NonceKey(run[j].r);
      var e := Entry(key, h.cache[key]);
      PrefixPossible(c, run, j);
      RunFaithful(c, run[..j]);
      FaithfulLogs(h, Clock(run[..j]), key);
      LogOrigin(c, run, i + 1, j, e);
      PrefixPossible(c, run, i + 1);
      RunFaithful(c, run[..i + 1]);
      FaithfulTimes(After(c, run[..i + 1]), Clock(run[..i + 1]), e);
    }
  }

  // ---------- Repeats in the presence of trims ----------

  /** Attempt k trims the cache, and the key is among what it drops. */
  ghost predicate DropsAt(c: Crypto, run: seq<Attempt>, k: nat, key: string)
    requires k < |run|
  {
    OutcomeAt(c, run, k) == Accepted && key in run[k].drop
  }

  /** What has become of the key accepted at event i: still cached with that time, dropped by a trim, or purged. */
  ghost predicate Remembered(c: Crypto, run: seq<Attempt>, i: nat, j: nat)
    requires i < j <= |run|
  {
    var key, cache := NonceKey(run[i].r), After(c, run[..j]).cache;
    && (key in cache ==> cache[key] == run[i].t.nonceAt && forall k :: i < k < j ==> !DropsAt(c, run, k, key))
    && (key !in cache ==>
          || (exists k :: i < k < j && DropsAt(c, run, k, key))
          || Clock(run[..j]) - run[i].t.nonceAt > RETENTION)
  }

  /** One attempt of another key leaves a cached entry alone, purges it, or drops it in a trim. */
  lemma OtherKeyStep(c: Crypto, run: seq<Attempt>, k: nat, key: string)
    requires k < |run| && (OutcomeAt(c, run, k) == Accepted ==> NonceKey(run[k].r) != key)
    ensures var cache, cache' := After(c, run[..k]).cache, After(c, run[..k + 1]).cache;
      && (key in cache' ==> key in cache && cache'[key] == cache[key] && !DropsAt(c, run, k, key))
      && (key in cache && key !in cache' ==> DropsAt(c, run, k, key) || run[k].t.nonceAt - cache[key] > 120)
  {
    hide After, Screened, Trims;
    AfterStep(c, run, k);
  }

  /** The attempt itself caches its key. */
  lemma OwnKeyStep(c: Crypto, run: seq<Attempt>, i: nat)
    requires i < |run| && OutcomeAt(c, run, i) == Accepted
    ensures var cache := After(c, run[..i + 1]).cache;
      NonceKey(run[i].r) in cache && cache[NonceKey(run[i].r)] == run[i].t.nonceAt
  {
    hide After, Screened, Trims;
    AfterStep(c, run, i);
  }

  lemma {:induction false} KeyRemembered(c: Crypto, run: seq<Attempt>, i: nat, j: nat)
    requires Possible(c, run) && i < j <= |run| && OutcomeAt(c, run, i) == Accepted
    requires forall k :: i < k < j && OutcomeAt(c, run, k) == Accepted ==> NonceKey(run[k].r) != NonceKey(run[i].r)
    ensures Remembered(c, run, i, j)
    decreases j
  {
    hide After, OutcomeAt, NonceKey, TrimChoice;
    if j == i + 1 {
      OwnKeyStep(c, run, i);
    } else {
      KeyRemembered(c, run, i, j - 1);
      OtherKeyStep(c, run, j - 1, NonceKey(run[i].r));
      hide DropsAt;
      assert Clock(run[..j - 1]) <= Clock(run[..j]) == run[j - 1].t.nonceAt;
    }
  }

  /**
   * Exactly when a repeat is accepted, trims included: after the latest acceptance of its key, at event i, attempt j
   * with that key is accepted iff it passes the checks before the cache, and either reaches the cache more than 120
   * seconds after attempt i did or a trim in between dropped the key.
   */
  lemma RepeatAcceptedExactlyWithTrims(c: Crypto, run: seq<Attempt>, i: nat, j: nat)
    requires Possible(c, run) && i < j < |run| && OutcomeAt(c, run, i) == Accepted
    requires NonceKey(run[i].r) == NonceKey(run[j].r)
    requires forall k :: i < k < j && OutcomeAt(c, run, k) == Accepted ==> NonceKey(run[k].r) != NonceKey(run[i].r)
    ensures OutcomeAt(c, run, j) == Accepted
      <==> && Screened(c, run[j].nodes, run[j].r, run[j].t) == Accepted
           && (|| run[j].t.nonceAt - run[i].t.nonceAt > 120
               || exists k :: i < k < j && DropsAt(c, run, k, NonceKey(run[i].r)))
  {
    hide Screened, After, NonceKey, DropsAt, TrimChoice;
    KeyRemembered(c, run, i, j);
    assert Clock(run[..j]) <= run[j].t.nonceAt;
  }

  /** The i-th request of a burst: one agent, one second, a different nonce each time. */
  function BurstRequest(c: Crypto, n: Id.Node, i: nat): Request {
    SignRequest(c, "n", n.agentSecret, 0, DecimalDigits(i), "POST", "/", "")
  }

  function BurstKey(i: nat): string {
    "n" + ":" + DecimalDigits(i)
  }

  function BurstKeys(m: nat): set<string> {
    if m == 0 then {} else BurstKeys(m - 1) + {BurstKey(m - 1)}
  }

  /** 4097 requests, the last of which drops the keys of the first 2048, and then the first request again. */
  function Burst(c: Crypto, n: Id.Node): seq<Attempt> {
    seq(CAPACITY + 2, i requires 0 <= i < CAPACITY + 2 => BurstAttempt(c, n, i))
  }

  function BurstAttempt(c: Crypto, n: Id.Node, i: nat): Attempt {
    Attempt(map["n" := n], BurstRequest(c, n, if i <= CAPACITY then i else 0), Readings(0, 0, 0),
            if i == CAPACITY then BurstKeys(TRIM) else {})
  }

  lemma {:induction false} BurstKeysHold(m: nat, i: nat)
    ensures BurstKey(i) in BurstKeys(m) <==> i < m
    ensures |BurstKeys(m)| == m
    decreases m
  {
    if m > 0 {
      BurstKeysHold(m - 1, i);
      BurstKeysHold(m - 1, m - 1);
      if BurstKey(i) == BurstKey(m - 1) {
        assert BurstKey(i)[2..] == DecimalDigits(i) && BurstKey(m - 1)[2..] == DecimalDigits(m - 1);
        ParseDecimalDigits(i);
        ParseDecimalDigits(m - 1);
      }
    }
  }

  lemma {:induction false} BurstKeysGrow(m: nat, m': nat)
    requires m <= m'
    ensures BurstKeys(m) <= BurstKeys(m')
    decreases m'
  {
    if m < m' {
      BurstKeysGrow(m, m' - 1);
    }
  }

  lemma BurstScreened(c: Crypto, n: Id.Node, i: nat)
    requires n.registered && n.agentSecret != ""
    ensures Screened(c, map["n" := n], BurstRequest(c, n, i), Readings(0, 0, 0)) == Accepted
    ensures NonceKey(BurstRequest(c, n, i)) == BurstKey(i)
  {
    ParseDecimalDigits(i);
    hide ParseInt, FormatInt, SkewPassed, DecimalDigits;
    TimestampRoundTrip(0);
    SkewExactly(0, 0);
  }

  function BurstCache(m: nat): Cache {
    map k | k in BurstKeys(m) :: 0
  }

  lemma BurstStep(c: Crypto, n: Id.Node, m: nat)
    requires n.registered && n.agentSecret != "" && m < 4096
    ensures var a := BurstAttempt(c, n, m);
      Step(c, a.nodes, BurstCache(m), a.r, a.t, a.drop) == (BurstCache(m + 1), Accepted)
    ensures TrimChoice(Purged(BurstCache(m), 0), {})
  {
    hide Screened, BurstRequest, BurstKey;
    BurstScreened(c, n, m);
    BurstKeysHold(m, m);
    assert Purged(BurstCache(m), 0) == BurstCache(m);
    assert BurstCache(m).Keys == BurstKeys(m);
    assert (BurstCache(m) - {})[BurstKey(m) := 0] == BurstCache(m + 1);
  }

  lemma {:induction false} BurstFills(c: Crypto, n: Id.Node, m: nat)
    requires n.registered && n.agentSecret != "" && m <= 4096
    ensures After(c, Burst(c, n)[..m]).cache == BurstCache(m)
    decreases m
  {
    var run := Burst(c, n);
    hide Burst, After, Step, BurstAttempt, BurstCache, Trims;
    if m == 0 {
      StartsEmpty(c, run);
      assert BurstCache(0) == map[] by {
        NoBurstCache();
      }
    } else {
      BurstFills(c, n, m - 1);
      BurstStep(c, n, m - 1);
      BurstAt(c, n, m - 1);
      AfterStep(c, run, m - 1);
    }
  }

  lemma NoBurstCache()
    ensures BurstCache(0) == map[]
  {
  }

  lemma BurstAt(c: Crypto, n: Id.Node, i: nat)
    requires i < 4096 + 2
    ensures |Burst(c, n)| == 4096 + 2 && Burst(c, n)[i] == BurstAttempt(c, n, i)
    ensures Burst(c, n)[i].t == Readings(0, 0, 0)
  {
  }

  lemma BurstTrims(c: Crypto, n: Id.Node)
    requires n.registered && n.agentSecret != ""
    ensures var a := BurstAttempt(c, n, 4096);
      && Step(c, a.nodes, BurstCache(4096), a.r, a.t, a.drop)
         == ((BurstCache(4096) - BurstKeys(2048))[BurstKey(4096) := 0], Accepted)
      && TrimChoice(Purged(BurstCache(4096), 0), a.drop) && |Purged(BurstCache(4096), 0)| == 4096
  {
    hide Screened, BurstRequest, BurstKey, BurstKeys;
    BurstScreened(c, n, CAPACITY);
    BurstKeysHold(CAPACITY, CAPACITY);
    BurstKeysHold(TRIM, 0);
    BurstKeysGrow(TRIM, CAPACITY);
    assert Purged(BurstCache(CAPACITY), 0) == BurstCache(CAPACITY);
    assert BurstCache(CAPACITY).Keys == BurstKeys(CAPACITY);
  }

  lemma BurstRepeats(c: Crypto, n: Id.Node)
    requires n.registered && n.agentSecret != ""
    ensures var a := BurstAttempt(c, n, 4096 + 1);
      var cache := (BurstCache(4096) - BurstKeys(2048))[BurstKey(4096) := 0];
      Step(c, a.nodes, cache, a.r, a.t, a.drop).1 == Accepted && TrimChoice(Purged(cache, 0), a.drop)
  {
    hide Screened, BurstRequest, BurstKey, BurstKeys;
    var cache := (BurstCache(CAPACITY) - BurstKeys(TRIM))[BurstKey(CAPACITY) := 0];
    BurstScreened(c, n, 0);
    BurstKeysHold(TRIM, 0);
    BurstKeysHold(CAPACITY, CAPACITY);
    BurstKeysHold(CAPACITY, 0);
    BurstKeysHold(TRIM, CAPACITY);
    BurstKeysGrow(TRIM, CAPACITY);
    assert BurstKey(0) !in cache;
    assert Purged(cache, 0) == cache;
    assert cache.Keys == BurstKeys(CAPACITY) - BurstKeys(TRIM) + {BurstKey(CAPACITY)};
  }

  /** The events of the burst, each at its place in the run. */
  lemma BurstOutcome(c: Crypto, n: Id.Node, i: nat)
    requires n.registered && n.agentSecret != "" && i < 4096 + 2
    ensures var run := Burst(c, n);
      && i < |run| && OutcomeAt(c, run, i) == Accepted
      && TrimChoice(Purged(After(c, run[..i]).cache, run[i].t.nonceAt), run[i].drop)
      && (i == 4096 ==> TrimsAt(c, run, i))
  {
    var run := Burst(c, n);
    hide Burst, After, Step, BurstAttempt, BurstCache, BurstKeys, BurstKey, TrimChoice, Purged;
    BurstAt(c, n, i);
    BurstFills(c, n, if i < CAPACITY then i else CAPACITY);
    if i < CAPACITY {
      BurstStep(c, n, i);
      BurstDrops(c, n, i);
    } else {
      BurstTrims(c, n);
      if i == CAPACITY + 1 {
        BurstAt(c, n, CAPACITY);
        AfterStep(c, run, CAPACITY);
        BurstRepeats(c, n);
      }
    }
  }

  lemma BurstDrops(c: Crypto, n: Id.Node, i: nat)
    requires i != 4096
    ensures BurstAttempt(c, n, i).drop == {} && BurstAttempt(c, n, i).t.nonceAt == 0
  {
  }

  /** A trim lets a repeat through: after a burst of 4097 acceptances the first request is accepted a second time. */
  lemma TrimmedRepeatAccepted(c: Crypto, n: Id.Node)
    requires n.registered && n.agentSecret != ""
    ensures var run := Burst(c, n);
      && Possible(c, run) && |run| == 4096 + 2
      && run[0].r == run[4096 + 1].r && run[0].t == run[4096 + 1].t
      && OutcomeAt(c, run, 0) == Accepted && OutcomeAt(c, run, 4096 + 1) == Accepted
  {
    var run := Burst(c, n);
    hide After, OutcomeAt, TrimChoice, Purged, BurstKeys, BurstRequest, TrimsAt;
    BurstOutcome(c, n, 0);
    BurstOutcome(c, n, CAPACITY + 1);
    forall i | 0 <= i < |run|
      ensures OutcomeAt(c, run, i) == Accepted
      ensures TrimChoice(Purged(After(c, run[..i]).cache, run[i].t.nonceAt), run[i].drop)
    {
      BurstOutcome(c, n, i);
    }
  }

  lemma FaithfulLogs(h: History, now: int, key: string)
    requires Faithful(h, now) && key in h.cache
    ensures Entry(key, h.cache[key]) in h.log
  {
  }

  lemma FaithfulTimes(h: History, now: int, e: Entry)
    requires Faithful(h, now)
    ensures e in h.log ==> e.at <= now
  {
  }

  lemma EmptyCacheAccepts(c: Crypto, nodes: map<string, Id.Node>, cache: Cache, r: Request, t: Readings)
    requires Screened(c, nodes, r, t) == Accepted
    requires forall k :: k in cache ==> t.nonceAt - cache[k] > 120
    ensures Step(c, nodes, cache, r, t, {}) == (map[NonceKey(r) := t.nonceAt], Accepted)
    ensures Purged(cache, t.nonceAt) == map[] && TrimChoice(Purged(cache, t.nonceAt), {})
  {
    var none: set<string>, live := {}, Purged(cache, t.nonceAt);
    assert live == map[];
    assert live - none == live;
  }

  /** A body that is slow to arrive can turn the delay into a second acceptance: one second is enough. */
  lemma SlowRepeatAccepted(c: Crypto, n: Id.Node)
    requires n.registered && n.agentSecret != ""
    ensures var nodes := map["n" := n];
      var r := SignRequest(c, "n", n.agentSecret, 60, "x", "POST", "/", "");
      var run := [Attempt(nodes, r, Readings(0, 0, 0), {}), Attempt(nodes, r, Readings(120, 120, 121), {})];
      Possible(c, run) && OutcomeAt(c, run, 0) == Accepted && OutcomeAt(c, run, 1) == Accepted
  {
    var nodes := map["n" := n];
    var r := SignRequest(c, "n", n.agentSecret, 60, "x", "POST", "/", "");
    var t0, t1 := Readings(0, 0, 0), Readings(120, 120, 121);
    var first, second := Attempt(nodes, r, t0, {}), Attempt(nodes, r, t1, {});
    var run := [first, second];
    assert Screened(c, nodes, r, t0) == Accepted && Screened(c, nodes, r, t1) == Accepted by {
      hide ParseInt, FormatInt, SkewPassed;
      TimestampRoundTrip(60);
      SkewExactly(0, 60);
      SkewExactly(120, 60);
    }
    hide Screened, Step, Purged, TrimChoice, SignRequest;
    EmptyCacheAccepts(c, nodes, map[], r, t0);
    EmptyCacheAccepts(c, nodes, map[NonceKey(r) := 0], r, t1);
    assert run[..0] == [] && run[..1] == [first];
    AfterStep(c, run, 0);
    assert After(c, run[..1]).cache == map[NonceKey(r) := 0];
  }
}
