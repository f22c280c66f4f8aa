/** Registration and request signing together: what rotating an agent's secret means for the requests it signs. */
module Rotation {
  import opened Basics
  import opened Signing
  import opened Identity
  import opened IdentityRuns
  import Auth = Authentication

  /** A node of a reachable state has a non-empty id and, once registered, a non-empty secret. */
  lemma NamesAndSecrets(es: seq<Event>, id: string)
    requires Possible(es) && id in After(es).s.nodes && After(es).s.nodes[id].registered
    ensures id != "" && After(es).s.nodes[id].agentSecret != ""
  {
    RunConsistent(es);
    assert NodeSound(After(es).s.nodes[id]);
  }

  /**
   * After event i replaced a node's secret, and as long as nothing rotates it again, a request signed with the replaced
   * secret passes authentication exactly when it would have passed before (clocks within 60 seconds, nonce unseen) and
   * no more than five minutes have gone by since event i; one signed with the new secret passes under the first two
   * conditions alone.
   */
  lemma RequestsAcrossRotation(
    es: seq<Event>, i: nat, j: nat, id: string,
    c: Crypto, cache: Auth.Cache, ts: int, nonce: string, httpMethod: string, uri: string, body: string,
    t: Auth.Readings, drop: set<string>)
    requires Possible(es) && i < j < |es| && es[i].op.Register?
    requires Enrols(After(es[..i]).s, Unix(es[i].now), es[i].op.request)
    requires id == EnrolledNode(After(es[..i]).s, es[i].op.request, es[i].op.id)
    requires id in After(es[..i]).s.nodes && After(es[..i]).s.nodes[id].registered
    requires NotRotated(es, i, j, id, es[i].op.secret)
    requires nonce != "" && 0 <= ts < INT64_LIMIT - 60 && 0 <= t.skewAt < INT64_LIMIT - 60
    requires t.graceAt == Unix(es[j].now)
    requires var message := Message(httpMethod, uri, FormatInt(ts), nonce, c.bodyHash(body));
      var keys := Auth.StoredKeys(After(es[..j]).s.nodes, id);
      && Auth.NoCollision(c, keys, After(es[..i]).s.nodes[id].agentSecret, message)
      && Auth.NoCollision(c, keys, es[i].op.secret, message)
    ensures var nodes, replaced := After(es[..j]).s.nodes, After(es[..i]).s.nodes[id].agentSecret;
      var timely := -60 <= t.skewAt - ts <= 60;
      var unseen := id + ":" + nonce in cache ==> t.nonceAt - cache[id + ":" + nonce] > 120;
      var withReplaced := Auth.SignRequest(c, id, replaced, ts, nonce, httpMethod, uri, body);
      var withNew := Auth.SignRequest(c, id, es[i].op.secret, ts, nonce, httpMethod, uri, body);
      && (Auth.Step(c, nodes, cache, withReplaced, t, drop).1 == Auth.Accepted
          <==> timely && unseen && Unix(es[j].now) <= Unix(es[i].now) + 300)
      && (Auth.Step(c, nodes, cache, withNew, t, drop).1 == Auth.Accepted <==> timely && unseen)
  {
    hide After, Step, Auth.Step, Auth.SignRequest, Auth.NoCollision, Message, FormatInt, SecretAccepted, Enrols;
    PrefixPossible(es, i);
    NamesAndSecrets(es[..i], id);
    ReplacedSecretWindow(es, i, j, id);
    var nodes := After(es[..j]).s.nodes;
    Auth.SignedRequestAccepted(c, nodes, cache, id, After(es[..i]).s.nodes[id].agentSecret, ts, nonce,
                               httpMethod, uri, body, t, drop);
    Auth.SignedRequestAccepted(c, nodes, cache, id, es[i].op.secret, ts, nonce, httpMethod, uri, body, t, drop);
  }

  /**
   * The life of a secret, seen from the requests it signs: one signed with the secret that event i handed out passes
   * exactly when it is timely and its nonce unseen, and nothing has rotated the secret since or exactly one event has,
   * at most five minutes ago.
   */
  lemma RequestsUnderIssuedSecret(
    es: seq<Event>, i: nat, j: nat, id: string,
    c: Crypto, cache: Auth.Cache, ts: int, nonce: string, httpMethod: string, uri: string, body: string,
    t: Auth.Readings, drop: set<string>)
    requires Possible(es) && i < j < |es| && Rotates(es, i, id) && id in After(es[..j]).s.nodes
    requires nonce != "" && 0 <= ts < INT64_LIMIT - 60 && 0 <= t.skewAt < INT64_LIMIT - 60
    requires t.graceAt == Unix(es[j].now)
    requires Auth.NoCollision(c, Auth.StoredKeys(After(es[..j]).s.nodes, id), es[i].op.secret,
                              Message(httpMethod, uri, FormatInt(ts), nonce, c.bodyHash(body)))
    ensures Between(Rotations(es, i, j, id), i, j)
    ensures var rs := Rotations(es, i, j, id);
      var r := Auth.SignRequest(c, id, es[i].op.secret, ts, nonce, httpMethod, uri, body);
      Auth.Step(c, After(es[..j]).s.nodes, cache, r, t, drop).1 == Auth.Accepted
      <==> (&& -60 <= t.skewAt - ts <= 60
            && (id + ":" + nonce in cache ==> t.nonceAt - cache[id + ":" + nonce] > 120)
            && (rs == [] || (|rs| == 1 && Unix(es[j].now) <= Unix(es[rs[0]].now) + 300)))
  {
    hide After, Step, Auth.Step, Auth.SignRequest, Auth.NoCollision, Message, FormatInt, SecretAccepted, Rotations;
    PrefixPossible(es, j);
    RunConsistent(es[..j]);
    IssuedSecretWindow(es, i, j, id);
    Auth.SignedRequestAccepted(c, After(es[..j]).s.nodes, cache, id, es[i].op.secret, ts, nonce,
                               httpMethod, uri, body, t, drop);
  }
}
