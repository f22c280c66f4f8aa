/** Subscribers of the server log: buffered channels that a write must neither block on nor panic over. */
module LogFanout {
  import opened Basics

  const SLOTS := 64

  datatype Channel = Channel(queue: seq<string>, closed: bool)

  /** All channels ever made, the subscribed ones, and whether an operation a closed channel forbids was carried out. */
  datatype Hub = Hub(chans: map<nat, Channel>, subs: set<nat>, panicked: bool)

  const EMPTY := Hub(map[], {}, false)

  /** Subscribers' channels exist and are open. */
  ghost predicate Sendable(h: Hub) {
    forall c :: c in h.subs ==> c in h.chans && !h.chans[c].closed
  }

  /** A non-blocking send. */
  function Offered(c: Channel, line: string): Channel {
    if |c.queue| < SLOTS then c.(queue := c.queue + [line]) else c
  }

  /** One line to every subscriber. Sending on a closed channel panics. */
  function Published(h: Hub, line: string): Hub {
    Hub(map c | c in h.chans :: if c in h.subs then Offered(h.chans[c], line) else h.chans[c],
        h.subs,
        h.panicked || exists c :: c in h.subs && (c in h.chans && h.chans[c].closed))
  }

  function Subscribed(h: Hub, c: nat): Hub {
    h.(chans := h.chans[c := Channel([], false)], subs := h.subs + {c})
  }

  /** The cancel function handed out by Subscribe. Closing a closed channel panics. */
  function Cancelled(h: Hub, c: nat): Hub
    requires c in h.chans
  {
    if c in h.subs
    then Hub(h.chans[c := h.chans[c].(closed := true)], h.subs - {c}, h.panicked || h.chans[c].closed)
    else h
  }

  /** The reader takes the next buffered line; a closed channel can still be drained. */
  function Taken(h: Hub, c: nat): Hub
    requires c in h.chans
  {
    if h.chans[c].queue == [] then h
    else h.(chans := h.chans[c := h.chans[c].(queue := h.chans[c].queue[1..])])
  }

  datatype Event = Subscribe(c: nat) | Publish(line: string) | Receive(c: nat) | Cancel(c: nat)

  predicate Enabled(h: Hub, e: Event) {
    match e
    case Subscribe(c) => c !in h.chans
    case Publish(_) => true
    case Receive(c) => c in h.chans
    case Cancel(c) => c in h.chans
  }

  function Step(h: Hub, e: Event): Hub
    requires Enabled(h, e)
  {
    match e
    case Subscribe(c) => Subscribed(h, c)
    case Publish(line) => Published(h, line)
    case Receive(c) => Taken(h, c)
    case Cancel(c) => Cancelled(h, c)
  }

  /** Events that can happen one after the other from the start; channels are made fresh. */
  predicate Possible(es: seq<Event>)
    decreases |es|, 0
  {
    es == [] || (Possible(es[..|es| - 1]) && Enabled(After(es[..|es| - 1]), es[|es| - 1]))
  }

  function After(es: seq<Event>): Hub
    requires Possible(es)
    decreases |es|, 1
  {
    if es == [] then EMPTY else Step(After(es[..|es| - 1]), es[|es| - 1])
  }

  // ---------- What one subscriber should have seen, and did ----------

  /** What the event adds to the lines written for subscriber c. */
  function WrittenFor(h: Hub, e: Event, c: nat): seq<string> {
    if e.Publish? && c in h.subs then [e.line] else []
  }

  /** What c's reader takes. */
  function TakenBy(h: Hub, e: Event, c: nat): seq<string> {
    if e == Receive(c) && c in h.chans && h.chans[c].queue != [] then [h.chans[c].queue[0]] else []
  }

  /** A write finds c's buffer full. */
  predicate Overrun(h: Hub, e: Event, c: nat) {
    e.Publish? && c in h.subs && c in h.chans && |h.chans[c].queue| >= 64
  }

  /** The lines written while c was subscribed. */
  function Written(es: seq<Event>, c: nat): seq<string>
    requires Possible(es)
  {
    if es == [] then [] else Written(es[..|es| - 1], c) + WrittenFor(After(es[..|es| - 1]), es[|es| - 1], c)
  }

  /** The lines its reader took. */
  function Received(es: seq<Event>, c: nat): seq<string>
    requires Possible(es)
  {
    if es == [] then [] else Received(es[..|es| - 1], c) + TakenBy(After(es[..|es| - 1]), es[|es| - 1], c)
  }

  /** How many writes found its buffer full. */
  function Overruns(es: seq<Event>, c: nat): nat
    requires Possible(es)
  {
    if es == [] then 0
    else Overruns(es[..|es| - 1], c) + if Overrun(After(es[..|es| - 1]), es[|es| - 1], c) then 1 else 0
  }

  ghost predicate Healthy(h: Hub) {
    && !h.panicked
    && Sendable(h)
    && (forall c :: c in h.chans ==> |h.chans[c].queue| <= 64)
    && (forall c :: c in h.chans && c !in h.subs ==> h.chans[c].closed)
  }

  lemma StepKeepsHealth(h: Hub, e: Event)
    requires Healthy(h) && Enabled(h, e)
    ensures Healthy(Step(h, e))
  {
  }

  /** No run sends on a closed channel or closes one twice, and a channel is open exactly while it is subscribed. */
  lemma {:induction false} NeverPanics(es: seq<Event>)
    requires Possible(es)
    ensures Healthy(After(es))
  {
    if es != [] {
      NeverPanics(es[..|es| - 1]);
      hide Healthy, Step, Enabled;
      StepKeepsHealth(After(es[..|es| - 1]), es[|es| - 1]);
    }
  }

  /** Cancelling again changes nothing. */
  lemma CancelTwice(h: Hub, c: nat)
    requires c in h.chans
    ensures c in Cancelled(h, c).chans && Cancelled(Cancelled(h, c), c) == Cancelled(h, c)
  {
  }

  /** Received and buffered lines, those written while subscribed, and the number missed. */
  ghost predicate InOrder(got: seq<string>, written: seq<string>, missed: nat) {
    && Subsequence(got, written)
    && |written| == |got| + missed
    && (missed == 0 ==> got == written)
  }

  lemma MoreInOrder(got: seq<string>, written: seq<string>, missed: nat, line: string)
    requires InOrder(got, written, missed)
    ensures InOrder(got + [line], written + [line], missed)
    ensures InOrder(got, written + [line], missed + 1)
  {
    SubsequenceSnoc(got, written, line);
  }

  lemma NeverSubscribed(es: seq<Event>, c: nat)
    requires Possible(es) && c !in After(es).chans
    ensures Written(es, c) == [] && Received(es, c) == [] && Overruns(es, c) == 0
  {
    if es != [] {
      var front := es[..|es| - 1];
      NeverPanics(front);
      NeverSubscribed(front, c);
    }
  }

  lemma StepKeepsOrder(h: Hub, e: Event, c: nat, received: seq<string>, written: seq<string>, missed: nat)
    requires Healthy(h) && Enabled(h, e) && c in h.chans
    requires InOrder(received + h.chans[c].queue, written, missed)
    ensures c in Step(h, e).chans
    ensures InOrder(received + TakenBy(h, e, c) + Step(h, e).chans[c].queue, written + WrittenFor(h, e, c),
                    missed + if Overrun(h, e, c) then 1 else 0)
  {
    hide InOrder, Subsequence;
    var queue := h.chans[c].queue;
    var queue' := Step(h, e).chans[c].queue;
    assert received + [] == received && written + [] == written;
    if e.Publish? && c in h.subs {
      MoreInOrder(received + queue, written, missed, e.line);
      assert received + (queue + [e.line]) == received + queue + [e.line];
    } else if e == Receive(c) && queue != [] {
      assert received + [queue[0]] + queue[1..] == received + queue;
    }
  }

  /**
   * What a subscriber received and still has buffered is, in order, what was written while it was subscribed; it is all
   * of it exactly when no write found the buffer full.
   */
  lemma {:induction false} SubscriberSeesInOrder(es: seq<Event>, c: nat)
    requires Possible(es) && c in After(es).chans
    ensures InOrder(Received(es, c) + After(es).chans[c].queue, Written(es, c), Overruns(es, c))
    ensures Received(es, c) + After(es).chans[c].queue == Written(es, c) <==> Overruns(es, c) == 0
  {
    var front, e := es[..|es| - 1], es[|es| - 1];
    NeverPanics(front);
    if c in After(front).chans {
      SubscriberSeesInOrder(front, c);
      hide InOrder, Healthy;
      StepKeepsOrder(After(front), e, c, Received(front, c), Written(front, c), Overruns(front, c));
    } else {
      NeverSubscribed(front, c);
    }
    AllOrMissed(Received(es, c) + After(es).chans[c].queue, Written(es, c), Overruns(es, c));
  }

  lemma AllOrMissed(got: seq<string>, written: seq<string>, missed: nat)
    requires InOrder(got, written, missed)
    ensures got == written <==> missed == 0
  {
  }

  // ---------- The ends of a subscription ----------

  /** Subscribing opens an empty channel; cancelling closes it for good, and lets what is buffered be read. */
  lemma SubscriptionStartsAndEnds(h: Hub, c: nat)
    requires Healthy(h)
    ensures c !in h.chans ==>
      var h' := Step(h, Subscribe(c));
      c in h'.subs && c in h'.chans && h'.chans[c] == Channel([], false) && h'.subs == h.subs + {c}
    ensures c in h.chans ==>
      var h' := Step(h, Cancel(c));
      c !in h'.subs && c in h'.chans && h'.chans[c] == Channel(h.chans[c].queue, true) && h'.subs == h.subs - {c}
  {
  }

  /** A line reaches a subscriber exactly if it has fewer than 64 buffered; nobody else's channel changes. */
  lemma PublishReaches(h: Hub, line: string, c: nat)
    requires Healthy(h) && c in h.chans
    ensures var h' := Step(h, Publish(line));
      && c in h'.chans
      && h'.chans[c].queue == (if c in h.subs && |h.chans[c].queue| < 64 then h.chans[c].queue + [line]
                               else h.chans[c].queue)
      && h'.chans[c].closed == h.chans[c].closed && h'.subs == h.subs
  {
  }

  lemma GoneStays(h: Hub, e: Event, c: nat)
    requires Enabled(h, e) && c in h.chans && c !in h.subs
    ensures c in Step(h, e).chans && c !in Step(h, e).subs
  {
  }

  lemma CancelGoes(h: Hub, c: nat)
    requires c in h.chans
    ensures c in Step(h, Cancel(c)).chans && c !in Step(h, Cancel(c)).subs
  {
  }

  lemma {:induction false} GoneKept(es: seq<Event>, i: nat, j: nat, c: nat)
    requires Possible(es) && i < j <= |es| && es[i] == Cancel(c) && Possible(es[..i + 1]) && Possible(es[..j])
    ensures c in After(es[..j]).chans && c !in After(es[..j]).subs
    decreases j
  {
    hide Step, Enabled;
    assert es[..j][..j - 1] == es[..j - 1];
    if j == i + 1 {
      LastEnabled(es[..j]);
      CancelGoes(After(es[..i]), c);
    } else {
      GoneKept(es, i, j - 1, c);
      LastEnabled(es[..j]);
      GoneStays(After(es[..j - 1]), es[j - 1], c);
    }
  }

  lemma LastEnabled(es: seq<Event>)
    requires Possible(es) && es != []
    ensures Possible(es[..|es| - 1]) && Enabled(After(es[..|es| - 1]), es[|es| - 1])
    ensures After(es) == Step(After(es[..|es| - 1]), es[|es| - 1])
    ensures es[|es| - 1].Cancel? ==> es[|es| - 1].c in After(es[..|es| - 1]).chans
  {
  }

  lemma {:induction false} PrefixPossible(es: seq<Event>, n: nat)
    requires Possible(es) && n <= |es|
    ensures Possible(es[..n])
    decreases |es|
  {
    if n == |es| {
      assert es[..n] == es;
    } else {
      PrefixPossible(es[..|es| - 1], n);
      assert es[..|es| - 1][..n] == es[..n];
    }
  }

  /** Nothing written after a cancel is for that subscriber any more. */
  lemma {:induction false} CancelIsFinal(es: seq<Event>, i: nat, j: nat, c: nat)
    requires Possible(es) && i < j <= |es| && es[i] == Cancel(c)
    requires Possible(es[..i]) && Possible(es[..j])
    ensures Written(es[..j], c) == Written(es[..i], c)
    decreases j
  {
    PrefixPossible(es, j - 1);
    PrefixPossible(es, i + 1);
    assert es[..j][..j - 1] == es[..j - 1];
    if j > i + 1 {
      CancelIsFinal(es, i, j - 1, c);
      GoneKept(es, i, j - 1, c);
    }
    hide Step, Enabled;
  }
}
