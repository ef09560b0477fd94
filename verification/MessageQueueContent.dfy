/** What a dequeue answers, in terms of the enqueues, acknowledgements and times that clients see. */
module MessageQueueContent {
  import opened Common
  import opened MessageQueue
  import opened MessageQueueInvariant
  import opened MessageQueueRuns

  /** Event `i` is an enqueue of `id` that runs, and the last one before event `n`. */
  ghost predicate LastSend(es: seq<Event>, id: string, i: nat, n: nat) {
    i < n <= |es| && Sends(At(EMPTY, es, i), es[i], id) &&
    forall j: nat :: i < j < n ==> !Sends(At(EMPTY, es, j), es[j], id)
  }

  /** No acknowledgement of `id` between events `i` and `n`. */
  predicate Unpurged(es: seq<Event>, id: string, i: nat, n: nat)
    requires n <= |es|
  {
    forall j: nat | i < j < n :: es[j] != Purge(id)
  }

  /** The seven days since event `i` are not over when `n` events have happened. */
  predicate Young(es: seq<Event>, i: nat, n: nat)
    requires i <= |es| && n <= |es|
  {
    At(EMPTY, es, n).store.now < At(EMPTY, es, i).store.now + 604_800_000
  }

  lemma LastSendNext(es: seq<Event>, id: string, i: nat, n: nat)
    requires n < |es|
    ensures LastSend(es, id, i, n + 1) <==>
            if Sends(At(EMPTY, es, n), es[n], id) then i == n else LastSend(es, id, i, n)
  {}

  // --- What the histories record ---

  /** `x` is the transaction of the enqueue `es[i]`. */
  ghost predicate Records(es: seq<Event>, i: nat, x: Sent) {
    i < |es| && es[i].Enqueue? &&
    var m := es[i].message;
    x.device == m.recipientDeviceId && x.at == At(EMPTY, es, i).store.now &&
    x.value == Stored(m.blob, es[i].clock, Some(m.senderDeviceId), Some(m.senderAccountId))
  }

  /** `sent` has exactly the ids that were enqueued, each with its last enqueue. */
  lemma {:induction false} SentIs(es: seq<Event>, id: string, n: nat)
    requires n <= |es|
    ensures id in At(EMPTY, es, n).sent <==> exists i: nat :: LastSend(es, id, i, n)
    ensures forall i: nat :: LastSend(es, id, i, n) ==> Records(es, i, At(EMPTY, es, n).sent[id])
  {
    if n > 0 {
      var m := n - 1;
      SentIs(es, id, m);
      AtNext(EMPTY, es, m);
      forall i: nat ensures LastSend(es, id, i, n) <==>
                            if Sends(At(EMPTY, es, m), es[m], id) then i == m else LastSend(es, id, i, m)
      {
        LastSendNext(es, id, i, m);
      }
      if Sends(At(EMPTY, es, m), es[m], id) { assert LastSend(es, id, m, n); }
    }
  }

  /** A message key is there exactly while its last enqueue was not acknowledged, and lasts seven days. */
  lemma {:induction false} KeyIs(es: seq<Event>, id: string, n: nat)
    requires n <= |es|
    ensures id in At(EMPTY, es, n).store.msgs <==> exists i: nat :: LastSend(es, id, i, n) && Unpurged(es, id, i, n)
    ensures id in At(EMPTY, es, n).store.msgs ==> forall i: nat :: LastSend(es, id, i, n) ==>
              At(EMPTY, es, n).store.msgs[id].expiresAt == At(EMPTY, es, i).store.now + 604_800_000
  {
    if n > 0 {
      var m := n - 1;
      KeyIs(es, id, m);
      AtNext(EMPTY, es, m);
      forall i: nat ensures LastSend(es, id, i, n) <==>
                            if Sends(At(EMPTY, es, m), es[m], id) then i == m else LastSend(es, id, i, m)
      {
        LastSendNext(es, id, i, m);
      }
      KeyStep(At(EMPTY, es, m), es[m], id);
      forall i: nat | LastSend(es, id, i, m)
        ensures Unpurged(es, id, i, n) <==> Unpurged(es, id, i, m) && es[m] != Purge(id)
      {}
      if Sends(At(EMPTY, es, m), es[m], id) { assert LastSend(es, id, m, n) && Unpurged(es, id, m, n); }
    }
  }

  /** What one event does to the message key of an id. */
  lemma KeyStep(s: System, e: Event, id: string)
    ensures var a, b := s.store.msgs, Step(s, e).store.msgs;
      if Sends(s, e, id) then id in b && b[id].expiresAt == s.store.now + 604_800_000
      else (id in b <==> id in a && e != Purge(id)) && (id in b ==> b[id] == a[id])
  {}

  /**
   * Over any run, ids reused or not: a message is live exactly if it was enqueued,
   * not acknowledged since, and less than seven days ago.
   */
  lemma LiveIs(es: seq<Event>, id: string, n: nat)
    requires n <= |es|
    ensures Live(At(EMPTY, es, n).store, id) <==>
            exists i: nat :: LastSend(es, id, i, n) && Unpurged(es, id, i, n) && Young(es, i, n)
  {
    KeyIs(es, id, n);
  }

  // --- What a dequeue returns ---

  /** The message that event `e` enqueued for the device, as a client is to see it. */
  predicate Carries(e: Event, m: PendingMessage, device: string) {
    e.Enqueue? && e.message.recipientDeviceId == device &&
    m == PendingMessage(e.message.messageId, e.message.blob, e.clock,
                        e.message.senderDeviceId, e.message.senderAccountId)
  }

  /**
   * Every message a dequeue returns is the one that was last enqueued under its id
   * before the inbox read, for that device, and neither acknowledged nor seven days old by then.
   */
  lemma ReturnedWasSent(es: seq<Event>, pid: nat, device: string, b: nat, f: nat, k: nat)
    requires SafeRun(EMPTY, es) && Returns(EMPTY, es, pid, device, b, f)
    requires pid in Run(EMPTY, es).calls && k < |Result(EMPTY, es, pid)|
    ensures var m := Result(EMPTY, es, pid)[k];
      exists i: nat :: LastSend(es, m.messageId, i, b) && Carries(es[i], m, device) &&
        Unpurged(es, m.messageId, i, b) && Young(es, i, b)
  {
    EmptyHolds();
    SandwichUpper(EMPTY, es, pid, device, b, f, k);
    var m := Result(EMPTY, es, pid)[k];
    SentIs(es, m.messageId, b);
    LiveIs(es, m.messageId, b);
    var i: nat :| LastSend(es, m.messageId, i, b) && Unpurged(es, m.messageId, i, b) && Young(es, i, b);
    assert Records(es, i, At(EMPTY, es, b).sent[m.messageId]);
    assert Carries(es[i], m, device);
  }

  lemma LastSendEarlier(es: seq<Event>, id: string, i: nat, n: nat, m: nat)
    requires LastSend(es, id, i, m) && i < n <= m
    ensures LastSend(es, id, i, n)
  {}

  /** Between two states the last enqueue of the id is the same, so its transaction is. */
  lemma {:induction false} SentSame(es: seq<Event>, id: string, i: nat, n: nat, m: nat)
    requires LastSend(es, id, i, m) && i < n <= m
    ensures id in At(EMPTY, es, n).sent && id in At(EMPTY, es, m).sent
    ensures At(EMPTY, es, n).sent[id] == At(EMPTY, es, m).sent[id]
    decreases m
  {
    LastSendEarlier(es, id, i, n, m);
    SentIs(es, id, n);
    SentIs(es, id, m);
    if n < m {
      LastSendEarlier(es, id, i, m - 1, m);
      SentSame(es, id, i, n, m - 1);
      AtNext(EMPTY, es, m - 1);
    }
  }

  /**
   * Every message enqueued for the device before the inbox read, and neither replaced
   * nor acknowledged nor seven days old when the dequeue returns, is returned.
   */
  lemma SentIsReturned(es: seq<Event>, pid: nat, device: string, b: nat, f: nat, i: nat)
    requires SafeRun(EMPTY, es) && Returns(EMPTY, es, pid, device, b, f) && i < b
    requires es[i].Enqueue? && es[i].message.recipientDeviceId == device
    requires var id := es[i].message.messageId;
      LastSend(es, id, i, f + 1) && Unpurged(es, id, i, f + 1) && Young(es, i, f + 1)
    ensures pid in Run(EMPTY, es).calls
    ensures exists k: nat :: k < |Result(EMPTY, es, pid)| && Carries(es[i], Result(EMPTY, es, pid)[k], device)
  {
    var id := es[i].message.messageId;
    EmptyHolds();
    ReturnRecords(EMPTY, es, pid, device, b, f);
    LiveIs(es, id, f + 1);
    LastSendEarlier(es, id, i, b, f + 1);
    SentIs(es, id, b);
    SentSame(es, id, i, b, f + 1);
    var x := At(EMPTY, es, b).sent[id];
    assert Records(es, i, x);
    SandwichLower(EMPTY, es, pid, device, b, f, id);
    var k: nat :| k < |Result(EMPTY, es, pid)| && Result(EMPTY, es, pid)[k] == ToPending(id, x.value);
    assert Carries(es[i], Result(EMPTY, es, pid)[k], device);
  }
}
