/** Runs that go wrong because a message id is reused, with messages the service accepts. */
module MessageQueueReuseRuns {
  import opened AcceptedMessages
  import opened Common
  import opened MessageQueue
  import opened SortedSet

  lemma OneInbox(score: nat, id: string)
    ensures Add([], score, id) == [Ref(score, id)] && Remove([Ref(score, id)], [id]) == []
  {}

  /** An id reused between a dequeue's GET and its ZREM: the second message is live but in no inbox. */
  lemma OrphanRun(m: Message)
    ensures var d, id := m.recipientDeviceId, m.messageId;
      var t := Run(EMPTY, [Enqueue(m, 0), Begin(1, d), Purge(id), Fetch(1), Enqueue(m, 0), Finish(1, true)]);
      Live(t.store, id) && forall d :: Inbox(t.store, d) == []
  {
    var d, id := m.recipientDeviceId, m.messageId;
    OneInbox(0, id);
    var s1 := Step(EMPTY, Enqueue(m, 0));
    assert Inbox(s1.store, d) == [Ref(0, id)];
    var s2 := Step(s1, Begin(1, d));
    assert s2.calls[1].todo == [id];
    var s3 := Step(s2, Purge(id));
    var s4 := Step(s3, Fetch(1));
    assert s4.calls[1].expired == [id] && s4.calls[1].todo == [];
    var s5 := Step(s4, Enqueue(m, 0));
    assert Inbox(s5.store, d) == [Ref(0, id)] by { assert Remove([Ref(0, id)], [id]) == []; }
    var s6 := Step(s5, Finish(1, true));
    Unfold6(EMPTY, Enqueue(m, 0), Begin(1, d), Purge(id), Fetch(1), Enqueue(m, 0), Finish(1, true));
  }

  /** With a message the service accepts, a run that orphans it. */
  lemma ReuseOrphans()
    ensures Accepted(First())
    ensures var t := Run(EMPTY, [Enqueue(First(), 0), Begin(1, ALICE), Purge(ID), Fetch(1),
                                 Enqueue(First(), 0), Finish(1, true)]);
      Live(t.store, ID) && forall d :: Inbox(t.store, d) == []
  {
    AcceptedShape();
    OrphanRun(First());
  }

  /** The message of `n`, for another device, ends in a result of the device of `m`, which had the id before. */
  ghost predicate Misrouted(t: System, pid: nat, m: Message, n: Message) {
    pid in t.calls && t.calls[pid].device == m.recipientDeviceId && t.calls[pid].returned &&
    t.calls[pid].messages == [ToPending(n.messageId, ToStored(n, 0))] &&
    n.messageId in t.sent && t.sent[n.messageId].device == n.recipientDeviceId != m.recipientDeviceId
  }

  /** An id reused for another device: the first device's next dequeue returns the second message. */
  lemma MisrouteRun(m: Message, n: Message)
    requires n.messageId == m.messageId && n.recipientDeviceId != m.recipientDeviceId
    ensures var d := m.recipientDeviceId;
      var t := Run(EMPTY, [Enqueue(m, 0), Enqueue(n, 0), Begin(1, d), Fetch(1), Finish(1, true)]);
      Misrouted(t, 1, m, n)
  {
    var d, id := m.recipientDeviceId, m.messageId;
    OneInbox(0, id);
    var s1 := Step(EMPTY, Enqueue(m, 0));
    var s2 := Step(s1, Enqueue(n, 0));
    assert Inbox(s2.store, d) == [Ref(0, id)];
    var s3 := Step(s2, Begin(1, d));
    assert s3.calls[1].todo == [id];
    var s4 := Step(s3, Fetch(1));
    assert s4.calls[1].messages == [ToPending(id, ToStored(n, 0))] && s4.calls[1].todo == [];
    Unfold3(EMPTY, Enqueue(m, 0), Enqueue(n, 0), Begin(1, d));
    Unfold2(s3, Fetch(1), Finish(1, true));
    RunConcat(EMPTY, [Enqueue(m, 0), Enqueue(n, 0), Begin(1, d)], [Fetch(1), Finish(1, true)]);
    assert [Enqueue(m, 0), Enqueue(n, 0), Begin(1, d)] + [Fetch(1), Finish(1, true)] ==
           [Enqueue(m, 0), Enqueue(n, 0), Begin(1, d), Fetch(1), Finish(1, true)];
  }

  /** With messages the service accepts, a run that delivers one to the wrong device. */
  lemma ReuseMisroutes()
    ensures Accepted(First()) && Accepted(Again())
    ensures var t := Run(EMPTY, [Enqueue(First(), 0), Enqueue(Again(), 0), Begin(1, ALICE), Fetch(1), Finish(1, true)]);
      Misrouted(t, 1, First(), Again())
  {
    AcceptedShape();
    MisrouteRun(First(), Again());
  }

  /** A run after which no inbox refers to the id, but an open dequeue still has it to fetch. */
  function Unlisted(d: string, m: Message): seq<Event> {
    [Enqueue(m, 0), Purge(m.messageId), Begin(1, d), Begin(2, d), Fetch(2), Finish(2, true)]
  }

  lemma UnlistedState(m: Message)
    ensures var d, id := m.recipientDeviceId, m.messageId; var t := Run(EMPTY, Unlisted(d, m));
      t.store.now == 0 && t.store.inboxes == map[] && IsOpen(t, 1) &&
      t.calls[1].device == d && t.calls[1].todo == [id] && t.calls[1].messages == []
  {
    var d, id := m.recipientDeviceId, m.messageId;
    OneInbox(0, id);
    var s1 := Step(EMPTY, Enqueue(m, 0));
    var s2 := Step(s1, Purge(id));
    assert Inbox(s2.store, d) == [Ref(0, id)];
    var s3 := Step(s2, Begin(1, d));
    var s4 := Step(s3, Begin(2, d));
    assert s4.calls[1].todo == [id] && s4.calls[2].todo == [id];
    var s5 := Step(s4, Fetch(2));
    assert s5.calls[2].expired == [id] && s5.calls[2].todo == [];
    var s6 := Step(s5, Finish(2, true));
    assert s6.store.inboxes == map[];
    Unfold6(EMPTY, Enqueue(m, 0), Purge(id), Begin(1, d), Begin(2, d), Fetch(2), Finish(2, true));
  }

  lemma OpenCallEnds(s: System, m: Message, n: Message)
    requires n.messageId == m.messageId && n.recipientDeviceId != m.recipientDeviceId
    requires s.store.now == 0 && IsOpen(s, 1)
    requires s.calls[1].device == m.recipientDeviceId && s.calls[1].todo == [m.messageId] && s.calls[1].messages == []
    ensures Misrouted(Run(s, [Enqueue(n, 0), Fetch(1), Finish(1, true)]), 1, m, n)
  {
    var s7 := Step(s, Enqueue(n, 0));
    assert Get(s7.store, n.messageId) == Some(ToStored(n, 0));
    var s8 := Step(s7, Fetch(1));
    assert s8.calls[1].messages == [ToPending(n.messageId, ToStored(n, 0))] && s8.calls[1].todo == [];
    Unfold3(s, Enqueue(n, 0), Fetch(1), Finish(1, true));
  }

  /** Misrouted although no inbox refers to the reused id any more: an older dequeue still has it to fetch. */
  lemma ReuseMisroutesUnlisted()
    ensures Accepted(First()) && Accepted(Again())
    ensures forall d :: Inbox(Run(EMPTY, Unlisted(ALICE, First())).store, d) == []
    ensures Misrouted(Run(EMPTY, Unlisted(ALICE, First()) + [Enqueue(Again(), 0), Fetch(1), Finish(1, true)]),
                      1, First(), Again())
  {
    AcceptedShape();
    UnlistedState(First());
    OpenCallEnds(Run(EMPTY, Unlisted(ALICE, First())), First(), Again());
    RunConcat(EMPTY, Unlisted(ALICE, First()), [Enqueue(Again(), 0), Fetch(1), Finish(1, true)]);
  }
}
