/** How long inbox entries last, against the messages they refer to. */
module MessageQueueExpiry {
  import opened AcceptedMessages
  import opened MessageQueue
  import opened MessageQueueInvariant
  import opened SortedSet

  // --- When an entry lasts no longer than its message ---

  /** However long one waits, the entry of `id` is not there without its message. */
  ghost predicate Inherits(s: System, device: string, id: string) {
    forall ms: nat :: EndsWith(Step(s, Tick(ms)).store, device, id)
  }

  predicate EndsWith(st: Store, device: string, id: string) {
    Refers(st, device, id) ==> Live(st, id)
  }

  /** The entry of a live message lasts as long as the inbox key: it inherits the TTL if both expire together. */
  lemma InheritsByKey(s: System, id: string)
    requires StoreOk(s.store, s.sent) && Live(s.store, id)
    ensures var d := s.sent[id].device;
      d in s.store.inboxes &&
      (Inherits(s, d, id) <==> s.store.inboxes[d].expiresAt == s.store.msgs[id].expiresAt)
  {
    var d := s.sent[id].device;
    assert Indexed(s.store, s.sent, id);
    var last := s.store.inboxes[d].expiresAt;
    if last > s.store.msgs[id].expiresAt {
      var ms := s.store.msgs[id].expiresAt - s.store.now;
      var t := Step(s, Tick(ms)).store;
      assert Ref(s.sent[id].value.enqueuedAt, id) in Inbox(t, d);
      assert !EndsWith(t, d, id);
    } else {
      forall ms: nat ensures EndsWith(Step(s, Tick(ms)).store, d, id) {
        assert Inbox(Step(s, Tick(ms)).store, d) != [] ==> s.store.now + ms < last;
      }
    }
  }

  /** An inbox key expires with the latest message ever enqueued for its device. */
  ghost predicate KeyOk(s: System, d: string)
    requires d in s.store.inboxes
  {
    (forall x :: x in s.sent && s.sent[x].device == d ==>
      s.sent[x].at + MESSAGE_TTL_MS <= s.store.inboxes[d].expiresAt) &&
    exists x :: x in s.sent && s.sent[x].device == d && s.sent[x].at + MESSAGE_TTL_MS == s.store.inboxes[d].expiresAt
  }

  ghost predicate KeysOk(s: System) {
    (forall x :: x in s.sent ==> s.sent[x].at <= s.store.now) &&
    forall d :: d in s.store.inboxes ==> KeyOk(s, d)
  }

  lemma EnqueueKeepsKeys(s: System, m: Message, clock: nat)
    requires KeysOk(s) && clock <= s.store.now && m.messageId !in s.sent
    ensures KeysOk(Step(s, Enqueue(m, clock)))
  {
    var t := Step(s, Enqueue(m, clock));
    forall d | d in t.store.inboxes ensures KeyOk(t, d) {
      if d == m.recipientDeviceId {
        assert t.sent[m.messageId].at + MESSAGE_TTL_MS == t.store.inboxes[d].expiresAt;
      } else {
        assert KeyOk(s, d);
        var x :| x in s.sent && s.sent[x].device == d && s.sent[x].at + MESSAGE_TTL_MS == s.store.inboxes[d].expiresAt;
        assert t.sent[x] == s.sent[x];
      }
    }
  }

  lemma SameKeys(s: System, t: System)
    requires KeysOk(s) && t.sent == s.sent && s.store.now <= t.store.now
    requires forall d :: d in t.store.inboxes ==>
      d in s.store.inboxes && t.store.inboxes[d].expiresAt == s.store.inboxes[d].expiresAt
    ensures KeysOk(t)
  {
    forall d | d in t.store.inboxes ensures KeyOk(t, d) { assert KeyOk(s, d); }
  }

  lemma {:induction false} RunKeepsKeys(s: System, es: seq<Event>)
    requires KeysOk(s) && NoReuse(s, es)
    ensures KeysOk(Run(s, es))
    decreases es
  {
    if es != [] {
      var e := es[0];
      if e.Enqueue? && Enabled(s, e) { EnqueueKeepsKeys(s, e.message, e.clock); } else { SameKeys(s, Step(s, e)); }
      RunKeepsKeys(Step(s, e), es[1..]);
    }
  }

  /** No message for the device was enqueued after this one. */
  ghost predicate IsLatest(s: System, id: string)
    requires id in s.sent
  {
    forall x :: x in s.sent && s.sent[x].device == s.sent[id].device ==> s.sent[x].at <= s.sent[id].at
  }

  /**
   * Over every run without reuse: the inbox entry of a live message inherits its TTL if and
   * only if no message for that device was enqueued later.
   */
  lemma InheritExact(es: seq<Event>, id: string)
    requires NoReuse(EMPTY, es) && Live(Run(EMPTY, es).store, id)
    ensures var s := Run(EMPTY, es);
      id in s.sent && (Inherits(s, s.sent[id].device, id) <==> IsLatest(s, id))
  {
    var s := Run(EMPTY, es);
    EmptyHolds();
    NoReuseIsSafe(EMPTY, es);
    RunKeepsInv(EMPTY, es);
    RunKeepsKeys(EMPTY, es);
    InheritsByKey(s, id);
    var d := s.sent[id].device;
    assert KeyOk(s, d);
    if IsLatest(s, id) {
      var x :| x in s.sent && s.sent[x].device == d && s.sent[x].at + MESSAGE_TTL_MS == s.store.inboxes[d].expiresAt;
      assert s.sent[x].at <= s.sent[id].at;
    }
  }

  /** A message enqueued 1 ms before another for the same device: its entry outlives it. */
  function TwoSent(m: Message, n: Message): seq<Event> {
    [Enqueue(m, 0), Tick(1), Enqueue(n, 1), Tick(MESSAGE_TTL_MS - 1)]
  }

  lemma OutliveRun(m: Message, n: Message)
    requires m.recipientDeviceId == n.recipientDeviceId && m.messageId != n.messageId
    ensures var t := Run(EMPTY, TwoSent(m, n));
      NoReuse(EMPTY, TwoSent(m, n)) && Refers(t.store, m.recipientDeviceId, m.messageId) &&
      !Live(t.store, m.messageId) && Live(t.store, n.messageId)
  {
    var d := m.recipientDeviceId;
    var s1 := Step(EMPTY, Enqueue(m, 0));
    assert Ref(0, m.messageId) in Inbox(s1.store, d);
    var s2 := Step(s1, Tick(1));
    assert Inbox(s2.store, d) == Inbox(s1.store, d);
    var s3 := Step(s2, Enqueue(n, 1));
    assert Ref(0, m.messageId) in Inbox(s3.store, d);
    var s4 := Step(s3, Tick(MESSAGE_TTL_MS - 1));
    assert Inbox(s4.store, d) == Inbox(s3.store, d);
    Unfold2(EMPTY, Enqueue(m, 0), Tick(1));
    Unfold2(s2, Enqueue(n, 1), Tick(MESSAGE_TTL_MS - 1));
    assert TwoSent(m, n) == [Enqueue(m, 0), Tick(1)] + [Enqueue(n, 1), Tick(MESSAGE_TTL_MS - 1)];
    RunConcat(EMPTY, [Enqueue(m, 0), Tick(1)], [Enqueue(n, 1), Tick(MESSAGE_TTL_MS - 1)]);
    TwoSentFresh(m, n);
  }

  lemma TwoSentFresh(m: Message, n: Message)
    requires m.messageId != n.messageId
    ensures NoReuse(EMPTY, TwoSent(m, n))
  {
    var es, s1 := TwoSent(m, n), Step(EMPTY, Enqueue(m, 0));
    var s2 := Step(s1, Tick(1));
    assert NoReuse(Step(s2, Enqueue(n, 1)), es[3..]) by { assert es[3..][1..] == []; }
    assert es[2..][1..] == es[3..] && NoReuse(s2, es[2..]);
    assert es[1..][1..] == es[2..] && NoReuse(s1, es[1..]);
  }

  /** A GET just in time, and a return only after the time to live: the returned message is no longer live. */
  lemma LateRun(m: Message)
    ensures var d, es := m.recipientDeviceId, [Enqueue(m, 0), Begin(1, m.recipientDeviceId), Fetch(1)];
      var t := Run(EMPTY, es + [Tick(MESSAGE_TTL_MS), Finish(1, true)]);
      1 in t.calls && t.calls[1].returned && t.calls[1].messages == [ToPending(m.messageId, ToStored(m, 0))] &&
      !Live(t.store, m.messageId)
  {
    var d, es := m.recipientDeviceId, [Enqueue(m, 0), Begin(1, m.recipientDeviceId), Fetch(1)];
    var s1 := Step(EMPTY, Enqueue(m, 0));
    assert Inbox(s1.store, d) == [Ref(0, m.messageId)];
    var s2 := Step(s1, Begin(1, d));
    assert s2.calls[1].todo == [m.messageId];
    var s3 := Step(s2, Fetch(1));
    assert s3.calls[1].messages == [ToPending(m.messageId, ToStored(m, 0))] && s3.calls[1].todo == [];
    Unfold3(EMPTY, Enqueue(m, 0), Begin(1, d), Fetch(1));
    Unfold2(s3, Tick(MESSAGE_TTL_MS), Finish(1, true));
    RunConcat(EMPTY, es, [Tick(MESSAGE_TTL_MS), Finish(1, true)]);
  }

  /** With messages the service accepts, a run in which an inbox entry outlives its message. */
  lemma EntryOutlives()
    ensures Accepted(First()) && Accepted(Second()) && NoReuse(EMPTY, TwoSent(First(), Second()))
    ensures var t := Run(EMPTY, TwoSent(First(), Second()));
      Refers(t.store, ALICE, ID) && !Live(t.store, ID)
  {
    AcceptedShape();
    OutliveRun(First(), Second());
  }
}
