/** What every interleaving of queue calls keeps, while every enqueue is a safe one. */
module MessageQueueInvariant {
  import opened Common
  import opened SortedSet
  import opened MessageQueue

  /** The index agrees with the messages: every inbox entry is an id sent to that device, under its own score. */
  ghost predicate IndexSound(st: Store, sent: map<string, Sent>) {
    forall d: string :: WellFormed(Inbox(st, d)) &&
      forall r :: r in Inbox(st, d) ==>
        r.id in sent && sent[r.id].device == d && sent[r.id].value.enqueuedAt == r.score
  }

  /** No orphans: a live message is in its recipient's inbox, which outlives it. */
  ghost predicate Indexed(st: Store, sent: map<string, Sent>, id: string)
    requires id in sent
  {
    var x := sent[id];
    x.device in st.inboxes && st.msgs.Keys >= {id} &&
    st.inboxes[x.device].expiresAt >= st.msgs[id].expiresAt &&
    Ref(x.value.enqueuedAt, id) in Inbox(st, x.device)
  }

  ghost predicate StoreOk(st: Store, sent: map<string, Sent>) {
    IndexSound(st, sent) &&
    forall id :: id in st.msgs ==>
      id in sent && sent[id].at <= st.now &&
      st.msgs[id] == MsgKey(sent[id].value, sent[id].at + MESSAGE_TTL_MS) &&
      (Live(st, id) ==> Indexed(st, sent, id))
  }

  /** The message stored by transaction `x` is still there. */
  predicate StillLive(s: System, id: string, x: Sent) {
    id in s.sent && s.sent[id] == x && Live(s.store, id)
  }

  ghost predicate SerialsOk(s: System) {
    forall id :: id in s.sent ==> s.sent[id].serial < s.serial
  }

  function Key(m: PendingMessage): Ref {
    Ref(m.enqueuedAt, m.messageId)
  }

  function Keys(ms: seq<PendingMessage>): (r: seq<Ref>)
    ensures |r| == |ms| && forall i :: 0 <= i < |ms| ==> r[i] == Key(ms[i])
  {
    seq(|ms|, i requires 0 <= i < |ms| => Key(ms[i]))
  }

  function Listed(c: Call): seq<Ref> {
    Inbox(c.snapshot, c.device)
  }

  /** What was read when the call began. */
  ghost predicate SnapshotOk(c: Call) {
    WellFormed(Listed(c)) &&
    (forall r :: r in Listed(c) ==>
      r.id in c.before && c.before[r.id].device == c.device && c.before[r.id].value.enqueuedAt == r.score) &&
    (forall id :: id in c.before && c.before[id].device == c.device && Live(c.snapshot, id) ==>
      Ref(c.before[id].value.enqueuedAt, id) in Listed(c))
  }

  ghost predicate CollectedOk(c: Call, done: nat)
    requires done <= |Listed(c)|
  {
    Ordered(Keys(c.messages)) && |c.got| == |c.messages| &&
    forall i :: 0 <= i < |c.messages| ==>
      var m := c.messages[i];
      Key(m) in Listed(c)[..done] && Live(c.snapshot, m.messageId) && m.messageId in c.before &&
      m == ToPending(m.messageId, c.before[m.messageId].value) && c.got[i] == Some(c.before[m.messageId])
  }

  /** Every reference passed was either returned or found missing. */
  ghost predicate PassedOk(c: Call, done: nat)
    requires done <= |Listed(c)|
  {
    forall r :: r in Listed(c)[..done] ==> r in Keys(c.messages) || r.id in c.expired
  }

  /** The call looks at its listing in order. */
  ghost predicate ProgressOk(c: Call) {
    |c.todo| <= |Listed(c)| && (c.returned ==> c.todo == []) && ProgressAt(c, |Listed(c)| - |c.todo|)
  }

  ghost predicate ProgressAt(c: Call, done: nat)
    requires done <= |Listed(c)|
  {
    c.todo == Members(Listed(c))[done..] && CollectedOk(c, done) && PassedOk(c, done)
  }

  /** Since the call began ids may have been sent anew, but nothing came back to life. */
  ghost predicate HistoryOk(s: System, c: Call) {
    c.serial <= s.serial && c.snapshot.now <= s.store.now &&
    forall id :: id in c.before ==>
      c.before[id].serial < c.serial && id in s.sent && (s.sent[id] == c.before[id] || s.sent[id].serial >= c.serial) &&
      (StillLive(s, id, c.before[id]) ==> Live(c.snapshot, id))
  }

  /** What was found missing stays so. */
  ghost predicate ExpiredOk(s: System, c: Call) {
    forall id :: id in c.expired ==> id in c.before && !StillLive(s, id, c.before[id])
  }

  /** What an open call has still to fetch was not sent anew, nor what it will clean up, to its own device. */
  ghost predicate OpenOk(s: System, c: Call) {
    !c.returned ==>
      (forall id :: id in c.todo ==> id in c.before && id in s.sent && s.sent[id] == c.before[id]) &&
      (forall id :: id in c.expired && Live(s.store, id) ==> id in s.sent && s.sent[id].device != c.device)
  }

  ghost predicate CallOk(s: System, c: Call) {
    SnapshotOk(c) && ProgressOk(c) && HistoryOk(s, c) && ExpiredOk(s, c) && OpenOk(s, c)
  }

  ghost predicate Inv(s: System) {
    StoreOk(s.store, s.sent) && SerialsOk(s) && forall pid :: pid in s.calls ==> CallOk(s, s.calls[pid])
  }

  /** What any later state owes an earlier one: an id keeps its transaction or has a newer one; no message returns. */
  ghost predicate Later(s: System, t: System) {
    s.store.now <= t.store.now && s.serial <= t.serial &&
    forall id :: id in s.sent ==>
      id in t.sent && (t.sent[id] == s.sent[id] || t.sent[id].serial >= s.serial) &&
      (StillLive(t, id, s.sent[id]) ==> Live(s.store, id))
  }

  // --- The store ---

  /** An enqueue of an id that no other device's inbox refers to keeps the store consistent. */
  lemma EnqueueKeepsStore(s: System, m: Message, clock: nat)
    requires StoreOk(s.store, s.sent) && clock <= s.store.now
    requires forall d, r :: d != m.recipientDeviceId && r in Inbox(s.store, d) ==> r.id != m.messageId
    ensures var t := Step(s, Enqueue(m, clock)); StoreOk(t.store, t.sent)
  {
    var t := Step(s, Enqueue(m, clock));
    var d := m.recipientDeviceId;
    AddKeepsOrder(Inbox(s.store, d), clock, m.messageId);
    forall d' : string ensures d' != d ==> Inbox(t.store, d') == Inbox(s.store, d') {}
    assert Inbox(t.store, d) == Add(Inbox(s.store, d), clock, m.messageId);
    assert IndexSound(t.store, t.sent);
    forall id | id in t.store.msgs && Live(t.store, id) ensures Indexed(t.store, t.sent, id) {
      if id != m.messageId { assert Indexed(s.store, s.sent, id); }
    }
  }

  lemma ZRemInboxes(st: Store, device: string, ids: seq<string>, d: string)
    ensures Inbox(ZRem(st, device, ids), d) ==
            if d == device then Remove(Inbox(st, d), ids) else Inbox(st, d)
  {}

  /** Removing references of messages that are not live messages of the device keeps the store consistent. */
  lemma ZRemKeepsStore(st: Store, sent: map<string, Sent>, device: string, ids: seq<string>)
    requires StoreOk(st, sent)
    requires forall id :: id in ids && Live(st, id) ==> sent[id].device != device
    ensures StoreOk(ZRem(st, device, ids), sent)
  {
    var t := ZRem(st, device, ids);
    RemoveKeepsOrder(Inbox(st, device), ids);
    forall d: string ensures WellFormed(Inbox(t, d)) && forall r :: r in Inbox(t, d) ==> r in Inbox(st, d) {
      ZRemInboxes(st, device, ids, d);
    }
    forall id | id in t.msgs && Live(t, id) ensures Indexed(t, sent, id) {
      assert Indexed(st, sent, id);
      ZRemInboxes(st, device, ids, sent[id].device);
    }
  }

  /** Deleting messages or letting the clock pass only shrinks what is live. */
  lemma ShrinkKeepsStore(st: Store, t: Store, sent: map<string, Sent>)
    requires StoreOk(st, sent)
    requires t.inboxes == st.inboxes && st.now <= t.now
    requires forall id :: id in t.msgs ==> id in st.msgs && t.msgs[id] == st.msgs[id]
    ensures StoreOk(t, sent)
  {
    forall d: string
      ensures Inbox(t, d) == Inbox(st, d) || Inbox(t, d) == []
    {}
    assert IndexSound(t, sent);
    forall id | id in t.msgs && Live(t, id) ensures Indexed(t, sent, id) {
      assert Live(st, id) && Indexed(st, sent, id);
    }
  }

  lemma StepKeepsStore(s: System, e: Event)
    requires Inv(s) && Safe(s, e) && Enabled(s, e)
    ensures var t := Step(s, e); StoreOk(t.store, t.sent)
  {
    match e
    case Tick(ms) => ShrinkKeepsStore(s.store, Step(s, e).store, s.sent);
    case Enqueue(m, clock) =>
      forall d, r | d != m.recipientDeviceId && r in Inbox(s.store, d) ensures r.id != m.messageId {
        assert !Refers(s.store, d, m.messageId);
      }
      EnqueueKeepsStore(s, m, clock);
    case Purge(id) => ShrinkKeepsStore(s.store, Del(s.store, id), s.sent);
    case Begin(_, _) =>
    case Fetch(_) =>
    case Finish(pid, cleanup) =>
      var c := s.calls[pid];
      if cleanup && c.expired != [] { ZRemKeepsStore(s.store, s.sent, c.device, c.expired); }
  }

  // --- Calls ---

  /** What a call recorded stays right as time goes on; what it still relies on is the subject of OpenOk. */
  lemma CallSurvives(s: System, t: System, c: Call)
    requires CallOk(s, c) && SerialsOk(s) && Later(s, t) && OpenOk(t, c)
    ensures CallOk(t, c)
  {}

  lemma OpenCallOk(s: System, device: string)
    requires StoreOk(s.store, s.sent) && SerialsOk(s)
    ensures CallOk(s, OpenCall(s, device))
  {
    var c := OpenCall(s, device);
    forall id | id in s.sent && s.sent[id].device == device && Live(s.store, id)
      ensures Ref(s.sent[id].value.enqueuedAt, id) in Inbox(s.store, device)
    {
      assert Indexed(s.store, s.sent, id);
    }
    assert SnapshotOk(c);
    forall id | id in c.todo ensures id in s.sent {
      var i :| 0 <= i < |c.todo| && c.todo[i] == id;
      assert Listed(c)[i] in Listed(c);
    }
  }

  /** A successful GET appends the next listed message. */
  lemma CollectNext(s: System, c: Call, done: nat)
    requires StoreOk(s.store, s.sent) && SnapshotOk(c) && done < |Listed(c)| && CollectedOk(c, done)
    requires c.todo != [] && c.todo[0] == Listed(c)[done].id && Live(s.store, c.todo[0])
    requires c.todo[0] in c.before && Find(s.sent, c.todo[0]) == Some(c.before[c.todo[0]])
    requires Live(c.snapshot, c.todo[0])
    ensures var n := FetchNext(s, c);
      CollectedOk(n, done + 1) && Keys(n.messages) == Keys(c.messages) + [Listed(c)[done]]
  {
    var n, r := FetchNext(s, c), Listed(c)[done];
    assert r in Listed(c);
    var m := n.messages[|c.messages|];
    assert Key(m) == r;
    assert Keys(n.messages) == Keys(c.messages) + [r];
    assert Listed(c)[..done + 1] == Listed(c)[..done] + [r];
    forall i | 0 <= i < |c.messages|
      ensures Before(Keys(c.messages)[i], r) && n.messages[i] == c.messages[i]
    {
      assert Key(c.messages[i]) in Listed(c)[..done];
    }
  }

  lemma PassedNext(c: Call, n: Call, done: nat)
    requires Listed(n) == Listed(c) && done < |Listed(c)| && PassedOk(c, done)
    requires Keys(n.messages) == Keys(c.messages) + [Listed(c)[done]] && n.expired == c.expired
    ensures PassedOk(n, done + 1)
  {
    assert Listed(c)[..done + 1] == Listed(c)[..done] + [Listed(c)[done]];
  }

  lemma SkipNext(s: System, c: Call, done: nat)
    requires done < |Listed(c)| && CollectedOk(c, done) && PassedOk(c, done)
    requires c.todo != [] && c.todo[0] == Listed(c)[done].id && !Live(s.store, c.todo[0])
    ensures CollectedOk(FetchNext(s, c), done + 1) && PassedOk(FetchNext(s, c), done + 1)
  {
    assert Listed(c)[..done + 1] == Listed(c)[..done] + [Listed(c)[done]];
    forall i | 0 <= i < |c.messages| ensures Key(c.messages[i]) in Listed(c)[..done + 1] {
      assert Key(c.messages[i]) in Listed(c)[..done];
    }
  }

  lemma NextListed(c: Call)
    requires |c.todo| <= |Listed(c)| && c.todo != [] && c.todo == Members(Listed(c))[|Listed(c)| - |c.todo|..]
    ensures var all, done := Listed(c), |Listed(c)| - |c.todo|;
      c.todo[0] == all[done].id && c.todo[1..] == Members(all)[done + 1..]
  {}

  lemma FetchKeepsProgress(s: System, c: Call, done: nat)
    requires StoreOk(s.store, s.sent) && SnapshotOk(c) && c.todo != []
    requires done + |c.todo| == |Listed(c)| && ProgressAt(c, done)
    requires c.todo[0] in c.before && Find(s.sent, c.todo[0]) == Some(c.before[c.todo[0]])
    requires Live(s.store, c.todo[0]) ==> Live(c.snapshot, c.todo[0])
    ensures ProgressAt(FetchNext(s, c), done + 1)
  {
    NextListed(c);
    if Live(s.store, c.todo[0]) {
      CollectNext(s, c, done);
      PassedNext(c, FetchNext(s, c), done);
    } else {
      SkipNext(s, c, done);
    }
  }

  /** The transaction of the next id is the one its listing shows. */
  lemma NextIsOld(s: System, c: Call)
    requires HistoryOk(s, c) && OpenOk(s, c) && !c.returned && c.todo != []
    ensures c.todo[0] in c.before && Find(s.sent, c.todo[0]) == Some(c.before[c.todo[0]])
    ensures Live(s.store, c.todo[0]) ==> Live(c.snapshot, c.todo[0])
  {
    assert c.todo[0] in c.todo;
  }

  lemma FetchKeepsSnapshot(s: System, c: Call)
    requires SnapshotOk(c) && c.todo != []
    ensures SnapshotOk(FetchNext(s, c)) && Listed(FetchNext(s, c)) == Listed(c)
  {}

  lemma FetchKeepsRecord(s: System, c: Call)
    requires StoreOk(s.store, s.sent) && SnapshotOk(c) && ProgressOk(c) && !c.returned && c.todo != []
    requires HistoryOk(s, c) && OpenOk(s, c)
    ensures SnapshotOk(FetchNext(s, c)) && ProgressOk(FetchNext(s, c))
  {
    NextIsOld(s, c);
    FetchKeepsSnapshot(s, c);
    FetchKeepsProgress(s, c, |Listed(c)| - |c.todo|);
    NextProgress(s, c);
  }

  lemma NextProgress(s: System, c: Call)
    requires c.todo != [] && |c.todo| <= |Listed(c)| && !c.returned
    requires Listed(FetchNext(s, c)) == Listed(c) && ProgressAt(FetchNext(s, c), |Listed(c)| - |c.todo| + 1)
    ensures ProgressOk(FetchNext(s, c))
  {}

  lemma FetchKeepsRest(s: System, c: Call)
    requires HistoryOk(s, c) && ExpiredOk(s, c) && OpenOk(s, c) && !c.returned && c.todo != []
    ensures var n := FetchNext(s, c); HistoryOk(s, n) && ExpiredOk(s, n) && OpenOk(s, n)
  {
    NextIsOld(s, c);
    assert forall id :: id in c.todo[1..] ==> id in c.todo;
  }

  lemma FetchKeepsCall(s: System, c: Call)
    requires StoreOk(s.store, s.sent) && CallOk(s, c) && !c.returned && c.todo != []
    ensures CallOk(s, FetchNext(s, c))
  {
    FetchKeepsRecord(s, c);
    FetchKeepsRest(s, c);
  }

  /** A safe enqueue, or any other step, leaves alone what an open call relies on. */
  lemma OpenKept(s: System, e: Event, c: Call)
    requires StoreOk(s.store, s.sent) && OpenOk(s, c) && Enabled(s, e)
    requires e.Enqueue? ==> !Awaits(c, e.message.recipientDeviceId, e.message.messageId)
    ensures OpenOk(Step(s, e), c)
  {}

  /** The call that the event itself starts, advances or ends. */
  lemma CallMoved(s: System, e: Event, pid: nat)
    requires Inv(s) && Enabled(s, e) && pid in Step(s, e).calls
    requires pid in s.calls ==> Step(s, e).calls[pid] != s.calls[pid]
    requires Later(s, Step(s, e))
    ensures CallOk(Step(s, e), Step(s, e).calls[pid])
  {
    match e
    case Begin(_, device) =>
      OpenCallOk(s, device);
      CallSurvives(s, Step(s, e), OpenCall(s, device));
    case Fetch(_) =>
      FetchKeepsCall(s, s.calls[pid]);
      CallSurvives(s, Step(s, e), FetchNext(s, s.calls[pid]));
    case Finish(_, _) =>
      CallSurvives(s, Step(s, e), s.calls[pid].(returned := true));
  }

  lemma CallKept(s: System, e: Event, pid: nat)
    requires Inv(s) && Safe(s, e) && Enabled(s, e) && Later(s, Step(s, e)) && pid in Step(s, e).calls
    ensures CallOk(Step(s, e), Step(s, e).calls[pid])
  {
    if pid in s.calls && Step(s, e).calls[pid] == s.calls[pid] {
      OpenKept(s, e, s.calls[pid]);
      CallSurvives(s, Step(s, e), s.calls[pid]);
    } else {
      CallMoved(s, e, pid);
    }
  }

  lemma StepKeepsLater(s: System, e: Event)
    requires SerialsOk(s)
    ensures SerialsOk(Step(s, e)) && Later(s, Step(s, e))
  {}

  lemma LaterTransitive(s: System, t: System, u: System)
    requires SerialsOk(s) && Later(s, t) && Later(t, u)
    ensures Later(s, u)
  {}

  /** One step of any client, or the passing of time, keeps the invariant. */
  lemma StepKeepsInv(s: System, e: Event)
    requires Inv(s) && Safe(s, e)
    ensures Inv(Step(s, e)) && Later(s, Step(s, e))
  {
    StepKeepsLater(s, e);
    if Enabled(s, e) {
      StepKeepsStore(s, e);
      forall pid | pid in Step(s, e).calls ensures CallOk(Step(s, e), Step(s, e).calls[pid]) {
        CallKept(s, e, pid);
      }
    }
  }

  lemma {:induction false} RunKeepsInv(s: System, es: seq<Event>)
    requires Inv(s) && SafeRun(s, es)
    ensures Inv(Run(s, es)) && Later(s, Run(s, es))
    decreases es
  {
    if es != [] {
      StepKeepsInv(s, es[0]);
      RunKeepsInv(Step(s, es[0]), es[1..]);
      LaterTransitive(s, Step(s, es[0]), Run(s, es));
    }
  }

  lemma EmptyHolds()
    ensures Inv(EMPTY)
  {}

  // --- Ids that are never reused are safe ---

  lemma FreshIsSafe(s: System, e: Event)
    requires Inv(s) && Fresh(s, e)
    ensures Safe(s, e)
  {
    if e.Enqueue? && Enabled(s, e) {
      forall pid | pid in s.calls ensures !Awaits(s.calls[pid], e.message.recipientDeviceId, e.message.messageId) {
        assert CallOk(s, s.calls[pid]);
      }
    }
  }

  /** The claims below, made of runs whose enqueues are safe, hold of every run in which no id is reused. */
  lemma {:induction false} NoReuseIsSafe(s: System, es: seq<Event>)
    requires Inv(s) && NoReuse(s, es)
    ensures SafeRun(s, es)
    decreases es
  {
    if es != [] {
      FreshIsSafe(s, es[0]);
      StepKeepsInv(s, es[0]);
      NoReuseIsSafe(Step(s, es[0]), es[1..]);
    }
  }
}
