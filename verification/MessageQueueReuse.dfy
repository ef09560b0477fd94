/**
 * What goes wrong when a message id is used twice, and exactly when it does not:
 * an enqueue does no harm, then or later, if and only if it is safe to send.
 */
module MessageQueueReuse {
  import opened Common
  import opened SortedSet
  import opened MessageQueue
  import opened MessageQueueInvariant

  /** What clients can rely on: no orphans, and no call returned what was not there for its device when it began. */
  ghost predicate Right(s: System) {
    (forall id :: Live(s.store, id) ==>
      id in s.sent && Ref(s.sent[id].value.enqueuedAt, id) in Inbox(s.store, s.sent[id].device)) &&
    forall pid :: pid in s.calls ==> RightCall(s.calls[pid])
  }

  ghost predicate RightCall(c: Call) {
    |c.got| == |c.messages| &&
    forall i :: 0 <= i < |c.messages| ==> RightMessage(c, c.messages[i], c.got[i])
  }

  /** Message `m`, of transaction `x`, was enqueued for the call's device before the call read the inbox. */
  ghost predicate RightMessage(c: Call, m: PendingMessage, x: Option<Sent>) {
    m.messageId in c.before && x == Some(c.before[m.messageId]) && x.value.device == c.device &&
    m == ToPending(m.messageId, x.value.value)
  }

  /** From now on nothing is enqueued. */
  predicate Quiet(es: seq<Event>) {
    forall e | e in es :: !e.Enqueue?
  }

  lemma {:induction false} QuietIsSafe(s: System, es: seq<Event>)
    requires Quiet(es)
    ensures SafeRun(s, es)
    decreases es
  {
    if es != [] {
      assert es[0] in es && forall e :: e in es[1..] ==> e in es;
      QuietIsSafe(Step(s, es[0]), es[1..]);
    }
  }

  lemma {:induction false} RepeatQuiet(e: Event, n: nat)
    requires !e.Enqueue?
    ensures Quiet(Repeat(e, n))
  {
    if n > 0 { RepeatQuiet(e, n - 1); }
  }

  lemma InvIsRight(s: System)
    requires Inv(s)
    ensures Right(s)
  {
    forall id | Live(s.store, id)
      ensures id in s.sent && Ref(s.sent[id].value.enqueuedAt, id) in Inbox(s.store, s.sent[id].device)
    {
      assert Indexed(s.store, s.sent, id);
    }
    forall pid | pid in s.calls ensures RightCall(s.calls[pid]) {
      assert CallOk(s, s.calls[pid]);
      CallIsRight(s.calls[pid]);
    }
  }

  lemma CallIsRight(c: Call)
    requires SnapshotOk(c) && ProgressOk(c)
    ensures RightCall(c)
  {
    forall i | 0 <= i < |c.messages| ensures RightMessage(c, c.messages[i], c.got[i]) {
      assert Key(c.messages[i]) in Listed(c);
    }
  }

  // --- From an unsafe enqueue, a way to a wrong state ---

  lemma FetchLive(s: System, pid: nat)
    requires Enabled(s, Fetch(pid))
    requires Live(s.store, s.calls[pid].todo[0]) && s.calls[pid].todo[0] in s.sent
    ensures var c, d := s.calls[pid], Step(s, Fetch(pid)).calls[pid]; var id := c.todo[0];
      d.device == c.device && d.before == c.before && d.got == c.got + [Some(s.sent[id])] &&
      d.messages == c.messages + [ToPending(id, s.store.msgs[id].value)]
  {}

  /** An open call that still has a live id to fetch comes to return it, as of its latest transaction. */
  lemma FetchesLatest(s: System, pid: nat, k: nat)
    requires IsOpen(s, pid) && k < |s.calls[pid].todo|
    requires Live(s.store, s.calls[pid].todo[k]) && s.calls[pid].todo[k] in s.sent
    ensures var c, t := s.calls[pid], Run(s, Repeat(Fetch(pid), k) + [Fetch(pid)]);
      pid in t.calls && t.calls[pid].device == c.device && t.calls[pid].before == c.before &&
      t.calls[pid].messages != [] && t.calls[pid].got != [] &&
      t.calls[pid].messages[|t.calls[pid].messages| - 1].messageId == c.todo[k] &&
      t.calls[pid].got[|t.calls[pid].got| - 1] == Some(s.sent[c.todo[k]])
  {
    Drain(s, pid, k);
    FetchLive(Run(s, Repeat(Fetch(pid), k)), pid);
    RunNext(s, Repeat(Fetch(pid), k), Fetch(pid));
  }

  lemma WrongCall(s: System, pid: nat, id: string, x: Sent)
    requires pid in s.calls && s.calls[pid].messages != [] && s.calls[pid].got != []
    requires var c := s.calls[pid];
      c.messages[|c.messages| - 1].messageId == id && c.got[|c.got| - 1] == Some(x) &&
      (x.device != c.device || id !in c.before || c.before[id] != x)
    ensures !Right(s)
  {
    var c := s.calls[pid];
    if |c.got| == |c.messages| {
      assert !RightMessage(c, c.messages[|c.messages| - 1], c.got[|c.got| - 1]);
    }
  }

  /** Continuation `es`, in which nothing is enqueued, leads to a wrong state. */
  ghost predicate LeadsWrong(s: System, es: seq<Event>) {
    Quiet(es) && !Right(Run(s, es))
  }

  lemma FetchLeadsWrong(s: System, pid: nat, k: nat)
    requires IsOpen(s, pid) && k < |s.calls[pid].todo|
    requires var id := s.calls[pid].todo[k];
      Live(s.store, id) && id in s.sent &&
      (s.sent[id].device != s.calls[pid].device || id !in s.calls[pid].before ||
       s.calls[pid].before[id] != s.sent[id])
    ensures LeadsWrong(s, Repeat(Fetch(pid), k) + [Fetch(pid)])
  {
    FetchesLatest(s, pid, k);
    RepeatQuiet(Fetch(pid), k);
    WrongCall(Run(s, Repeat(Fetch(pid), k) + [Fetch(pid)]), pid, s.calls[pid].todo[k], s.sent[s.calls[pid].todo[k]]);
  }

  /** An open call that will clean up a live id of its own device orphans it. */
  lemma FinishLeadsWrong(s: System, pid: nat, id: string)
    requires IsOpen(s, pid) && id in s.calls[pid].expired
    requires Live(s.store, id) && id in s.sent && s.sent[id].device == s.calls[pid].device
    ensures LeadsWrong(s, Repeat(Fetch(pid), |s.calls[pid].todo|) + [Finish(pid, true)])
  {
    var n, c := |s.calls[pid].todo|, s.calls[pid];
    Drain(s, pid, n);
    RepeatQuiet(Fetch(pid), n);
    RunNext(s, Repeat(Fetch(pid), n), Finish(pid, true));
    var u, t := Run(s, Repeat(Fetch(pid), n)), Run(s, Repeat(Fetch(pid), n) + [Finish(pid, true)]);
    var expired := u.calls[pid].expired;
    assert id in expired;
    ZRemInboxes(u.store, c.device, expired, c.device);
    assert Ref(t.sent[id].value.enqueuedAt, id) !in Inbox(t.store, c.device);
  }

  lemma {:induction false} Unused(pids: set<nat>) returns (pid: nat)
    ensures forall p :: p in pids ==> p < pid
    decreases |pids|
  {
    pid := 0;
    if pids != {} {
      var p :| p in pids;
      var q := Unused(pids - {p});
      assert pids == (pids - {p}) + {p};
      pid := if p < q then q else p + 1;
    }
  }

  /** A dequeue of a device whose inbox refers to a live id of another device. */
  lemma BeginLeadsWrong(s: System, device: string, r: Ref) returns (es: seq<Event>)
    requires r in Inbox(s.store, device) && Live(s.store, r.id) && r.id in s.sent && s.sent[r.id].device != device
    ensures LeadsWrong(s, es)
  {
    var pid := Unused(s.calls.Keys);
    assert pid !in s.calls;
    var u := Step(s, Begin(pid, device));
    var k: nat :| k < |Inbox(s.store, device)| && Inbox(s.store, device)[k] == r;
    FetchLeadsWrong(u, pid, k);
    var rest := Repeat(Fetch(pid), k) + [Fetch(pid)];
    es := [Begin(pid, device)] + rest;
    RunConcat(s, [Begin(pid, device)], rest);
    RunOne(s, Begin(pid, device));
  }

  lemma SentNow(s: System, m: Message, clock: nat)
    requires clock <= s.store.now
    ensures var t := Step(s, Enqueue(m, clock));
      Live(t.store, m.messageId) && t.calls == s.calls &&
      Find(t.sent, m.messageId) == Some(Sent(m.recipientDeviceId, ToStored(m, clock), s.store.now, s.serial)) &&
      forall d :: d != m.recipientDeviceId ==> Inbox(t.store, d) == Inbox(s.store, d)
  {}

  /** Another device's inbox refers to the id. */
  lemma ListedLeadsWrong(s: System, m: Message, clock: nat, other: string) returns (es: seq<Event>)
    requires clock <= s.store.now && other != m.recipientDeviceId && Refers(s.store, other, m.messageId)
    ensures LeadsWrong(Step(s, Enqueue(m, clock)), es)
  {
    var r :| r in Inbox(s.store, other) && r.id == m.messageId;
    SentNow(s, m, clock);
    es := BeginLeadsWrong(Step(s, Enqueue(m, clock)), other, r);
  }

  /** An open call that still has the id to fetch or to clean up. */
  lemma AwaitedLeadsWrong(s: System, m: Message, clock: nat, pid: nat) returns (es: seq<Event>)
    requires Inv(s) && clock <= s.store.now
    requires pid in s.calls && Awaits(s.calls[pid], m.recipientDeviceId, m.messageId)
    ensures LeadsWrong(Step(s, Enqueue(m, clock)), es)
  {
    var t, c := Step(s, Enqueue(m, clock)), s.calls[pid];
    assert CallOk(s, c);
    SentNow(s, m, clock);
    if m.messageId in c.todo {
      var k: nat :| k < |c.todo| && c.todo[k] == m.messageId;
      FetchLeadsWrong(t, pid, k);
      es := Repeat(Fetch(pid), k) + [Fetch(pid)];
    } else {
      FinishLeadsWrong(t, pid, m.messageId);
      es := Repeat(Fetch(pid), |c.todo|) + [Finish(pid, true)];
    }
  }

  lemma UnsafeLeadsWrong(s: System, m: Message, clock: nat) returns (es: seq<Event>)
    requires Inv(s) && clock <= s.store.now && !SafeToSend(s, m)
    ensures LeadsWrong(Step(s, Enqueue(m, clock)), es)
  {
    var d, id := m.recipientDeviceId, m.messageId;
    if other :| other in s.store.inboxes && other != d && Refers(s.store, other, id) {
      es := ListedLeadsWrong(s, m, clock, other);
    } else {
      var pid :| pid in s.calls && Awaits(s.calls[pid], d, id);
      es := AwaitedLeadsWrong(s, m, clock, pid);
    }
  }

  // --- Exactly when reuse does no harm ---

  /**
   * Enqueueing any id, used or not, is harmless, whatever calls, acknowledgements and
   * expiries follow, exactly when it is safe: no other device's inbox refers to the
   * id, and no open call has it still to fetch or to clean up.
   */
  lemma SafeExact(s: System, m: Message, clock: nat)
    requires Inv(s) && clock <= s.store.now
    ensures SafeToSend(s, m) <==>
            forall es :: Quiet(es) ==> Right(Run(Step(s, Enqueue(m, clock)), es))
  {
    var e := Enqueue(m, clock);
    var t := Step(s, e);
    if SafeToSend(s, m) {
      StepKeepsInv(s, e);
      forall es | Quiet(es) ensures Right(Run(t, es)) {
        QuietIsSafe(t, es);
        RunKeepsInv(t, es);
        InvIsRight(Run(t, es));
      }
    } else {
      var es := UnsafeLeadsWrong(s, m, clock);
    }
  }

  /** Wherever the run is cut off and nothing more enqueued, what follows goes right. */
  ghost predicate RightThroughout(s: System, es: seq<Event>) {
    forall i: nat, rest :: i <= |es| && Quiet(rest) ==> Right(Run(At(s, es, i), rest))
  }

  lemma SafeIsRight(s: System, es: seq<Event>)
    requires Inv(s) && SafeRun(s, es)
    ensures RightThroughout(s, es)
  {
    forall i: nat, rest | i <= |es| && Quiet(rest) ensures Right(Run(At(s, es, i), rest)) {
      AtSplit(s, es, 0, i);
      AtSplit(s, es, i, |es|);
      RunKeepsInv(s, es[..i]);
      QuietIsSafe(At(s, es, i), rest);
      RunKeepsInv(At(s, es, i), rest);
      InvIsRight(Run(At(s, es, i), rest));
    }
  }

  lemma TailRight(s: System, es: seq<Event>)
    requires es != [] && RightThroughout(s, es)
    ensures RightThroughout(Step(s, es[0]), es[1..])
  {
    forall i: nat, rest | i <= |es[1..]| && Quiet(rest) ensures Right(Run(At(Step(s, es[0]), es[1..], i), rest)) {
      assert es[..i + 1][1..] == es[1..][..i];
      assert At(s, es, i + 1) == At(Step(s, es[0]), es[1..], i);
    }
  }

  lemma UnsafeNotRight(s: System, es: seq<Event>)
    requires Inv(s) && es != [] && !Safe(s, es[0])
    ensures !RightThroughout(s, es)
  {
    var rest := UnsafeLeadsWrong(s, es[0].message, es[0].clock);
    assert At(s, es, 1) == Step(s, es[0]) by {
      assert es[..1] == [es[0]];
      RunOne(s, es[0]);
    }
    assert !Right(Run(At(s, es, 1), rest));
  }

  lemma {:induction false} RightIsSafe(s: System, es: seq<Event>)
    requires Inv(s) && RightThroughout(s, es)
    ensures SafeRun(s, es)
    decreases es
  {
    if es != [] {
      if !Safe(s, es[0]) { UnsafeNotRight(s, es); }
      StepKeepsInv(s, es[0]);
      TailRight(s, es);
      RightIsSafe(Step(s, es[0]), es[1..]);
    }
  }

  /** Over any run, ids reused or not: nothing can ever go wrong exactly when every enqueue was safe. */
  lemma ReuseExact(es: seq<Event>)
    ensures RightThroughout(EMPTY, es) <==> SafeRun(EMPTY, es)
  {
    EmptyHolds();
    if SafeRun(EMPTY, es) { SafeIsRight(EMPTY, es); }
    if RightThroughout(EMPTY, es) { RightIsSafe(EMPTY, es); }
  }

  // --- The index alone ---

  /** The transaction by itself keeps index and messages in agreement exactly when no other inbox refers to the id. */
  lemma EnqueueExact(s: System, m: Message, clock: nat)
    requires StoreOk(s.store, s.sent) && clock <= s.store.now
    ensures var t := Step(s, Enqueue(m, clock));
      StoreOk(t.store, t.sent) <==>
      forall d, r :: d != m.recipientDeviceId && r in Inbox(s.store, d) ==> r.id != m.messageId
  {
    var t := Step(s, Enqueue(m, clock));
    if forall d, r :: d != m.recipientDeviceId && r in Inbox(s.store, d) ==> r.id != m.messageId {
      EnqueueKeepsStore(s, m, clock);
    } else {
      var d, r :| d != m.recipientDeviceId && r in Inbox(s.store, d) && r.id == m.messageId;
      assert r in Inbox(t.store, d) && t.sent[r.id].device == m.recipientDeviceId;
    }
  }

  /** A closing ZREM keeps the agreement exactly when none of its ids is a live message of that device. */
  lemma CleanupExact(st: Store, sent: map<string, Sent>, device: string, ids: seq<string>)
    requires StoreOk(st, sent)
    ensures StoreOk(ZRem(st, device, ids), sent) <==>
            forall id :: id in ids && Live(st, id) ==> sent[id].device != device
  {
    var t := ZRem(st, device, ids);
    if forall id :: id in ids && Live(st, id) ==> sent[id].device != device {
      ZRemKeepsStore(st, sent, device, ids);
    } else {
      var id :| id in ids && Live(st, id) && sent[id].device == device;
      assert Live(t, id) && !Indexed(t, sent, id) by { ZRemInboxes(st, device, ids, device); }
    }
  }
}
