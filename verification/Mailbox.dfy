/**
 * The simple mailbox the queue is meant to be: one set of live entries, each
 * dropped when it is acknowledged or when its time is up.  Run as whole calls,
 * the queue over Redis answers exactly as the mailbox does.
 */
module Mailbox {
  import opened SortedSet
  import opened MessageQueue
  import opened MessageQueueInvariant
  import opened MessageQueueRuns

  datatype Entry = Entry(device: string, blob: string, enqueuedAt: nat,
                         senderDeviceId: string, senderAccountId: string, expiresAt: nat)
  datatype Box = Box(now: nat, entries: map<string, Entry>)

  datatype Op = Send(message: Message) | Pending(device: string) | Acknowledge(id: string) | Wait(ms: nat)
  datatype Answer = Queued | Messages(messages: seq<PendingMessage>) | Deleted(found: bool) | Waited

  function Next(b: Box, op: Op): Box {
    match op
    case Send(m) =>
      b.(entries := b.entries[m.messageId :=
           Entry(m.recipientDeviceId, m.blob, b.now, m.senderDeviceId, m.senderAccountId, b.now + 604_800_000)])
    case Pending(_) => b
    case Acknowledge(id) => b.(entries := b.entries - {id})
    case Wait(ms) =>
      Box(b.now + ms, map id | id in b.entries && b.now + ms < b.entries[id].expiresAt :: b.entries[id])
  }

  /** An entry as a client sees it. */
  function Shown(id: string, e: Entry): PendingMessage {
    PendingMessage(id, e.blob, e.enqueuedAt, e.senderDeviceId, e.senderAccountId)
  }

  /** The listing of a device: its entries, all of them and nothing else, oldest first. */
  ghost predicate IsListing(b: Box, device: string, ms: seq<PendingMessage>) {
    Ordered(Keys(ms)) &&
    (forall m :: m in ms ==> m.messageId in b.entries && b.entries[m.messageId].device == device &&
                             m == Shown(m.messageId, b.entries[m.messageId])) &&
    (forall id :: id in b.entries && b.entries[id].device == device ==>
      Shown(id, b.entries[id]) in ms)
  }

  ghost predicate Allows(b: Box, op: Op, a: Answer) {
    match op
    case Send(_) => a == Queued
    case Pending(device) => a.Messages? && IsListing(b, device, a.messages)
    case Acknowledge(id) => a == Deleted(id in b.entries)
    case Wait(_) => a == Waited
  }

  ghost predicate Agrees(b: Box, ops: seq<Op>, answers: seq<Answer>)
    requires |ops| == |answers|
    decreases ops
  {
    ops == [] || (Allows(b, ops[0], answers[0]) && Agrees(Next(b, ops[0]), ops[1..], answers[1..]))
  }

  // --- The mailbox leaves no choice in what it answers ---

  lemma Inhabited(b: seq<PendingMessage>)
    ensures b == [] || exists m :: m in b
  {
    if b != [] { assert b[0] in b; }
  }

  lemma {:induction false} OrderedUnique(a: seq<PendingMessage>, b: seq<PendingMessage>)
    requires Ordered(Keys(a)) && Ordered(Keys(b))
    requires forall m :: m in a <==> m in b
    ensures a == b
  {
    if a == [] {
      Inhabited(b);
    } else {
      TailsSame(a, b);
      OrderedUnique(a[1..], b[1..]);
      assert a == [a[0]] + a[1..] && b == [b[0]] + b[1..];
    }
  }

  lemma TailsSame(a: seq<PendingMessage>, b: seq<PendingMessage>)
    requires a != [] && Ordered(Keys(a)) && Ordered(Keys(b))
    requires forall m :: m in a <==> m in b
    ensures b != [] && a[0] == b[0] && Ordered(Keys(a[1..])) && Ordered(Keys(b[1..]))
    ensures forall m :: m in a[1..] <==> m in b[1..]
  {
    assert a[0] in b;
    assert b[0] in a;
    var i :| 0 <= i < |b| && b[i] == a[0];
    var j :| 0 <= j < |a| && a[j] == b[0];
    HeadsEqual(a, b, i, j);
    assert Keys(a)[1..] == Keys(a[1..]) && Keys(b)[1..] == Keys(b[1..]);
    forall m ensures m in a[1..] <==> m in b[1..] {
      TailMember(a, m);
      TailMember(b, m);
    }
  }

  lemma HeadsEqual(a: seq<PendingMessage>, b: seq<PendingMessage>, i: nat, j: nat)
    requires Ordered(Keys(a)) && Ordered(Keys(b))
    requires i < |b| && j < |a| && b[i] == a[0] && a[j] == b[0]
    ensures a[0] == b[0]
  {
    if i > 0 && j > 0 {
      assert Before(Keys(b)[0], Keys(b)[i]) && Before(Keys(a)[0], Keys(a)[j]);
      BeforeTransitive(Key(a[0]), Key(b[0]), Key(a[0]));
      BeforeIrreflexive(Key(a[0]));
    }
  }

  lemma TailMember(a: seq<PendingMessage>, m: PendingMessage)
    requires a != [] && Ordered(Keys(a))
    ensures m in a[1..] <==> m in a && m != a[0]
  {
    if m in a[1..] {
      var i :| 0 <= i < |a| - 1 && a[1..][i] == m;
      assert Before(Keys(a)[0], Keys(a)[i + 1]);
      BeforeIrreflexive(Key(m));
    }
  }

  lemma {:induction false} AnswersUnique(b: Box, ops: seq<Op>, x: seq<Answer>, y: seq<Answer>)
    requires |x| == |y| == |ops|
    requires Agrees(b, ops, x) && Agrees(b, ops, y)
    ensures x == y
    decreases ops
  {
    if ops != [] {
      if ops[0].Pending? {
        OrderedUnique(x[0].messages, y[0].messages);
      }
      AnswersUnique(Next(b, ops[0]), ops[1..], x[1..], y[1..]);
      assert x == [x[0]] + x[1..] && y == [y[0]] + y[1..];
    }
  }

  // --- The queue, run one whole call at a time ---

  /** The events of one whole call; `cleanup` says whether a dequeue ends with its ZREM. */
  function Events(s: System, pid: nat, op: Op, cleanup: bool): seq<Event> {
    match op
    case Send(m) => [Enqueue(m, s.store.now)]
    case Pending(device) =>
      [Begin(pid, device)] + Repeat(Fetch(pid), |Inbox(s.store, device)|) + [Finish(pid, cleanup)]
    case Acknowledge(id) => [Purge(id)]
    case Wait(ms) => [Tick(ms)]
  }

  function AnswerOf(s: System, pid: nat, op: Op, t: System): Answer {
    match op
    case Send(_) => Queued
    case Pending(_) => Messages(if pid in t.calls then t.calls[pid].messages else [])
    case Acknowledge(id) => Deleted(Live(s.store, id))
    case Wait(_) => Waited
  }

  /** The answers of a sequence of whole calls, the n-th of them as call `pid + n`. */
  function Answers(s: System, pid: nat, ops: seq<Op>, cleanup: nat -> bool): (r: seq<Answer>)
    ensures |r| == |ops|
    decreases ops
  {
    if ops == [] then []
    else
      var t := Run(s, Events(s, pid, ops[0], cleanup(pid)));
      [AnswerOf(s, pid, ops[0], t)] + Answers(t, pid + 1, ops[1..], cleanup)
  }

  /** The device every id so far was sent to. */
  function Homes(s: System): map<string, string> {
    map id | id in s.sent :: s.sent[id].device
  }

  function HomesAfter(homes: map<string, string>, op: Op): map<string, string> {
    if op.Send? then homes[op.message.messageId := op.message.recipientDeviceId] else homes
  }

  /** No id is sent to two devices.  Sending it to its device again is fine: the message is replaced. */
  predicate OneHome(homes: map<string, string>, ops: seq<Op>)
    decreases ops
  {
    ops == [] ||
    ((ops[0].Send? && ops[0].message.messageId in homes ==>
        homes[ops[0].message.messageId] == ops[0].message.recipientDeviceId) &&
     OneHome(HomesAfter(homes, ops[0]), ops[1..]))
  }

  /** Entries older than the sender fields have them empty. */
  function EntryOf(x: Sent, expiresAt: nat): Entry {
    Entry(x.device, x.value.blob, x.value.enqueuedAt,
          if x.value.senderDeviceId.Some? then x.value.senderDeviceId.value else "",
          if x.value.senderAccountId.Some? then x.value.senderAccountId.value else "", expiresAt)
  }

  /** The mailbox a queue state stands for, whatever dangling references it holds. */
  function Abstract(s: System): Box {
    Box(s.store.now, map id | id in s.store.msgs && Live(s.store, id) && id in s.sent ::
      EntryOf(s.sent[id], s.store.msgs[id].expiresAt))
  }

  /** Between whole calls: none is open, and their numbers are below `pid`. */
  ghost predicate Between(s: System, pid: nat) {
    forall p :: p in s.calls ==> p < pid && s.calls[p].returned
  }

  /** A whole dequeue: what it does to the state, and that it has returned. */
  lemma WholeDequeue(s: System, pid: nat, device: string, cleanup: bool)
    requires pid !in s.calls
    ensures var es := Events(s, pid, Pending(device), cleanup); var t := Run(s, es);
      SafeRun(s, es) && t.store.msgs == s.store.msgs && t.store.now == s.store.now && t.sent == s.sent &&
      t.calls.Keys == s.calls.Keys + {pid} &&
      t.calls[pid].device == device && t.calls[pid].before == s.sent &&
      t.calls[pid].snapshot == s.store && t.calls[pid].returned
  {
    var n := |Inbox(s.store, device)|;
    var a, b, c := [Begin(pid, device)], Repeat(Fetch(pid), n), [Finish(pid, cleanup)];
    var s1 := Step(s, a[0]);
    RunConcat(s, a + b, c);
    RunConcat(s, a, b);
    RunOne(s, a[0]);
    if n > 0 { Drain(s1, pid, n); }
    RunOne(Run(s1, b), c[0]);
  }

  lemma {:induction false} OthersStay(s: System, es: seq<Event>, pid: nat)
    requires forall p :: p in s.calls && p != pid ==> s.calls[p].returned
    requires forall e :: e in es && e.Begin? ==> e.pid == pid
    ensures forall p :: p in Run(s, es).calls && p != pid ==> p in s.calls && Run(s, es).calls[p].returned
    decreases es
  {
    if es != [] {
      assert es[0] in es && forall e :: e in es[1..] ==> e in es;
      OthersStay(Step(s, es[0]), es[1..], pid);
    }
  }

  lemma {:induction false} RepeatOnly(e: Event, n: nat)
    ensures forall x :: x in Repeat(e, n) ==> x == e
  {
    if n > 0 { RepeatOnly(e, n - 1); }
  }

  lemma ShownIs(id: string, x: Sent, expiresAt: nat)
    ensures Shown(id, EntryOf(x, expiresAt)) == ToPending(id, x.value)
  {}

  lemma AbstractIs(t: System, id: string)
    ensures var es := Abstract(t).entries;
      (id in es <==> Live(t.store, id) && id in t.sent) &&
      (id in es ==> es[id].device == t.sent[id].device && Shown(id, es[id]) == ToPending(id, t.sent[id].value))
  {
    if id in t.sent && Live(t.store, id) { ShownIs(id, t.sent[id], t.store.msgs[id].expiresAt); }
  }

  /** The call has returned, and since its inbox read only inboxes changed. */
  ghost predicate JustReturned(t: System, c: Call) {
    c.returned && c.before == t.sent && c.snapshot.msgs == t.store.msgs && c.snapshot.now == t.store.now
  }

  lemma ReturnedIsEntry(t: System, c: Call, i: nat)
    requires CallOk(t, c) && JustReturned(t, c) && i < |c.messages|
    ensures var m, es := c.messages[i], Abstract(t).entries;
      m.messageId in es && es[m.messageId].device == c.device && m == Shown(m.messageId, es[m.messageId])
  {
    CollectedWasLive(c, i);
    AbstractIs(t, c.messages[i].messageId);
  }

  /** With nothing interleaved, the two bounds of a returned call meet. */
  lemma ReturnedListing(t: System, c: Call)
    requires CallOk(t, c) && JustReturned(t, c)
    ensures IsListing(Abstract(t), c.device, c.messages)
  {
    var b := Abstract(t);
    forall m | m in c.messages
      ensures m.messageId in b.entries && b.entries[m.messageId].device == c.device &&
              m == Shown(m.messageId, b.entries[m.messageId])
    {
      var i :| 0 <= i < |c.messages| && c.messages[i] == m;
      ReturnedIsEntry(t, c, i);
    }
    forall id | id in b.entries && b.entries[id].device == c.device ensures Shown(id, b.entries[id]) in c.messages {
      AbstractIs(t, id);
      LiveIsCollected(t, c, id);
    }
  }

  /** When every id has been looked up with nothing interleaved, the missing ones are those not live. */
  lemma FoundMissing(u: System, c: Call, r: Ref)
    requires CallOk(u, c) && c.todo == [] && c.before == u.sent && r in Listed(c)
    requires c.snapshot == u.store
    ensures r.id in c.expired <==> !Live(u.store, r.id)
  {
    assert Listed(c)[..|Listed(c)|] == Listed(c);
    if r.id !in c.expired {
      var i :| 0 <= i < |c.messages| && Keys(c.messages)[i] == r;
      CollectedWasLive(c, i);
    }
  }

  /** A whole dequeue of a device whose inbox is not empty, up to its closing step. */
  lemma BeforeFinish(s: System, pid: nat, device: string)
    requires Inv(s) && pid !in s.calls && Inbox(s.store, device) != []
    ensures var es := [Begin(pid, device)] + Repeat(Fetch(pid), |Inbox(s.store, device)|); var u := Run(s, es);
      SafeRun(s, es) && Inv(u) && u.store == s.store && u.sent == s.sent && Enabled(u, Finish(pid, true)) &&
      u.calls[pid].device == device && u.calls[pid].before == s.sent && u.calls[pid].snapshot == s.store
  {
    var n := |Inbox(s.store, device)|;
    RunConcat(s, [Begin(pid, device)], Repeat(Fetch(pid), n));
    RunOne(s, Begin(pid, device));
    Drain(Step(s, Begin(pid, device)), pid, n);
    RunKeepsInv(s, [Begin(pid, device)] + Repeat(Fetch(pid), n));
  }

  /** After a whole dequeue with its clean-up, exactly the references to live messages are left in the inbox. */
  lemma WholeCleans(s: System, pid: nat, device: string)
    requires Inv(s) && pid !in s.calls
    ensures var t := Run(s, Events(s, pid, Pending(device), true));
      (forall r :: r in Inbox(t.store, device) <==> r in Inbox(s.store, device) && Live(s.store, r.id)) &&
      (forall d :: d != device ==> Inbox(t.store, d) == Inbox(s.store, d))
  {
    var es := [Begin(pid, device)] + Repeat(Fetch(pid), |Inbox(s.store, device)|);
    if Inbox(s.store, device) == [] {
      EmptyDequeue(s, pid, device);
    } else {
      BeforeFinish(s, pid, device);
      RunNext(s, es, Finish(pid, true));
      CleanupRemoves(s, es, pid);
      var u := Run(s, es);
      forall r | r in Inbox(s.store, device) ensures r.id in u.calls[pid].expired <==> !Live(s.store, r.id) {
        FoundMissing(u, u.calls[pid], r);
      }
    }
  }

  lemma EmptyDequeue(s: System, pid: nat, device: string)
    requires pid !in s.calls && Inbox(s.store, device) == []
    ensures Run(s, Events(s, pid, Pending(device), true)).store == s.store
  {
    var es := Events(s, pid, Pending(device), true);
    assert es == [Begin(pid, device)] + [Finish(pid, true)];
    RunNext(s, [Begin(pid, device)], Finish(pid, true));
    RunOne(s, Begin(pid, device));
  }

  /** The call keeps the queue in order and between calls, and accounts for the id it sends. */
  ghost predicate Kept(s: System, pid: nat, op: Op, t: System) {
    Inv(t) && Between(t, pid + 1) && Homes(t) == HomesAfter(Homes(s), op)
  }

  lemma PendingEvents(s: System, pid: nat, device: string, cleanup: bool)
    ensures forall e :: e in Events(s, pid, Pending(device), cleanup) && e.Begin? ==> e.pid == pid
  {
    RepeatOnly(Fetch(pid), |Inbox(s.store, device)|);
  }

  lemma PendingBetween(s: System, pid: nat, device: string, cleanup: bool)
    requires Between(s, pid)
    ensures Between(Run(s, Events(s, pid, Pending(device), cleanup)), pid + 1)
  {
    assert pid !in s.calls;
    WholeDequeue(s, pid, device, cleanup);
    PendingEvents(s, pid, device, cleanup);
    OthersStay(s, Events(s, pid, Pending(device), cleanup), pid);
  }

  lemma PendingInv(s: System, pid: nat, device: string, cleanup: bool)
    requires Inv(s) && pid !in s.calls
    ensures Inv(Run(s, Events(s, pid, Pending(device), cleanup)))
  {
    WholeDequeue(s, pid, device, cleanup);
    RunKeepsInv(s, Events(s, pid, Pending(device), cleanup));
  }

  lemma PendingHomes(s: System, pid: nat, device: string, cleanup: bool)
    requires pid !in s.calls
    ensures Homes(Run(s, Events(s, pid, Pending(device), cleanup))) == Homes(s)
  {
    WholeDequeue(s, pid, device, cleanup);
  }

  lemma PendingKept(s: System, pid: nat, device: string, cleanup: bool)
    requires Inv(s) && Between(s, pid)
    ensures Kept(s, pid, Pending(device), Run(s, Events(s, pid, Pending(device), cleanup)))
  {
    assert pid !in s.calls;
    PendingInv(s, pid, device, cleanup);
    PendingBetween(s, pid, device, cleanup);
    PendingHomes(s, pid, device, cleanup);
  }

  lemma PendingRefines(s: System, pid: nat, device: string, cleanup: bool)
    requires Inv(s) && Between(s, pid)
    ensures var t := Run(s, Events(s, pid, Pending(device), cleanup));
      Abstract(t) == Abstract(s) && pid in t.calls && IsListing(Abstract(s), device, t.calls[pid].messages)
  {
    assert pid !in s.calls;
    WholeDequeue(s, pid, device, cleanup);
    var t := Run(s, Events(s, pid, Pending(device), cleanup));
    PendingInv(s, pid, device, cleanup);
    SameAbstract(s, t);
    ReturnedListing(t, t.calls[pid]);
  }

  lemma SameAbstract(s: System, t: System)
    requires t.store.msgs == s.store.msgs && t.store.now == s.store.now && t.sent == s.sent
    ensures Abstract(t) == Abstract(s)
  {
    assert forall id :: Live(t.store, id) <==> Live(s.store, id);
  }

  lemma AbstractEnqueueAt(s: System, m: Message, id: string)
    requires StoreOk(s.store, s.sent)
    ensures var x, y := Abstract(Step(s, Enqueue(m, s.store.now))).entries, Next(Abstract(s), Send(m)).entries;
      (id in x <==> id in y) && (id in x ==> x[id] == y[id])
  {
    var t := Step(s, Enqueue(m, s.store.now));
    if id == m.messageId {
      assert Live(t.store, id) && id in t.sent;
    } else {
      assert Live(t.store, id) <==> Live(s.store, id);
    }
  }

  lemma AbstractEnqueue(s: System, m: Message)
    requires StoreOk(s.store, s.sent)
    ensures Abstract(Step(s, Enqueue(m, s.store.now))) == Next(Abstract(s), Send(m))
  {
    var x, y := Abstract(Step(s, Enqueue(m, s.store.now))).entries, Next(Abstract(s), Send(m)).entries;
    forall id ensures id in x <==> id in y { AbstractEnqueueAt(s, m, id); }
    forall id | id in x ensures x[id] == y[id] { AbstractEnqueueAt(s, m, id); }
  }

  lemma AbstractPurge(s: System, id: string)
    ensures Abstract(Step(s, Purge(id))) == Next(Abstract(s), Acknowledge(id))
  {
    var x, y := Abstract(Step(s, Purge(id))).entries, Next(Abstract(s), Acknowledge(id)).entries;
    assert forall i :: i in x <==> i in y;
    assert forall i :: i in x ==> x[i] == y[i];
  }

  lemma AbstractTick(s: System, ms: nat)
    ensures Abstract(Step(s, Tick(ms))) == Next(Abstract(s), Wait(ms))
  {
    assert Abstract(Step(s, Tick(ms))).entries == Next(Abstract(s), Wait(ms)).entries;
  }

  /** The one event of a call other than a dequeue. */
  function EventOf(s: System, op: Op): Event
    requires !op.Pending?
  {
    match op
    case Send(m) => Enqueue(m, s.store.now)
    case Acknowledge(id) => Purge(id)
    case Wait(ms) => Tick(ms)
  }

  /** An id sent to its own device once more is safe while no dequeue is in progress. */
  lemma HomeIsSafe(s: System, pid: nat, op: Op)
    requires Inv(s) && Between(s, pid) && !op.Pending? && OneHome(Homes(s), [op])
    ensures Safe(s, EventOf(s, op))
  {}

  lemma HomesStep(s: System, op: Op)
    requires !op.Pending?
    ensures Homes(Step(s, EventOf(s, op))) == HomesAfter(Homes(s), op)
    ensures Step(s, EventOf(s, op)).calls == s.calls
  {}

  lemma SingleKept(s: System, pid: nat, op: Op)
    requires Inv(s) && Between(s, pid) && !op.Pending? && OneHome(Homes(s), [op])
    ensures Kept(s, pid, op, Step(s, EventOf(s, op)))
  {
    HomeIsSafe(s, pid, op);
    StepKeepsInv(s, EventOf(s, op));
    HomesStep(s, op);
  }

  lemma SingleRefines(s: System, op: Op)
    requires Inv(s) && !op.Pending?
    ensures Abstract(Step(s, EventOf(s, op))) == Next(Abstract(s), op)
    ensures forall id :: Live(s.store, id) <==> id in Abstract(s).entries
  {
    match op
    case Send(m) => AbstractEnqueue(s, m);
    case Acknowledge(id) => AbstractPurge(s, id);
    case Wait(ms) => AbstractTick(s, ms);
  }

  /** One whole call answers as the mailbox does and leaves the matching state. */
  lemma OpRefines(s: System, pid: nat, op: Op, cleanup: bool)
    requires Inv(s) && Between(s, pid) && OneHome(Homes(s), [op])
    ensures var t := Run(s, Events(s, pid, op, cleanup));
      Kept(s, pid, op, t) && Abstract(t) == Next(Abstract(s), op) &&
      Allows(Abstract(s), op, AnswerOf(s, pid, op, t))
  {
    if op.Pending? {
      PendingKept(s, pid, op.device, cleanup);
      PendingRefines(s, pid, op.device, cleanup);
    } else {
      RunOne(s, EventOf(s, op));
      SingleKept(s, pid, op);
      SingleRefines(s, op);
    }
  }

  lemma OneHomeSplit(homes: map<string, string>, ops: seq<Op>)
    requires ops != [] && OneHome(homes, ops)
    ensures OneHome(homes, [ops[0]]) && OneHome(HomesAfter(homes, ops[0]), ops[1..])
  {
    assert [ops[0]][1..] == [];
  }

  /** Over every sequence of whole calls and waits, the queue answers exactly as the mailbox. */
  lemma {:induction false} QueueRefinesMailbox(s: System, pid: nat, ops: seq<Op>, cleanup: nat -> bool)
    requires Inv(s) && Between(s, pid) && OneHome(Homes(s), ops)
    ensures Agrees(Abstract(s), ops, Answers(s, pid, ops, cleanup))
    decreases ops
  {
    if ops != [] {
      OneHomeSplit(Homes(s), ops);
      OpRefines(s, pid, ops[0], cleanup(pid));
      var t := Run(s, Events(s, pid, ops[0], cleanup(pid)));
      QueueRefinesMailbox(t, pid + 1, ops[1..], cleanup);
      assert Answers(s, pid, ops, cleanup)[1..] == Answers(t, pid + 1, ops[1..], cleanup);
    }
  }

  /** Whichever dequeues skip their closing ZREM, no answer of any later call changes. */
  lemma CleanupUnobservable(s: System, pid: nat, ops: seq<Op>, some: nat -> bool, others: nat -> bool)
    requires Inv(s) && Between(s, pid) && OneHome(Homes(s), ops)
    ensures Answers(s, pid, ops, some) == Answers(s, pid, ops, others)
  {
    QueueRefinesMailbox(s, pid, ops, some);
    QueueRefinesMailbox(s, pid, ops, others);
    AnswersUnique(Abstract(s), ops, Answers(s, pid, ops, some), Answers(s, pid, ops, others));
  }
}
