/**
 * The relay's message queue over Redis, one Redis command at a time.
 *
 * A Store is what Redis holds.  A System adds the dequeue calls in progress and
 * two histories: the latest transaction of each id, and what each call saw.  An
 * Event is one atomic command of some client, or the passing of time, so a
 * sequence of events is an arbitrary interleaving of calls.
 */
module MessageQueue {
  import opened Common
  import opened SortedSet

  const MESSAGE_TTL_MS: nat := 7 * 24 * 60 * 60 * 1000

  datatype Message = Message(messageId: string, recipientDeviceId: string, blob: string,
                             senderDeviceId: string, senderAccountId: string)

  /** The stored JSON; entries older than the sender fields lack them. */
  datatype Stored = Stored(blob: string, enqueuedAt: nat,
                           senderDeviceId: Option<string>, senderAccountId: Option<string>)

  datatype PendingMessage = PendingMessage(messageId: string, blob: string, enqueuedAt: nat,
                                           senderDeviceId: string, senderAccountId: string)

  // --- Redis keys: a key is present while the clock is before its expiry ---

  datatype MsgKey = MsgKey(value: Stored, expiresAt: nat)
  datatype InboxKey = InboxKey(refs: seq<Ref>, expiresAt: nat)
  datatype Store = Store(now: nat, msgs: map<string, MsgKey>, inboxes: map<string, InboxKey>)

  predicate Live(st: Store, id: string) {
    id in st.msgs && st.now < st.msgs[id].expiresAt
  }

  function Inbox(st: Store, device: string): seq<Ref> {
    if device in st.inboxes && st.now < st.inboxes[device].expiresAt
    then st.inboxes[device].refs
    else []
  }

  /** GET msg:{id} */
  function Get(st: Store, id: string): Option<Stored> {
    if Live(st, id) then Some(st.msgs[id].value) else None
  }

  function ToStored(m: Message, readAt: nat): Stored {
    Stored(m.blob, readAt, Some(m.senderDeviceId), Some(m.senderAccountId))
  }

  /** MULTI; SET msg EX; ZADD inbox; EXPIRE inbox; EXEC.  `readAt` is the caller's earlier clock read. */
  function ExecEnqueue(st: Store, m: Message, readAt: nat): Store {
    var expiry := st.now + MESSAGE_TTL_MS;
    var refs := Add(Inbox(st, m.recipientDeviceId), readAt, m.messageId);
    st.(msgs := st.msgs[m.messageId := MsgKey(ToStored(m, readAt), expiry)],
        inboxes := st.inboxes[m.recipientDeviceId := InboxKey(refs, expiry)])
  }

  /** DEL msg:{id} */
  function Del(st: Store, id: string): Store {
    st.(msgs := st.msgs - {id})
  }

  /** ZREM inbox:{device} ids...; a sorted set that becomes empty is deleted. */
  function ZRem(st: Store, device: string, ids: seq<string>): Store {
    var refs := Remove(Inbox(st, device), ids);
    st.(inboxes := if refs == [] then st.inboxes - {device}
                   else st.inboxes[device := st.inboxes[device].(refs := refs)])
  }

  function ToPending(id: string, v: Stored): PendingMessage {
    PendingMessage(id, v.blob, v.enqueuedAt,
                   match v.senderDeviceId case Some(s) => s case None => "",
                   match v.senderAccountId case Some(s) => s case None => "")
  }

  // --- Interleaved calls ---

  /** One enqueue transaction: who it was for, what it stored, when it ran, and its number among all of them. */
  datatype Sent = Sent(device: string, value: Stored, at: nat, serial: nat)

  function Find(sent: map<string, Sent>, id: string): Option<Sent> {
    if id in sent then Some(sent[id]) else None
  }

  /**
   * One dequeue call.  `todo`, `messages` and `expired` are its local variables.
   * The histories: `before`, `serial` and `snapshot` are the transactions that had
   * run, their number and what Redis held when the inbox was read, and `got` is
   * the transaction each message came from.
   */
  datatype Call = Call(device: string, before: map<string, Sent>, serial: nat, snapshot: Store,
                       todo: seq<string>, messages: seq<PendingMessage>, got: seq<Option<Sent>>,
                       expired: seq<string>, returned: bool)

  /** `sent` is the latest transaction of each id, and `serial` the number of transactions so far. */
  datatype System = System(store: Store, sent: map<string, Sent>, serial: nat, calls: map<nat, Call>)

  datatype Event =
    | Tick(ms: nat)
    | Enqueue(message: Message, clock: nat)
    | Purge(id: string)
    | Begin(pid: nat, device: string)      // ZRANGEBYSCORE
    | Fetch(pid: nat)                      // one GET
    | Finish(pid: nat, cleanup: bool)      // ZREM if anything was missing, then return

  predicate IsOpen(s: System, pid: nat) {
    pid in s.calls && !s.calls[pid].returned
  }

  predicate Enabled(s: System, e: Event) {
    match e
    case Tick(_) => true
    case Enqueue(_, clock) => clock <= s.store.now
    case Purge(_) => true
    case Begin(pid, _) => pid !in s.calls
    case Fetch(pid) => IsOpen(s, pid) && s.calls[pid].todo != []
    case Finish(pid, _) => IsOpen(s, pid) && s.calls[pid].todo == []
  }

  function OpenCall(s: System, device: string): Call {
    var ids := Members(Inbox(s.store, device));
    Call(device, s.sent, s.serial, s.store, ids, [], [], [], ids == [])
  }

  function FetchNext(s: System, c: Call): Call
    requires c.todo != []
  {
    var id := c.todo[0];
    match Get(s.store, id)
    case None => c.(todo := c.todo[1..], expired := c.expired + [id])
    case Some(v) => c.(todo := c.todo[1..], messages := c.messages + [ToPending(id, v)],
                       got := c.got + [Find(s.sent, id)])
  }

  function CleanUp(st: Store, c: Call): Store {
    if c.expired == [] then st else ZRem(st, c.device, c.expired)
  }

  /** One atomic step; an event that is not enabled changes nothing. */
  function Step(s: System, e: Event): System {
    if !Enabled(s, e) then s else
    match e
    case Tick(ms) => s.(store := s.store.(now := s.store.now + ms))
    case Enqueue(m, clock) =>
      s.(store := ExecEnqueue(s.store, m, clock), serial := s.serial + 1,
         sent := s.sent[m.messageId := Sent(m.recipientDeviceId, ToStored(m, clock), s.store.now, s.serial)])
    case Purge(id) => s.(store := Del(s.store, id))
    case Begin(pid, device) => s.(calls := s.calls[pid := OpenCall(s, device)])
    case Fetch(pid) => s.(calls := s.calls[pid := FetchNext(s, s.calls[pid])])
    case Finish(pid, cleanup) =>
      s.(store := if cleanup then CleanUp(s.store, s.calls[pid]) else s.store,
         calls := s.calls[pid := s.calls[pid].(returned := true)])
  }

  function Run(s: System, es: seq<Event>): System
    decreases es
  {
    if es == [] then s else Run(Step(s, es[0]), es[1..])
  }

  // --- Hypotheses on clients ---

  /** An id that was ever enqueued is not enqueued again. */
  predicate Fresh(s: System, e: Event) {
    e.Enqueue? ==> e.message.messageId !in s.sent
  }

  predicate NoReuse(s: System, es: seq<Event>)
    decreases es
  {
    es == [] || (Fresh(s, es[0]) && NoReuse(Step(s, es[0]), es[1..]))
  }

  predicate Refers(st: Store, device: string, id: string) {
    exists r | r in Inbox(st, device) :: r.id == id
  }

  /** The call may still look the id up, or will drop its reference from the device's inbox. */
  predicate Awaits(c: Call, device: string, id: string) {
    !c.returned && (id in c.todo || (c.device == device && id in c.expired))
  }

  /**
   * An enqueue that does no harm, its id used before or not: no other device's inbox
   * refers to the id, and no call in progress still has it to fetch or to clean up.
   */
  predicate SafeToSend(s: System, m: Message) {
    (forall d | d in s.store.inboxes && d != m.recipientDeviceId :: !Refers(s.store, d, m.messageId)) &&
    (forall pid | pid in s.calls :: !Awaits(s.calls[pid], m.recipientDeviceId, m.messageId))
  }

  predicate Safe(s: System, e: Event) {
    e.Enqueue? && Enabled(s, e) ==> SafeToSend(s, e.message)
  }

  predicate SafeRun(s: System, es: seq<Event>)
    decreases es
  {
    es == [] || (Safe(s, es[0]) && SafeRun(Step(s, es[0]), es[1..]))
  }

  const EMPTY: System := System(Store(0, map[], map[]), map[], 0, map[])

  // --- Runs ---

  lemma {:induction false} RunConcat(s: System, a: seq<Event>, b: seq<Event>)
    ensures Run(s, a + b) == Run(Run(s, a), b)
    ensures SafeRun(s, a + b) <==> SafeRun(s, a) && SafeRun(Run(s, a), b)
    decreases a
  {
    if a == [] {
      assert a + b == b;
    } else {
      assert (a + b)[1..] == a[1..] + b && (a + b)[0] == a[0];
      RunConcat(Step(s, a[0]), a[1..], b);
    }
  }

  lemma RunOne(s: System, e: Event)
    ensures Run(s, [e]) == Step(s, e) && (SafeRun(s, [e]) <==> Safe(s, e))
  {
    assert [e][1..] == [];
    assert Run(Step(s, e), []) == Step(s, e);
  }

  lemma RunNext(s: System, trace: seq<Event>, e: Event)
    ensures Run(s, trace + [e]) == Step(Run(s, trace), e)
    ensures SafeRun(s, trace + [e]) <==> SafeRun(s, trace) && Safe(Run(s, trace), e)
  {
    RunConcat(s, trace, [e]);
    RunOne(Run(s, trace), e);
  }

  lemma Unfold2(s: System, a: Event, b: Event)
    ensures Run(s, [a, b]) == Step(Step(s, a), b)
  {
    assert [a, b] == [a] + [b];
    RunNext(s, [a], b);
    RunOne(s, a);
  }

  lemma Unfold3(s: System, a: Event, b: Event, c: Event)
    ensures Run(s, [a, b, c]) == Step(Step(Step(s, a), b), c)
  {
    assert [a, b, c] == [a, b] + [c];
    RunNext(s, [a, b], c);
    Unfold2(s, a, b);
  }

  lemma Unfold6(s: System, a: Event, b: Event, c: Event, d: Event, e: Event, f: Event)
    ensures Run(s, [a, b, c, d, e, f]) == Step(Step(Step(Step(Step(Step(s, a), b), c), d), e), f)
  {
    assert [a, b, c, d, e, f] == [a, b, c] + [d, e, f];
    RunConcat(s, [a, b, c], [d, e, f]);
    Unfold3(s, a, b, c);
    Unfold3(Step(Step(Step(s, a), b), c), d, e, f);
  }

  /** The state when the first `i` events have happened. */
  function At(s: System, es: seq<Event>, i: nat): System
    requires i <= |es|
  {
    Run(s, es[..i])
  }

  lemma AtNext(s: System, es: seq<Event>, i: nat)
    requires i < |es|
    ensures At(s, es, i + 1) == Step(At(s, es, i), es[i])
    ensures SafeRun(s, es[..i + 1]) <==> SafeRun(s, es[..i]) && Safe(At(s, es, i), es[i])
  {
    assert es[..i + 1] == es[..i] + [es[i]];
    RunNext(s, es[..i], es[i]);
  }

  lemma AtSplit(s: System, es: seq<Event>, i: nat, j: nat)
    requires i <= j <= |es|
    ensures At(s, es, j) == Run(At(s, es, i), es[i..j])
    ensures SafeRun(s, es) ==> SafeRun(s, es[..i]) && SafeRun(At(s, es, i), es[i..j])
  {
    assert es == es[..i] + es[i..] && es[i..] == es[i..j] + es[j..] && es[..j] == es[..i] + es[i..j];
    RunConcat(s, es[..i], es[i..]);
    RunConcat(At(s, es, i), es[i..j], es[j..]);
    RunConcat(s, es[..i], es[i..j]);
  }

  function Repeat(e: Event, n: nat): seq<Event> {
    if n == 0 then [] else [e] + Repeat(e, n - 1)
  }

  /** `d` is call `c` after it has looked up its next `n` ids while nothing else happened. */
  predicate Drained(c: Call, d: Call, n: nat) {
    d.device == c.device && d.before == c.before && d.serial == c.serial && d.snapshot == c.snapshot &&
    !d.returned && n <= |c.todo| && d.todo == c.todo[n..] && c.got <= d.got && c.expired <= d.expired
  }

  lemma DrainOne(s: System, pid: nat)
    requires Enabled(s, Fetch(pid))
    ensures var t := Step(s, Fetch(pid));
      t.store == s.store && t.sent == s.sent && t.serial == s.serial && t.calls.Keys == s.calls.Keys &&
      Drained(s.calls[pid], t.calls[pid], 1)
  {}

  lemma {:induction false} Drain(s: System, pid: nat, n: nat)
    requires IsOpen(s, pid) && n <= |s.calls[pid].todo|
    ensures var t := Run(s, Repeat(Fetch(pid), n));
      t.store == s.store && t.sent == s.sent && t.serial == s.serial && t.calls.Keys == s.calls.Keys &&
      Drained(s.calls[pid], t.calls[pid], n)
    ensures SafeRun(s, Repeat(Fetch(pid), n))
    decreases n
  {
    if n > 0 {
      assert Repeat(Fetch(pid), n)[1..] == Repeat(Fetch(pid), n - 1);
      DrainOne(s, pid);
      Drain(Step(s, Fetch(pid)), pid, n - 1);
    }
  }
}
