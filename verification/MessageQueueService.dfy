/**
 * The queue service itself: its three methods, statement by statement, on the
 * Redis state they change.  `Await` is a point where the method waits for Redis
 * and other clients, calls and the clock move; `env` says what they do there.
 */
module MessageQueueService {
  import opened Common
  import opened SortedSet
  import opened MessageQueue
  import opened MessageQueueInvariant
  import opened MessageQueueRuns

  predicate Own(pid: nat, e: Event) {
    match e
    case Begin(p, _) => p == pid
    case Fetch(p) => p == pid
    case Finish(p, _) => p == pid
    case _ => false
  }

  /** Events of other calls and clients. */
  predicate Others(pid: nat, es: seq<Event>) {
    forall e | e in es :: !Own(pid, e)
  }

  /** What others do leaves the call itself alone. */
  lemma {:induction false} OthersElsewhere(s: System, pid: nat, es: seq<Event>)
    requires Others(pid, es)
    ensures var t := Run(s, es);
      (pid in t.calls <==> pid in s.calls) && (pid in s.calls ==> t.calls[pid] == s.calls[pid])
    decreases es
  {
    if es != [] {
      assert es[0] in es && forall e :: e in es[1..] ==> e in es;
      OthersElsewhere(Step(s, es[0]), pid, es[1..]);
    }
  }

  /** `now` is where `trace` leads from `start`, and in it call `pid`, begun at event `b`, is still open. */
  ghost predicate Open(start: System, trace: seq<Event>, now: System, pid: nat, device: string, b: nat) {
    now == Run(start, trace) &&
    b < |trace| && trace[b] == Begin(pid, device) && pid !in At(start, trace, b).calls &&
    IsOpen(now, pid) && now.calls[pid].device == device
  }

  lemma OpenAwait(start: System, trace: seq<Event>, now: System, pid: nat, device: string, b: nat, es: seq<Event>)
    requires Open(start, trace, now, pid, device, b) && Others(pid, es)
    ensures var t := Run(now, es);
      Open(start, trace + es, t, pid, device, b) && t.calls[pid] == now.calls[pid]
  {
    OthersElsewhere(now, pid, es);
    RunConcat(start, trace, es);
    assert (trace + es)[..b] == trace[..b];
  }

  lemma OpenFetch(start: System, trace: seq<Event>, now: System, pid: nat, device: string, b: nat)
    requires Open(start, trace, now, pid, device, b) && now.calls[pid].todo != []
    ensures var t := Step(now, Fetch(pid));
      Open(start, trace + [Fetch(pid)], t, pid, device, b) &&
      t.store == now.store && t.calls[pid] == FetchNext(now, now.calls[pid])
  {
    RunNext(start, trace, Fetch(pid));
    assert (trace + [Fetch(pid)])[..b] == trace[..b];
  }

  /** The local variables of the loop are those of the call. */
  predicate Locals(c: Call, todo: seq<string>, messages: seq<PendingMessage>, expired: seq<string>) {
    c.todo == todo && c.messages == messages && c.expired == expired
  }

  /** One turn of the loop: others run, then one GET, whose answer goes to one list or the other. */
  lemma OpenTurn(start: System, trace: seq<Event>, now: System, pid: nat, device: string, b: nat, es: seq<Event>,
                 todo: seq<string>, messages: seq<PendingMessage>, expired: seq<string>)
    requires Open(start, trace, now, pid, device, b) && Others(pid, es)
    requires todo != [] && Locals(now.calls[pid], todo, messages, expired)
    ensures var u := Run(now, es); var t := Step(u, Fetch(pid)); var raw := Get(u.store, todo[0]);
      Open(start, trace + es + [Fetch(pid)], t, pid, device, b) &&
      Locals(t.calls[pid], todo[1..],
             if raw.Some? then messages + [ToPending(todo[0], raw.value)] else messages,
             if raw.Some? then expired else expired + [todo[0]])
  {
    OpenAwait(start, trace, now, pid, device, b, es);
    OpenFetch(start, trace + es, Run(now, es), pid, device, b);
  }

  /** The first step of a call. */
  lemma OpenBegin(start: System, trace: seq<Event>, pid: nat, device: string)
    requires pid !in Run(start, trace).calls
    ensures var t := Step(Run(start, trace), Begin(pid, device)); var longer := trace + [Begin(pid, device)];
      Inbox(t.store, device) != [] ==> Open(start, longer, t, pid, device, |trace|)
    ensures var t := Step(Run(start, trace), Begin(pid, device)); var longer := trace + [Begin(pid, device)];
      Inbox(t.store, device) == [] ==>
        t == Run(start, longer) && Returns(start, longer, pid, device, |trace|, |trace|)
  {
    var longer := trace + [Begin(pid, device)];
    RunNext(start, trace, Begin(pid, device));
    assert longer[..|trace|] == trace && longer[..|trace| + 1] == longer;
  }

  /** The closing step of a call that has looked at every listed id. */
  lemma OpenFinish(start: System, trace: seq<Event>, now: System, pid: nat, device: string, b: nat)
    requires Open(start, trace, now, pid, device, b) && now.calls[pid].todo == []
    ensures var closed := trace + [Finish(pid, true)]; var t := Step(now, Finish(pid, true));
      Run(start, closed) == t && Returns(start, closed, pid, device, b, |trace|) &&
      pid in t.calls && t.calls[pid].messages == now.calls[pid].messages
  {
    var closed := trace + [Finish(pid, true)];
    RunNext(start, trace, Finish(pid, true));
    assert closed[..b] == trace[..b] && closed[..|trace|] == trace && closed[..|trace| + 1] == closed;
  }

  lemma {:induction false} ClockMoves(s: System, es: seq<Event>)
    ensures s.store.now <= Run(s, es).store.now
    decreases es
  {
    if es != [] { ClockMoves(Step(s, es[0]), es[1..]); }
  }

  class MessageQueueService {
    var sys: System

    constructor ()
      ensures sys == EMPTY
    {
      sys := EMPTY;
    }

    /** Other clients, calls and the clock move. */
    method Await(es: seq<Event>)
      modifies this
      ensures sys == Run(old(sys), es)
    {
      sys := Run(sys, es);
    }

    /** The clock is read first; the transaction runs after whatever happened meanwhile. */
    method Enqueue(message: Message, env: seq<Event>)
      requires Inv(sys)
      modifies this
      ensures sys == Step(Run(old(sys), env), Event.Enqueue(message, old(sys.store.now)))
      ensures Get(sys.store, message.messageId) ==
                Some(Stored(message.blob, old(sys.store.now),
                            Some(message.senderDeviceId), Some(message.senderAccountId)))
      ensures SafeRun(old(sys), env) && SafeToSend(Run(old(sys), env), message) ==> Inv(sys)
    {
      var now := sys.store.now;
      Await(env);
      ghost var before := sys;
      ClockMoves(old(sys), env);
      sys := sys.(store := ExecEnqueue(sys.store, message, now), serial := sys.serial + 1,
                  sent := sys.sent[message.messageId :=
                    Sent(message.recipientDeviceId, ToStored(message, now), sys.store.now, sys.serial)]);
      if SafeRun(old(sys), env) && SafeToSend(before, message) {
        RunKeepsInv(old(sys), env);
        StepKeepsInv(before, Event.Enqueue(message, now));
      }
    }

    /** The result is that of one interleaved call, begun at event `b` of `trace` and returning at its last. */
    method Dequeue(pid: nat, deviceId: string, env: nat -> seq<Event>)
      returns (messages: seq<PendingMessage>, ghost trace: seq<Event>, ghost b: nat)
      requires pid !in sys.calls && forall k :: Others(pid, env(k))
      modifies this
      ensures sys == Run(old(sys), trace)
      ensures |trace| > 0 && Returns(old(sys), trace, pid, deviceId, b, |trace| - 1)
      ensures pid in sys.calls && messages == sys.calls[pid].messages
    {
      ghost var start := sys;
      trace, b := env(0), |env(0)|;
      OthersElsewhere(sys, pid, env(0));
      Await(env(0));

      var messageIds := Members(Inbox(sys.store, deviceId));
      OpenBegin(start, trace, pid, deviceId);
      sys, trace := Step(sys, Begin(pid, deviceId)), trace + [Begin(pid, deviceId)];
      messages := [];
      if |messageIds| == 0 {
        return;
      }

      var expiredIds: seq<string> := [];
      var i := 0;
      while i < |messageIds|
        invariant i <= |messageIds|
        invariant Open(start, trace, sys, pid, deviceId, b)
        invariant Locals(sys.calls[pid], messageIds[i..], messages, expiredIds)
      {
        OpenTurn(start, trace, sys, pid, deviceId, b, env(i + 1), messageIds[i..], messages, expiredIds);
        Await(env(i + 1));
        var raw := Get(sys.store, messageIds[i]);
        if raw.None? {
          expiredIds := expiredIds + [messageIds[i]];
        } else {
          messages := messages + [ToPending(messageIds[i], raw.value)];
        }
        sys, trace := Step(sys, Fetch(pid)), trace + env(i + 1) + [Fetch(pid)];
        i := i + 1;
      }

      if |expiredIds| > 0 {
        OpenAwait(start, trace, sys, pid, deviceId, b, env(i + 1));
        trace := trace + env(i + 1);
        Await(env(i + 1));
      }
      OpenFinish(start, trace, sys, pid, deviceId, b);
      trace := trace + [Finish(pid, true)];
      if |expiredIds| > 0 {
        sys := sys.(store := ZRem(sys.store, deviceId, expiredIds));
      }
      sys := sys.(calls := sys.calls[pid := sys.calls[pid].(returned := true)]);
    }

    method Purge(messageId: string) returns (deleted: bool)
      modifies this
      ensures sys == Step(old(sys), Event.Purge(messageId)) && !Live(sys.store, messageId)
      ensures deleted <==> Live(old(sys).store, messageId)
    {
      deleted := Live(sys.store, messageId);
      sys := sys.(store := Del(sys.store, messageId));
    }
  }
}
