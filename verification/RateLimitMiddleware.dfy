/**
 * The middleware's handler, statement by statement, on the counters it changes.
 * `Await` is a point where it waits for Redis and other requests and the clock
 * move; `env` says what they do there.
 */
module RateLimitMiddleware {
  import opened Common
  import opened RateLimit
  import opened RateLimitBounds
  import opened RateLimitClasses

  predicate Own(pid: nat, e: Event) {
    !e.Tick? && e.pid == pid
  }

  /** Events of other requests, and of the clock. */
  predicate Others(pid: nat, es: seq<Event>) {
    forall e | e in es :: !Own(pid, e)
  }

  lemma {:induction false} OthersElsewhere(s: System, pid: nat, es: seq<Event>)
    requires Others(pid, es)
    ensures var t := Run(s, es);
      (pid in t.requests <==> pid in s.requests) && (pid in s.requests ==> t.requests[pid] == s.requests[pid])
    decreases es
  {
    if es != [] {
      assert !Own(pid, es[0]) && forall e :: e in es[1..] ==> e in es;
      OthersElsewhere(Step(s, es[0]), pid, es[1..]);
    }
  }

  /** What the response says. */
  datatype Response = Passed | Limited(limit: nat, remaining: nat, reset: int, retryAfter: Option<int>)

  class RateLimitMiddleware {
    var sys: System

    constructor ()
      ensures sys == EMPTY
    {
      sys := EMPTY;
    }

    /** Other requests and the clock move; `trace`, the history since `start`, is extended by what they did. */
    method Await(pid: nat, es: seq<Event>, ghost start: System, ghost trace: seq<Event>)
      returns (ghost longer: seq<Event>)
      requires sys == Run(start, trace) && Others(pid, es)
      modifies this
      ensures longer == trace + es && sys == Run(start, longer)
      ensures pid in sys.requests <==> pid in old(sys.requests)
      ensures pid in sys.requests ==> sys.requests[pid] == old(sys.requests)[pid]
    {
      longer := trace + es;
      RunConcat(start, trace, es, 0);
      OthersElsewhere(sys, pid, es);
      sys := Run(sys, es);
    }

    /** A request without a device id passes uncounted; any other is one request of an interleaved run. */
    method Handle(pid: nat, deviceId: Option<string>, path: string, env: nat -> seq<Event>)
      returns (response: Response, ghost trace: seq<Event>)
      requires pid !in sys.requests && forall k :: Others(pid, env(k))
      modifies this
      ensures sys == Run(old(sys), trace)
      ensures deviceId.None? || deviceId.value == "" ==> response == Passed && sys == old(sys)
      ensures deviceId.Some? && deviceId.value != "" ==>
                pid in sys.requests && sys.requests[pid].stage == Decided &&
                var r := sys.requests[pid];
                r.device == deviceId.value && r.readAt == old(sys.now) && LimitFor(path, r.limit) &&
                response == Limited(r.limit, if r.limit > r.count then r.limit - r.count else 0,
                                    (r.readAt / 60_000 + 1) * 60,
                                    if r.count > r.limit then Some(60 - sys.now / 1000 % 60) else None)
      ensures response.Limited? ==> (response.retryAfter.None? <==> Admitted(sys.requests[pid]))
    {
      if deviceId.None? || deviceId.value == "" {
        return Passed, [];
      }
      ghost var start := sys;
      var limit := GetLimit(path);
      var windowTimestamp := WindowOf(sys.now);
      trace := [Arrive(pid, deviceId.value, path)];
      RunNext(start, [], trace[0]);
      assert [] + trace == trace;
      sys := Put(sys, pid, Request(deviceId.value, limit, sys.now, windowTimestamp, AtIncr, 0, 0, None));

      var current: nat;
      current, trace := Count(pid, (deviceId.value, windowTimestamp), env(0), env(1), start, trace);
      var remaining, retryAfter;
      remaining, retryAfter, trace := Decide(pid, limit, current, env(2), start, trace);
      LimitExact(path);
      WindowIs(start.now);
      response := Limited(limit, remaining, (windowTimestamp + 1) * WINDOW_SECONDS, retryAfter);
    }

    /** INCR, and EXPIRE after the first. */
    method Count(pid: nat, key: Key, before: seq<Event>, between: seq<Event>,
                 ghost start: System, ghost trace: seq<Event>)
      returns (current: nat, ghost longer: seq<Event>)
      requires sys == Run(start, trace) && Enabled(sys, Incr(pid)) && KeyOf(sys.requests[pid]) == key
      requires Others(pid, before) && Others(pid, between)
      modifies this
      ensures sys == Run(start, longer)
      ensures pid in sys.requests && sys.requests[pid] == old(sys.requests)[pid].(count := current, stage := AtDecision)
    {
      longer := Await(pid, before, start, trace);
      RunNext(start, longer, Incr(pid));
      longer := longer + [Incr(pid)];
      current := Value(sys, key) + 1;
      sys := Put(ExecIncr(sys, key), pid, Counted(sys.requests[pid], current));
      if current == 1 {
        longer := Await(pid, between, start, longer);
        RunNext(start, longer, Expire(pid));
        longer := longer + [Expire(pid)];
        sys := Put(ExecExpire(sys, key), pid, sys.requests[pid].(stage := AtDecision));
      }
    }

    /** The comparison with the limit, and the second clock read of a refusal. */
    method Decide(pid: nat, limit: nat, current: nat, env: seq<Event>, ghost start: System, ghost trace: seq<Event>)
      returns (remaining: nat, retryAfter: Option<int>, ghost longer: seq<Event>)
      requires sys == Run(start, trace) && pid in sys.requests && sys.requests[pid].stage == AtDecision
      requires sys.requests[pid].limit == limit && sys.requests[pid].count == current
      requires sys.requests[pid].retryAfter == None && Others(pid, env)
      modifies this
      ensures sys == Run(start, longer)
      ensures pid in sys.requests && sys.requests[pid] == Judged(old(sys.requests)[pid], sys.now)
      ensures remaining == if limit > current then limit - current else 0
      ensures retryAfter == if current > limit then Some(60 - sys.now / 1000 % 60) else None
    {
      longer := Await(pid, env, start, trace);
      RunNext(start, longer, Event.Decide(pid));
      longer := longer + [Event.Decide(pid)];
      SecondIs(sys.now);
      remaining := if limit > current then limit - current else 0;
      retryAfter := None;
      if current > limit {
        retryAfter := Some(WINDOW_SECONDS - Second(sys.now) % WINDOW_SECONDS);
      }
      sys := Put(sys, pid, sys.requests[pid].(stage := Decided, remaining := remaining, retryAfter := retryAfter));
    }
  }
}
