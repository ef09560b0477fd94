/**
 * The relay's fixed-window rate limiter, one Redis command or clock read at a time.
 * Times are in milliseconds of one clock that never goes back.
 */
module RateLimit {
  import opened Common

  const WINDOW_SECONDS: nat := 60
  const WINDOW_MS: nat := 60_000
  /** The TTL of a counter: the window and five seconds. */
  const TTL_MS: nat := 65_000
  const SEND_LIMIT: nat := 60
  const PENDING_LIMIT: nat := 30
  const DEFAULT_LIMIT: nat := 100

  /** text.includes(part) */
  predicate Includes(text: string, part: string) {
    part <= text || (text != "" && Includes(text[1..], part))
  }

  function GetLimit(path: string): nat {
    if Includes(path, "/messages/send") then SEND_LIMIT
    else if Includes(path, "/messages/pending") then PENDING_LIMIT
    else DEFAULT_LIMIT
  }

  /** Math.floor(Date.now() / 1000 / WINDOW_SECONDS) */
  function WindowOf(ms: nat): int {
    (ms as real / 1000.0 / (WINDOW_SECONDS as real)).Floor
  }

  /** Math.floor(Date.now() / 1000) */
  function Second(ms: nat): int {
    (ms as real / 1000.0).Floor
  }

  function RetryAfter(ms: nat): int {
    WINDOW_SECONDS - Second(ms) % WINDOW_SECONDS
  }

  function ResetAt(window: int): int {
    (window + 1) * WINDOW_SECONDS
  }

  datatype Counter = Counter(value: nat, expiresAt: Option<nat>)

  datatype Stage = AtIncr | AtExpire | AtDecision | Decided

  /** A request; `readAt` is its clock read, `count` what INCR answered, `retryAfter` is set on a refusal. */
  datatype Request = Request(device: string, limit: nat, readAt: nat, window: int, stage: Stage,
                             count: nat, remaining: nat, retryAfter: Option<int>)

  type Key = (string, int)

  datatype System = System(now: nat, counters: map<Key, Counter>, requests: map<nat, Request>)

  datatype Event =
    | Tick(ms: nat)
    | Arrive(pid: nat, device: string, path: string)
    | Incr(pid: nat)
    | Expire(pid: nat)
    | Decide(pid: nat)

  const EMPTY: System := System(0, map[], map[])

  predicate Live(s: System, k: Key) {
    k in s.counters && (s.counters[k].expiresAt.None? || s.now < s.counters[k].expiresAt.value)
  }

  function Value(s: System, k: Key): nat {
    if Live(s, k) then s.counters[k].value else 0
  }

  function KeyOf(r: Request): Key {
    (r.device, r.window)
  }

  predicate Enabled(s: System, e: Event) {
    match e
    case Tick(_) => true
    case Arrive(pid, _, _) => pid !in s.requests
    case Incr(pid) => pid in s.requests && s.requests[pid].stage == AtIncr
    case Expire(pid) => pid in s.requests && s.requests[pid].stage == AtExpire
    case Decide(pid) => pid in s.requests && s.requests[pid].stage == AtDecision
  }

  /** INCR: an absent or expired counter starts again from nothing, without expiry. */
  function ExecIncr(s: System, k: Key): System {
    s.(counters := s.counters[k :=
         Counter(Value(s, k) + 1, if Live(s, k) then s.counters[k].expiresAt else None)])
  }

  /** EXPIRE: no effect on an absent key. */
  function ExecExpire(s: System, k: Key): System {
    if Live(s, k) then s.(counters := s.counters[k := s.counters[k].(expiresAt := Some(s.now + TTL_MS))]) else s
  }

  function Put(s: System, pid: nat, r: Request): System {
    s.(requests := s.requests[pid := r])
  }

  function NewRequest(s: System, device: string, path: string): Request {
    Request(device, GetLimit(path), s.now, WindowOf(s.now), AtIncr, 0, 0, None)
  }

  function Counted(r: Request, count: nat): Request {
    r.(count := count, stage := if count == 1 then AtExpire else AtDecision)
  }

  function Judged(r: Request, now: nat): Request {
    r.(stage := Decided, remaining := if r.count <= r.limit then r.limit - r.count else 0,
       retryAfter := if r.count > r.limit then Some(RetryAfter(now)) else None)
  }

  /** One atomic step; an event that is not enabled changes nothing. */
  function Step(s: System, e: Event): System {
    if !Enabled(s, e) then s else
    match e
    case Tick(ms) => s.(now := s.now + ms)
    case Arrive(pid, device, path) => Put(s, pid, NewRequest(s, device, path))
    case Incr(pid) =>
      var r := s.requests[pid];
      Put(ExecIncr(s, KeyOf(r)), pid, Counted(r, Value(s, KeyOf(r)) + 1))
    case Expire(pid) =>
      Put(ExecExpire(s, KeyOf(s.requests[pid])), pid, s.requests[pid].(stage := AtDecision))
    case Decide(pid) => Put(s, pid, Judged(s.requests[pid], s.now))
  }

  function Run(s: System, es: seq<Event>): System
    decreases es
  {
    if es == [] then s else Run(Step(s, es[0]), es[1..])
  }

  /** The hypothesis on delays: an INCR runs at most `slack` ms after its request's clock read. */
  predicate Prompt(s: System, e: Event, slack: nat) {
    e.Incr? && Enabled(s, e) ==> s.now <= s.requests[e.pid].readAt + slack
  }

  predicate PromptRun(s: System, es: seq<Event>, slack: nat)
    decreases es
  {
    es == [] || (Prompt(s, es[0], slack) && PromptRun(Step(s, es[0]), es[1..], slack))
  }

  predicate IsCounted(r: Request) {
    r.stage != AtIncr
  }

  predicate Admitted(r: Request) {
    r.stage == Decided && r.count <= r.limit
  }

  lemma {:induction false} RunConcat(s: System, a: seq<Event>, b: seq<Event>, slack: nat)
    ensures Run(s, a + b) == Run(Run(s, a), b)
    ensures PromptRun(s, a + b, slack) <==> PromptRun(s, a, slack) && PromptRun(Run(s, a), b, slack)
    decreases a
  {
    if a == [] {
      assert a + b == b;
    } else {
      assert (a + b)[1..] == a[1..] + b && (a + b)[0] == a[0];
      RunConcat(Step(s, a[0]), a[1..], b, slack);
    }
  }

  lemma RunOne(s: System, e: Event, slack: nat)
    ensures Run(s, [e]) == Step(s, e) && (PromptRun(s, [e], slack) <==> Prompt(s, e, slack))
  {
    assert [e][1..] == [];
    assert Run(Step(s, e), []) == Step(s, e);
  }

  lemma RunNext(s: System, trace: seq<Event>, e: Event)
    ensures Run(s, trace + [e]) == Step(Run(s, trace), e)
  {
    RunConcat(s, trace, [e], 0);
    RunOne(Run(s, trace), e, 0);
  }

  /** The state when the first `i` events have happened. */
  function At(s: System, es: seq<Event>, i: nat): System
    requires i <= |es|
  {
    Run(s, es[..i])
  }

  lemma AtNext(s: System, es: seq<Event>, i: nat)
    requires i < |es|
    ensures At(s, es, i + 1) == Step(At(s, es, i), es[i])
  {
    assert es[..i + 1] == es[..i] + [es[i]];
    RunNext(s, es[..i], es[i]);
  }

  lemma AtSplit(s: System, es: seq<Event>, i: nat, slack: nat)
    requires i <= |es|
    ensures Run(s, es) == Run(At(s, es, i), es[i..])
    ensures PromptRun(s, es, slack) ==> PromptRun(s, es[..i], slack) && PromptRun(At(s, es, i), es[i..], slack)
  {
    assert es == es[..i] + es[i..];
    RunConcat(s, es[..i], es[i..], slack);
  }
}
