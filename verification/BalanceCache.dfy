/** The balance cache shared by all requests, and what it answers over interleaved runs. */
module BalanceCache {
  import opened Chains
  import opened Common

  const CACHE_TTL_MS: nat := 30_000
  const MAX_ENTRIES: nat := 10_000

  predicate IsHex(c: char) {
    '0' <= c <= '9' || 'a' <= c <= 'f' || 'A' <= c <= 'F'
  }

  /** /^0x[a-fA-F0-9]{40}$/ */
  predicate ValidAddress(a: string) {
    |a| == 42 && a[0] == '0' && a[1] == 'x' && forall i | 2 <= i < 42 :: IsHex(a[i])
  }

  function Fold(c: char): char {
    if 'A' <= c <= 'Z' then (c as int + 32) as char else c
  }

  function Lower(text: string): (r: string)
    ensures |r| == |text| && forall i :: 0 <= i < |text| ==> r[i] == Fold(text[i])
  {
    seq(|text|, i requires 0 <= i < |text| => Fold(text[i]))
  }

  function CacheKey(chain: Chain, address: string): string {
    Name(chain) + ":" + Lower(address)
  }

  datatype Entry = Entry(balance: string, cachedAt: nat)
  datatype Reply = Result(result: Option<string>) | ProviderError | Unreachable

  datatype Answer = Waiting | BadRequest | Served(balance: string, cached: bool) | BadGateway | Unavailable

  /** `at` is when the request was answered, and `seen` how many replies had been stored by then. */
  datatype Request = Request(chain: Chain, address: string, answer: Answer, at: nat, seen: nat)

  /** A reply that was stored, by which request and when. */
  datatype Stored = Stored(chain: Chain, address: string, balance: string, at: nat, asker: nat)

  datatype System = System(now: nat, cache: map<string, Entry>, log: seq<Stored>, requests: map<nat, Request>)

  datatype Event =
    | Tick(ms: nat)
    | Lookup(pid: nat, chain: Chain, address: string)
    | Receive(pid: nat, reply: Reply)
    | Prune

  const EMPTY: System := System(0, map[], [], map[])

  /** cached && Date.now() - cached.cachedAt < CACHE_TTL_MS */
  function Fresh(cache: map<string, Entry>, now: nat, key: string): Option<string> {
    if key in cache && now - cache[key].cachedAt < CACHE_TTL_MS then Some(cache[key].balance) else None
  }

  function Pruned(cache: map<string, Entry>, now: nat): map<string, Entry> {
    map k | k in cache && now - cache[k].cachedAt <= CACHE_TTL_MS :: cache[k]
  }

  /** Storing a reply; `limit` is the number of entries above which the cache is pruned at once. */
  function Store(cache: map<string, Entry>, now: nat, key: string, balance: string, limit: nat): map<string, Entry> {
    var more := cache[key := Entry(balance, now)];
    if |more| > limit then Pruned(more, now) else more
  }

  function BalanceOf(reply: Reply): string
    requires reply.Result?
  {
    match reply.result case Some(b) => b case None => "0x0"
  }

  predicate Enabled(s: System, e: Event) {
    match e
    case Lookup(pid, _, _) => pid !in s.requests
    case Receive(pid, _) => pid in s.requests && s.requests[pid].answer == Waiting
    case _ => true
  }

  /** How a request is first answered, given what the cache has for it. */
  function First(chain: Chain, address: string, found: Option<string>, now: nat, seen: nat): Request {
    Request(chain, address,
            if !ValidAddress(address) then BadRequest
            else match found case Some(b) => Served(b, true) case None => Waiting,
            now, seen)
  }

  function Second(r: Request, reply: Reply, now: nat, seen: nat): Request {
    r.(answer := match reply
                 case Result(_) => Served(BalanceOf(reply), false)
                 case ProviderError => BadGateway
                 case Unreachable => Unavailable,
       at := now, seen := seen)
  }

  function Logged(log: seq<Stored>, pid: nat, r: Request, reply: Reply, now: nat): seq<Stored> {
    if reply.Result? then log + [Stored(r.chain, Lower(r.address), BalanceOf(reply), now, pid)] else log
  }

  /** One synchronous stretch of the handler; an event that is not enabled changes nothing. */
  function Step(s: System, e: Event, limit: nat): System {
    if !Enabled(s, e) then s else
    match e
    case Tick(ms) => s.(now := s.now + ms)
    case Lookup(pid, chain, address) =>
      s.(requests := s.requests[pid :=
           First(chain, address, Fresh(s.cache, s.now, CacheKey(chain, address)), s.now, |s.log|)])
    case Receive(pid, reply) =>
      var r := s.requests[pid];
      s.(cache := if reply.Result?
                  then Store(s.cache, s.now, CacheKey(r.chain, r.address), BalanceOf(reply), limit) else s.cache,
         log := Logged(s.log, pid, r, reply, s.now),
         requests := s.requests[pid := Second(r, reply, s.now, |s.log|)])
    case Prune => s.(cache := Pruned(s.cache, s.now))
  }

  function Run(s: System, es: seq<Event>, limit: nat): System
    decreases es
  {
    if es == [] then s else Run(Step(s, es[0], limit), es[1..], limit)
  }

  lemma {:induction false} RunConcat(s: System, a: seq<Event>, b: seq<Event>, limit: nat)
    ensures Run(s, a + b, limit) == Run(Run(s, a, limit), b, limit)
    decreases a
  {
    if a == [] {
      assert a + b == b;
    } else {
      assert (a + b)[1..] == a[1..] + b && (a + b)[0] == a[0];
      RunConcat(Step(s, a[0], limit), a[1..], b, limit);
    }
  }

  lemma RunOne(s: System, e: Event, limit: nat)
    ensures Run(s, [e], limit) == Step(s, e, limit)
  {
    assert [e][1..] == [];
    assert Run(Step(s, e, limit), [], limit) == Step(s, e, limit);
  }

  lemma RunNext(s: System, trace: seq<Event>, e: Event, limit: nat)
    ensures Run(s, trace + [e], limit) == Step(Run(s, trace, limit), e, limit)
  {
    RunConcat(s, trace, [e], limit);
    RunOne(Run(s, trace, limit), e, limit);
  }

  // --- The same without a cache: answers read off the log of stored replies ---

  datatype Ideal = Ideal(now: nat, log: seq<Stored>, requests: map<nat, Request>)

  /** The latest reply stored under a key. */
  function Latest(log: seq<Stored>, key: string): Option<Stored> {
    if log == [] then None
    else
      var x := log[|log| - 1];
      if CacheKey(x.chain, x.address) == key then Some(x) else Latest(log[..|log| - 1], key)
  }

  function Recent(log: seq<Stored>, now: nat, key: string): Option<string> {
    match Latest(log, key)
    case None => None
    case Some(x) => if now - x.at < CACHE_TTL_MS then Some(x.balance) else None
  }

  function IdealStep(i: Ideal, e: Event): Ideal {
    match e
    case Tick(ms) => i.(now := i.now + ms)
    case Prune => i
    case Lookup(pid, chain, address) =>
      if pid in i.requests then i
      else i.(requests := i.requests[pid :=
                First(chain, address, Recent(i.log, i.now, CacheKey(chain, address)), i.now, |i.log|)])
    case Receive(pid, reply) =>
      if pid !in i.requests || i.requests[pid].answer != Waiting then i
      else
        var r := i.requests[pid];
        i.(log := Logged(i.log, pid, r, reply, i.now),
           requests := i.requests[pid := Second(r, reply, i.now, |i.log|)])
  }

  function IdealRun(i: Ideal, es: seq<Event>): Ideal
    decreases es
  {
    if es == [] then i else IdealRun(IdealStep(i, es[0]), es[1..])
  }

  function Project(s: System): Ideal {
    Ideal(s.now, s.log, s.requests)
  }

  lemma LowerTwice(text: string)
    ensures Lower(Lower(text)) == Lower(text)
  {
    assert forall c :: Fold(Fold(c)) == Fold(c);
  }

  /** The same character, or an ASCII letter and its other case. */
  predicate SameLetter(a: char, b: char) {
    a == b ||
    ('A' <= a <= 'Z' && b as int == a as int + 32) ||
    ('A' <= b <= 'Z' && a as int == b as int + 32)
  }

  predicate SameUpToCase(a: string, b: string) {
    |a| == |b| && forall i | 0 <= i < |a| :: SameLetter(a[i], b[i])
  }

  lemma FoldSame(a: char, b: char)
    ensures Fold(a) == Fold(b) <==> SameLetter(a, b)
  {}

  lemma LowerSame(a: string, b: string)
    ensures Lower(a) == Lower(b) <==> SameUpToCase(a, b)
  {
    if |a| == |b| {
      forall i | 0 <= i < |a| ensures Lower(a)[i] == Lower(b)[i] <==> SameLetter(a[i], b[i]) { FoldSame(a[i], b[i]); }
    }
  }

  /** The cache key tells chains apart, and addresses that differ in more than letter case. */
  lemma KeyInjective(c: Chain, a: string, d: Chain, b: string)
    ensures CacheKey(c, a) == CacheKey(d, b) <==> c == d && SameUpToCase(a, b)
  {
    KeyLower(c, a, d, b);
    LowerSame(a, b);
  }

  lemma KeyLower(c: Chain, a: string, d: Chain, b: string)
    ensures CacheKey(c, a) == CacheKey(d, b) <==> c == d && Lower(a) == Lower(b)
  {
    if CacheKey(c, a) == CacheKey(d, b) {
      NamesApart(c, Lower(a), d, Lower(b));
      assert CacheKey(c, a)[|Name(c)| + 1..] == Lower(a);
      assert CacheKey(d, b)[|Name(d)| + 1..] == Lower(b);
    }
  }

  lemma NamesApart(c: Chain, a: string, d: Chain, b: string)
    requires Name(c) + ":" + a == Name(d) + ":" + b
    ensures c == d
  {
    var x, y := Name(c) + ":" + a, Name(d) + ":" + b;
    assert x[|Name(c)|] == ':' && y[|Name(d)|] == ':';
    assert x[0] == Name(c)[0] && y[0] == Name(d)[0] && x[1] == Name(c)[1] && y[1] == Name(d)[1];
  }

  // --- The cache is exactly the recent part of the log ---

  ghost predicate CacheOk(s: System) {
    (forall i :: 0 <= i < |s.log| ==> s.log[i].at <= s.now) &&
    (forall k :: k in s.cache ==>
      Latest(s.log, k).Some? && s.cache[k] == Entry(Latest(s.log, k).value.balance, Latest(s.log, k).value.at)) &&
    (forall k: string :: k !in s.cache && Latest(s.log, k).Some? ==> s.now - Latest(s.log, k).value.at > CACHE_TTL_MS)
  }

  lemma FreshIsRecent(s: System, key: string)
    requires CacheOk(s)
    ensures Fresh(s.cache, s.now, key) == Recent(s.log, s.now, key)
  {}

  lemma LatestAppend(log: seq<Stored>, x: Stored, key: string)
    ensures Latest(log + [x], key) == if CacheKey(x.chain, x.address) == key then Some(x) else Latest(log, key)
  {
    assert (log + [x])[..|log|] == log;
  }

  lemma PruneKeeps(s: System)
    requires CacheOk(s)
    ensures CacheOk(s.(cache := Pruned(s.cache, s.now)))
  {}

  lemma StoreKeeps(s: System, pid: nat, r: Request, balance: string, limit: nat)
    requires CacheOk(s)
    ensures var key := CacheKey(r.chain, r.address);
      CacheOk(s.(cache := Store(s.cache, s.now, key, balance, limit),
                 log := s.log + [Stored(r.chain, Lower(r.address), balance, s.now, pid)]))
  {
    var key := CacheKey(r.chain, r.address);
    var x := Stored(r.chain, Lower(r.address), balance, s.now, pid);
    LowerTwice(r.address);
    assert CacheKey(x.chain, x.address) == key;
    forall k: string ensures Latest(s.log + [x], k) == if k == key then Some(x) else Latest(s.log, k) {
      LatestAppend(s.log, x, k);
    }
    var more := s.(cache := s.cache[key := Entry(balance, s.now)], log := s.log + [x]);
    assert CacheOk(more);
    PruneKeeps(more);
  }

  lemma StepRefines(s: System, e: Event, limit: nat)
    requires CacheOk(s)
    ensures CacheOk(Step(s, e, limit)) && Project(Step(s, e, limit)) == IdealStep(Project(s), e)
  {
    match e
    case Lookup(_, chain, address) => FreshIsRecent(s, CacheKey(chain, address));
    case Receive(pid, reply) =>
      if Enabled(s, e) && reply.Result? {
        StoreKeeps(s, pid, s.requests[pid], BalanceOf(reply), limit);
      }
    case Prune => PruneKeeps(s);
    case Tick(_) =>
  }

  /** Whatever is pruned and whenever, requests are answered as if straight from the log of stored replies. */
  lemma {:induction false} CacheRefinesLog(s: System, es: seq<Event>, limit: nat)
    requires CacheOk(s)
    ensures CacheOk(Run(s, es, limit)) && Project(Run(s, es, limit)) == IdealRun(Project(s), es)
    decreases es
  {
    if es != [] {
      StepRefines(s, es[0], limit);
      CacheRefinesLog(Step(s, es[0], limit), es[1..], limit);
    }
  }

  function WithoutPrunes(es: seq<Event>): seq<Event> {
    if es == [] then []
    else if es[0].Prune? then WithoutPrunes(es[1..])
    else [es[0]] + WithoutPrunes(es[1..])
  }

  lemma {:induction false} IdealIgnoresPrunes(i: Ideal, es: seq<Event>)
    ensures IdealRun(i, WithoutPrunes(es)) == IdealRun(i, es)
    decreases es
  {
    if es != [] {
      IdealIgnoresPrunes(IdealStep(i, es[0]), es[1..]);
      if !es[0].Prune? {
        assert WithoutPrunes(es)[1..] == WithoutPrunes(es[1..]);
      }
    }
  }

  /** Pruning at any points, or above any number of entries, changes no answer. */
  lemma PruningUnobservable(es: seq<Event>, limit: nat, other: nat)
    ensures Run(EMPTY, es, limit).requests == Run(EMPTY, WithoutPrunes(es), other).requests
  {
    CacheRefinesLog(EMPTY, es, limit);
    CacheRefinesLog(EMPTY, WithoutPrunes(es), other);
    IdealIgnoresPrunes(Project(EMPTY), es);
  }

  // --- Where a cached answer comes from ---

  /** `x` was stored from a provider's non-error reply to a request for the same chain and address up to letter case. */
  ghost predicate FromReply(i: Ideal, x: Stored) {
    x.asker in i.requests &&
    var r := i.requests[x.asker];
    r.answer == Served(x.balance, false) && r.at == x.at && r.chain == x.chain &&
    Lower(r.address) == x.address && SameUpToCase(r.address, x.address)
  }

  ghost predicate AnswerOk(i: Ideal, r: Request) {
    r.seen <= |i.log| && r.at <= i.now &&
    (r.answer.Served? && r.answer.cached ==>
      match Latest(i.log[..r.seen], CacheKey(r.chain, r.address))
      case None => false
      case Some(x) =>
        x in i.log && x.balance == r.answer.balance && x.chain == r.chain && x.address == Lower(r.address) &&
        x.at <= r.at < x.at + CACHE_TTL_MS)
  }

  ghost predicate IdealOk(i: Ideal) {
    (forall j :: 0 <= j < |i.log| ==>
      i.log[j].at <= i.now && FromReply(i, i.log[j]) && i.log[j].address == Lower(i.log[j].address)) &&
    forall pid :: pid in i.requests ==> AnswerOk(i, i.requests[pid])
  }

  lemma {:induction false} LatestIn(log: seq<Stored>, key: string)
    ensures Latest(log, key).Some? ==> Latest(log, key).value in log
    ensures Latest(log, key).Some? ==> CacheKey(Latest(log, key).value.chain, Latest(log, key).value.address) == key
  {
    if log != [] { LatestIn(log[..|log| - 1], key); }
  }

  lemma FirstOk(i: Ideal, chain: Chain, address: string)
    requires IdealOk(i)
    ensures AnswerOk(i, First(chain, address, Recent(i.log, i.now, CacheKey(chain, address)), i.now, |i.log|))
  {
    var key := CacheKey(chain, address);
    assert i.log[..|i.log|] == i.log;
    LatestIn(i.log, key);
    if Latest(i.log, key).Some? {
      var x := Latest(i.log, key).value;
      KeyLower(x.chain, x.address, chain, address);
    }
  }

  lemma AnswerStays(i: Ideal, j: Ideal, r: Request)
    requires AnswerOk(i, r) && i.now <= j.now && |i.log| <= |j.log| && j.log[..|i.log|] == i.log
    ensures AnswerOk(j, r)
  {
    assert j.log[..r.seen] == i.log[..r.seen];
    assert forall x :: x in i.log ==> x in j.log;
  }

  lemma IdealStepKeeps(i: Ideal, e: Event)
    requires IdealOk(i)
    ensures IdealOk(IdealStep(i, e))
  {
    var j := IdealStep(i, e);
    assert j.log[..|i.log|] == i.log;
    if e.Lookup? && e.pid !in i.requests { FirstOk(i, e.chain, e.address); }
    forall pid | pid in j.requests ensures AnswerOk(j, j.requests[pid]) {
      if pid in i.requests && j.requests[pid] == i.requests[pid] { AnswerStays(i, j, i.requests[pid]); }
    }
    if e.Receive? && e.pid in i.requests {
      LowerTwice(i.requests[e.pid].address);
      LowerSame(i.requests[e.pid].address, Lower(i.requests[e.pid].address));
    }
    forall k | 0 <= k < |j.log|
      ensures j.log[k].at <= j.now && FromReply(j, j.log[k]) && j.log[k].address == Lower(j.log[k].address)
    {
      if k < |i.log| {
        assert j.log[k] == i.log[k] && FromReply(i, i.log[k]);
      }
    }
  }

  lemma {:induction false} IdealRunKeeps(i: Ideal, es: seq<Event>)
    requires IdealOk(i)
    ensures IdealOk(IdealRun(i, es))
    decreases es
  {
    if es != [] {
      IdealStepKeeps(i, es[0]);
      IdealRunKeeps(IdealStep(i, es[0]), es[1..]);
    }
  }

  /**
   * Every cached answer is the balance of the latest stored reply for the same chain
   * and address up to letter case, that reply was not an error, another request was answered
   * with it, and it was stored less than 30 s before.
   */
  lemma CachedAnswerGenuine(es: seq<Event>, limit: nat, pid: nat)
    requires var t := Run(EMPTY, es, limit);
      pid in t.requests && t.requests[pid].answer.Served? && t.requests[pid].answer.cached
    ensures var t := Run(EMPTY, es, limit); var r := t.requests[pid];
      r.seen <= |t.log| &&
      var x := Latest(t.log[..r.seen], CacheKey(r.chain, r.address));
      x.Some? && x.value.balance == r.answer.balance &&
      x.value.chain == r.chain && SameUpToCase(x.value.address, r.address) &&
      x.value.at <= r.at < x.value.at + 30_000 && FromReply(Project(t), x.value)
  {
    CacheRefinesLog(EMPTY, es, limit);
    IdealRunKeeps(Project(EMPTY), es);
    var i := Project(Run(EMPTY, es, limit));
    assert AnswerOk(i, i.requests[pid]);
    var r := i.requests[pid];
    var x := Latest(i.log[..r.seen], CacheKey(r.chain, r.address)).value;
    LowerTwice(r.address);
    LowerSame(x.address, r.address);
  }
}
