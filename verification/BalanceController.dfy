/**
 * The balance handler, statement by statement, on the cache it changes.  While it
 * waits for the provider, other requests run and the clock moves; `env` says how.
 */
module BalanceController {
  import opened BalanceCache
  import opened Chains

  predicate Own(pid: nat, e: Event) {
    (e.Lookup? || e.Receive?) && e.pid == pid
  }

  /** Events of other requests, and of the clock. */
  predicate Others(pid: nat, es: seq<Event>) {
    forall e | e in es :: !Own(pid, e)
  }

  lemma {:induction false} OthersElsewhere(s: System, pid: nat, es: seq<Event>)
    requires Others(pid, es)
    ensures var t := Run(s, es, MAX_ENTRIES);
      (pid in t.requests <==> pid in s.requests) && (pid in s.requests ==> t.requests[pid] == s.requests[pid])
    decreases es
  {
    if es != [] {
      assert !Own(pid, es[0]) && forall e :: e in es[1..] ==> e in es;
      OthersElsewhere(Step(s, es[0], MAX_ENTRIES), pid, es[1..]);
    }
  }

  class BalanceController {
    var sys: System

    constructor ()
      ensures sys == EMPTY
    {
      sys := EMPTY;
    }

    /** Visits every entry and deletes those older than the TTL. */
    method PruneCache()
      modifies this
      ensures sys == old(sys).(cache := Pruned(old(sys).cache, old(sys).now))
    {
      var now, all := sys.now, sys.cache;
      var keys := sys.cache.Keys;
      while keys != {}
        invariant keys <= all.Keys
        invariant sys == old(sys).(cache := sys.cache)
        invariant sys.cache.Keys <= all.Keys && forall k :: k in sys.cache ==> sys.cache[k] == all[k]
        invariant forall k :: k in all ==> (k in sys.cache <==> k in keys || now - all[k].cachedAt <= CACHE_TTL_MS)
        decreases keys
      {
        var key :| key in keys;
        if now - sys.cache[key].cachedAt > CACHE_TTL_MS {
          sys := sys.(cache := sys.cache - {key});
        }
        keys := keys - {key};
      }
      assert sys.cache == Pruned(all, now);
    }

    /** Other requests and the clock move. */
    method Await(es: seq<Event>)
      modifies this
      ensures sys == Run(old(sys), es, MAX_ENTRIES)
    {
      sys := Run(sys, es, MAX_ENTRIES);
    }

    /** The answer is that of one request of an interleaved run. */
    method GetBalance(pid: nat, chain: Chain, address: string, env: seq<Event>, reply: Reply)
      returns (answer: Answer, ghost trace: seq<Event>)
      requires pid !in sys.requests && Others(pid, env)
      modifies this
      ensures sys == Run(old(sys), trace, MAX_ENTRIES)
      ensures trace == [Lookup(pid, chain, address)] ||
              trace == [Lookup(pid, chain, address)] + env + [Receive(pid, reply)]
      ensures pid in sys.requests && sys.requests[pid].chain == chain && sys.requests[pid].address == address
      ensures answer == sys.requests[pid].answer && answer != Waiting
    {
      ghost var start := sys;
      var first := Lookup(pid, chain, address);
      trace := [first];
      RunOne(sys, first, MAX_ENTRIES);
      var cacheKey := CacheKey(chain, address);
      var cached := Fresh(sys.cache, sys.now, cacheKey);
      answer := if !ValidAddress(address) then BadRequest
                else if cached.Some? then Served(cached.value, true) else Waiting;
      sys := sys.(requests := sys.requests[pid := Request(chain, address, answer, sys.now, |sys.log|)]);
      if answer != Waiting {
        return;
      }

      OthersElsewhere(sys, pid, env);
      RunConcat(start, trace, env, MAX_ENTRIES);
      Await(env);
      trace := trace + env;
      RunNext(start, trace, Receive(pid, reply), MAX_ENTRIES);
      trace := trace + [Receive(pid, reply)];
      answer := Store(pid, cacheKey, reply);
    }

    /** What follows the provider's reply. */
    method Store(pid: nat, cacheKey: string, reply: Reply) returns (answer: Answer)
      requires Enabled(sys, Receive(pid, reply))
      requires cacheKey == CacheKey(sys.requests[pid].chain, sys.requests[pid].address)
      modifies this
      ensures sys == Step(old(sys), Receive(pid, reply), MAX_ENTRIES)
      ensures answer == sys.requests[pid].answer && answer != Waiting
    {
      var r, log := sys.requests[pid], sys.log;
      match reply {
        case ProviderError => answer := BadGateway;
        case Unreachable => answer := Unavailable;
        case Result(result) =>
          var balance := if result.Some? then result.value else "0x0";
          sys := sys.(cache := sys.cache[cacheKey := Entry(balance, sys.now)],
                      log := log + [Stored(r.chain, Lower(r.address), balance, sys.now, pid)]);
          if |sys.cache| > MAX_ENTRIES {
            PruneCache();
          }
          answer := Served(balance, false);
      }
      sys := sys.(requests := sys.requests[pid := r.(answer := answer, at := sys.now, seen := |log|)]);
    }
  }
}
