/** The provider service: its endpoint lists, and the counters that all its instances share. */
module ChainProviderService {
  import opened Chains
  import opened Common
  import opened RoundRobin

  /** The module-level counter map, and the lists of the instances made so far. */
  class RoundRobinCounters {
    var counters: map<Chain, nat>
    ghost var services: seq<Lists>

    constructor ()
      ensures State() == EMPTY
    {
      counters := map[];
      services := [];
    }

    ghost function State(): System
      reads this
    {
      System(counters, services)
    }
  }

  /** The chain's list is what configureChain keeps of `endpoints`. */
  predicate Configures(lists: Lists, chain: Chain, endpoints: seq<Endpoint>) {
    chain in lists && lists[chain] == Filtered(endpoints)
  }

  ghost predicate AllConfigured(lists: Lists, catalog: Chain -> seq<Endpoint>, chains: set<Chain>) {
    forall chain :: chain in chains ==> Configures(lists, chain, catalog(chain))
  }

  class ChainProviderService {
    var providers: Lists
    const shared: RoundRobinCounters
    ghost const keys: ApiKeys
    ghost var number: nat

    /** This is instance `number`. */
    ghost predicate Listed()
      reads this, shared
    {
      number < |shared.services| && shared.services[number] == providers
    }

    /** Its lists were built from `keys`. */
    ghost predicate Valid()
      reads this, shared
    {
      Listed() && BuiltFrom(providers, keys)
    }

    /** A new instance lists the endpoints that are usable with the keys, and leaves the shared counters alone. */
    constructor (keys: ApiKeys, shared: RoundRobinCounters)
      modifies shared`services
      ensures Valid() && this.shared == shared && this.keys == keys && number == old(|shared.services|)
      ensures shared.State() == Step(old(shared.State()), NewService(providers))
    {
      this.keys, this.shared := keys, shared;
      providers := map[];
      new;
      var catalog := chain => Configured(chain, keys);
      ConfigureChains(catalog);
      number, shared.services := |shared.services|, shared.services + [providers];
      forall chain: Chain ensures HasList(providers, chain, Providers(chain, keys)) {
        assert catalog(chain) == Configured(chain, keys);
      }
    }

    /** One call of configureChain for each supported chain, with its literal list. */
    method ConfigureChains(catalog: Chain -> seq<Endpoint>)
      modifies this`providers
      ensures forall chain: Chain :: Configures(providers, chain, catalog(chain))
    {
      ConfigureChain(Ethereum, catalog, {});
      ConfigureChain(Polygon, catalog, {Ethereum});
      ConfigureChain(Arbitrum, catalog, {Ethereum, Polygon});
      ConfigureChain(Optimism, catalog, {Ethereum, Polygon, Arbitrum});
      ConfigureChain(Base, catalog, {Ethereum, Polygon, Arbitrum, Optimism});
      ConfigureChain(Avalanche, catalog, {Ethereum, Polygon, Arbitrum, Optimism, Base});
      ConfigureChain(Bsc, catalog, {Ethereum, Polygon, Arbitrum, Optimism, Base, Avalanche});
      forall chain: Chain ensures Configures(providers, chain, catalog(chain)) {
        match chain
        case Ethereum | Polygon | Arbitrum | Optimism | Base | Avalanche | Bsc =>
      }
    }

    /** The chain's list becomes what the filter keeps; the chains configured before keep theirs. */
    method ConfigureChain(chain: Chain, catalog: Chain -> seq<Endpoint>, ghost before: set<Chain>)
      requires AllConfigured(providers, catalog, before)
      modifies this`providers
      ensures AllConfigured(providers, catalog, before + {chain}) && providers - {chain} == old(providers) - {chain}
    {
      providers := providers[chain := Filtered(catalog(chain))];
    }

    /** The URL at the shared counter in the chain's list, or None (an error) if it is empty. */
    method GetEndpoint(chain: Chain) returns (url: Option<string>)
      requires Listed()
      modifies shared`counters
      ensures Listed()
      ensures url == Answer(old(shared.State()), number, chain)
      ensures shared.State() == Step(old(shared.State()), Select(number, chain))
    {
      if chain !in providers || |providers[chain]| == 0 {
        return None;
      }
      var endpoints := providers[chain];
      var currentIndex := if chain in shared.counters then shared.counters[chain] else 0;
      var endpoint := endpoints[currentIndex % |endpoints|];
      shared.counters := shared.counters[chain := currentIndex + 1];
      url := Some(endpoint.url);
    }

    method GetProviderNames(chain: Chain) returns (names: seq<string>)
      requires Valid()
      ensures var list := Providers(chain, keys);
        |names| == |list| && forall i :: 0 <= i < |names| ==> names[i] == list[i].name
    {
      assert HasList(providers, chain, Providers(chain, keys));
      var endpoints := providers[chain];
      names := seq(|endpoints|, i requires 0 <= i < |endpoints| => endpoints[i].name);
    }
  }
}
