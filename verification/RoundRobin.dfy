/** Endpoint configuration and round-robin selection, and how evenly selections spread. */
module RoundRobin {
  import opened Common
  import opened Chains

  datatype Endpoint = Endpoint(name: string, url: string)

  /** The two API keys of the environment; an unset key reads as the empty text. */
  datatype ApiKeys = ApiKeys(alchemy: string, infura: string)

  function Alchemy(host: string, keys: ApiKeys): Endpoint {
    Endpoint("alchemy", "https://" + host + ".g.alchemy.com/v2/" + keys.alchemy)
  }

  function Infura(host: string, keys: ApiKeys): Endpoint {
    Endpoint("infura", "https://" + host + ".infura.io/v3/" + keys.infura)
  }

  /** The endpoints the constructor lists for each chain. */
  function Configured(chain: Chain, keys: ApiKeys): seq<Endpoint> {
    match chain
    case Ethereum =>
      [Alchemy("eth-mainnet", keys), Infura("mainnet", keys), Endpoint("public", "https://eth.llamarpc.com")]
    case Polygon =>
      [Alchemy("polygon-mainnet", keys), Infura("polygon-mainnet", keys), Endpoint("public", "https://polygon-rpc.com")]
    case Arbitrum =>
      [Alchemy("arb-mainnet", keys), Infura("arbitrum-mainnet", keys),
       Endpoint("public", "https://arb1.arbitrum.io/rpc")]
    case Optimism =>
      [Alchemy("opt-mainnet", keys), Infura("optimism-mainnet", keys),
       Endpoint("public", "https://mainnet.optimism.io")]
    case Base =>
      [Alchemy("base-mainnet", keys), Endpoint("public", "https://mainnet.base.org")]
    case Avalanche =>
      [Infura("avalanche-mainnet", keys), Endpoint("public", "https://api.avax.network/ext/bc/C/rpc")]
    case Bsc =>
      [Endpoint("public-1", "https://bsc-dataseed1.binance.org"),
       Endpoint("public-2", "https://bsc-dataseed2.binance.org"),
       Endpoint("public-3", "https://bsc-dataseed3.binance.org")]
  }

  predicate IsPublic(ep: Endpoint) {
    "public" <= ep.name
  }

  predicate EndsWithSlash(url: string) {
    url != "" && url[|url| - 1] == '/'
  }

  predicate Valid(ep: Endpoint) {
    IsPublic(ep) || !EndsWithSlash(ep.url)
  }

  /** endpoints.filter(...) of configureChain */
  function Filtered(endpoints: seq<Endpoint>): (r: seq<Endpoint>)
    ensures forall ep :: ep in r <==> ep in endpoints && Valid(ep)
  {
    if endpoints == [] then []
    else
      assert endpoints == [endpoints[0]] + endpoints[1..];
      (if Valid(endpoints[0]) then [endpoints[0]] else []) + Filtered(endpoints[1..])
  }

  /** The name starts with "public", or the URL does not end in a slash. */
  ghost predicate IsKept(ep: Endpoint) {
    (exists rest: string :: ep.name == "public" + rest) || !exists head: string :: ep.url == head + "/"
  }

  lemma ValidExact(ep: Endpoint)
    ensures Valid(ep) <==> IsKept(ep)
  {
    if "public" <= ep.name { assert ep.name == "public" + ep.name[6..]; }
    if EndsWithSlash(ep.url) { assert ep.url == ep.url[..|ep.url| - 1] + "/"; }
  }

  lemma {:induction false} FilterAppend(a: seq<Endpoint>, b: seq<Endpoint>)
    ensures Filtered(a + b) == Filtered(a) + Filtered(b)
  {
    if a == [] {
      assert a + b == b;
    } else {
      FilterAppend(a[1..], b);
      assert (a + b)[1..] == a[1..] + b && (a + b)[0] == a[0];
    }
  }

  lemma FilterOne(ep: Endpoint)
    ensures Filtered([ep]) == if IsKept(ep) then [ep] else []
  {
    ValidExact(ep);
    assert [ep][1..] == [];
  }

  /** The filter keeps the endpoints it should, in their order, each by itself. */
  lemma FilterExact(head: seq<Endpoint>, ep: Endpoint, tail: seq<Endpoint>)
    ensures Filtered(head + [ep] + tail) == Filtered(head) + (if IsKept(ep) then [ep] else []) + Filtered(tail)
  {
    FilterAppend(head + [ep], tail);
    FilterAppend(head, [ep]);
    FilterOne(ep);
  }

  function Providers(chain: Chain, keys: ApiKeys): seq<Endpoint> {
    Filtered(Configured(chain, keys))
  }

  /** Whether an endpoint needing `key` survives the filter. */
  predicate Usable(key: string) {
    key != "" && key[|key| - 1] != '/'
  }

  /** The key the endpoint needs, if any, is usable. */
  predicate HasKey(ep: Endpoint, keys: ApiKeys) {
    (ep.name == "alchemy" ==> Usable(keys.alchemy)) && (ep.name == "infura" ==> Usable(keys.infura))
  }

  lemma KeyedUrl(prefix: string, key: string)
    requires EndsWithSlash(prefix)
    ensures EndsWithSlash(prefix + key) <==> !Usable(key)
  {
    if key != "" { assert (prefix + key)[|prefix + key| - 1] == key[|key| - 1]; }
  }

  lemma ProviderValid(host: string, keys: ApiKeys)
    ensures Valid(Alchemy(host, keys)) <==> Usable(keys.alchemy)
    ensures Valid(Infura(host, keys)) <==> Usable(keys.infura)
  {
    var alchemy, infura := "https://" + host + ".g.alchemy.com/v2/", "https://" + host + ".infura.io/v3/";
    assert alchemy[|alchemy| - 1] == '/' && infura[|infura| - 1] == '/';
    KeyedUrl(alchemy, keys.alchemy);
    KeyedUrl(infura, keys.infura);
    assert "alchemy"[0] == 'a' && "infura"[0] == 'i' && "public"[0] == 'p';
  }

  /**
   * Whatever the keys, every chain keeps an endpoint: each public one, and a keyed
   * one exactly when its key is present and does not end in a slash.
   */
  lemma NeverEmpty(chain: Chain, keys: ApiKeys)
    ensures Providers(chain, keys) != []
    ensures forall ep :: ep in Configured(chain, keys) ==>
              (ep in Providers(chain, keys) <==> HasKey(ep, keys))
  {
    var all := Configured(chain, keys);
    forall ep | ep in all
      ensures Valid(ep) <==> HasKey(ep, keys)
    {
      EndpointValid(chain, keys, ep);
    }
    assert all[|all| - 1] in all && IsPublic(all[|all| - 1]);
    assert all[|all| - 1] in Providers(chain, keys);
  }

  lemma EndpointValid(chain: Chain, keys: ApiKeys, ep: Endpoint)
    requires ep in Configured(chain, keys)
    ensures Valid(ep) <==> HasKey(ep, keys)
  {
    match chain
    case Ethereum => ProviderValid("eth-mainnet", keys); ProviderValid("mainnet", keys);
    case Polygon => ProviderValid("polygon-mainnet", keys);
    case Arbitrum => ProviderValid("arb-mainnet", keys); ProviderValid("arbitrum-mainnet", keys);
    case Optimism => ProviderValid("opt-mainnet", keys); ProviderValid("optimism-mainnet", keys);
    case Base => ProviderValid("base-mainnet", keys);
    case Avalanche => ProviderValid("avalanche-mainnet", keys);
    case Bsc =>
  }

  // --- Selection: counters are shared by all instances of the service ---

  /** The endpoint lists of an instance of the service. */
  type Lists = map<Chain, seq<Endpoint>>

  /** `services` has the lists of each instance in turn. */
  datatype System = System(counters: map<Chain, nat>, services: seq<Lists>)

  datatype Event = NewService(lists: Lists) | Select(service: nat, chain: Chain)

  const EMPTY: System := System(map[], [])

  function Counter(s: System, chain: Chain): nat {
    if chain in s.counters then s.counters[chain] else 0
  }

  /** The list an instance selects from. */
  function Offers(s: System, service: nat, chain: Chain): seq<Endpoint> {
    if service < |s.services| && chain in s.services[service] then s.services[service][chain] else []
  }

  /** The position in a list of length `n` of the endpoint selected next. */
  function Chosen(s: System, chain: Chain, n: nat): nat
    requires n > 0
  {
    Counter(s, chain) % n
  }

  /** What a selection answers; with an empty list it is an error. */
  function Answer(s: System, service: nat, chain: Chain): Option<string> {
    var list := Offers(s, service, chain);
    if list == [] then None else Some(list[Chosen(s, chain, |list|)].url)
  }

  predicate Selects(s: System, e: Event, chain: Chain) {
    e.Select? && e.chain == chain && Offers(s, e.service, chain) != []
  }

  function Step(s: System, e: Event): System {
    match e
    case NewService(lists) => s.(services := s.services + [lists])
    case Select(service, chain) =>
      if Offers(s, service, chain) == [] then s
      else s.(counters := s.counters[chain := Counter(s, chain) + 1])
  }

  function Run(s: System, es: seq<Event>): System
    decreases es
  {
    if es == [] then s else Run(Step(s, es[0]), es[1..])
  }

  /** How many selections on a chain a run makes. */
  function Selections(s: System, es: seq<Event>, chain: Chain): nat
    decreases es
  {
    if es == [] then 0
    else (if Selects(s, es[0], chain) then 1 else 0) + Selections(Step(s, es[0]), es[1..], chain)
  }

  /** How many of them choose position `index` of a list of length `n`. */
  function Uses(s: System, es: seq<Event>, chain: Chain, n: nat, index: nat): nat
    requires n > 0
    decreases es
  {
    if es == [] then 0
    else (if Selects(s, es[0], chain) && Chosen(s, chain, n) == index then 1 else 0) +
         Uses(Step(s, es[0]), es[1..], chain, n, index)
  }

  /** How many of the numbers from .. from + k - 1 leave remainder `index` when divided by `n`. */
  function Hits(from: nat, k: nat, n: nat, index: nat): nat
    requires n > 0
    decreases k
  {
    if k == 0 then 0 else (if from % n == index then 1 else 0) + Hits(from + 1, k - 1, n, index)
  }

  /** Selections elsewhere and new service instances do not disturb a chain's cycle. */
  lemma {:induction false} UsesAreHits(s: System, es: seq<Event>, chain: Chain, n: nat, index: nat)
    requires n > 0
    ensures Uses(s, es, chain, n, index) == Hits(Counter(s, chain), Selections(s, es, chain), n, index)
    decreases es
  {
    if es != [] { UsesAreHits(Step(s, es[0]), es[1..], chain, n, index); }
  }

  /** The numbers below `m` that leave remainder `index`. */
  function Below(m: nat, n: nat, index: nat): nat
    requires index < n
  {
    (m + n - 1 - index) / n
  }

  lemma DivMod(x: nat, n: nat)
    requires n > 0
    ensures x == (x / n) * n + x % n && 0 <= x % n < n
  {}

  lemma MulMonotone(a: nat, b: nat, n: nat)
    requires a <= b
    ensures a * n <= b * n
  {}

  lemma MulSum(a: nat, b: nat, n: nat)
    ensures (a + b) * n == a * n + b * n
  {}

  lemma QuotientLess(q: nat, r: nat, p: nat, t: nat, n: nat)
    requires q < p && r < n
    ensures q * n + r < p * n + t
  {
    MulMonotone(q + 1, p, n);
    MulSum(q, 1, n);
  }

  lemma QuotientUnique(q: nat, r: nat, p: nat, t: nat, n: nat)
    requires q * n + r == p * n + t && r < n && t < n
    ensures q == p && r == t
  {
    if q < p { QuotientLess(q, r, p, t, n); }
    if p < q { QuotientLess(p, t, q, r, n); }
  }

  lemma DivideExact(x: nat, n: nat, q: nat, r: nat)
    requires n > 0 && r < n && x == q * n + r
    ensures x / n == q && x % n == r
  {
    DivMod(x, n);
    QuotientUnique(x / n, x % n, q, r, n);
  }

  lemma BelowNext(m: nat, n: nat, index: nat)
    requires index < n
    ensures Below(m + 1, n, index) == Below(m, n, index) + if m % n == index then 1 else 0
  {
    BelowIs(m, n, index, m / n, m % n);
    DivMod(m, n);
    if m % n + 1 < n {
      BelowIs(m + 1, n, index, m / n, m % n + 1);
    } else {
      MulSum(m / n, 1, n);
      BelowIs(m + 1, n, index, m / n + 1, 0);
    }
  }

  lemma BelowIs(m: nat, n: nat, index: nat, q: nat, r: nat)
    requires index < n && r < n && (m == q * n + r || (q == m / n && r == m % n))
    ensures Below(m, n, index) == q + if r > index then 1 else 0
  {
    DivMod(m, n);
    if r > index {
      MulSum(q, 1, n);
      DivideExact(m + n - 1 - index, n, q + 1, r - 1 - index);
    } else {
      DivideExact(m + n - 1 - index, n, q, r + n - 1 - index);
    }
  }

  lemma {:induction false} HitsAre(from: nat, k: nat, n: nat, index: nat)
    requires index < n
    ensures Hits(from, k, n, index) == Below(from + k, n, index) - Below(from, n, index)
    decreases k
  {
    if k > 0 {
      HitsAre(from + 1, k - 1, n, index);
      BelowNext(from, n, index);
    }
  }

  /** The ceiling of k / n is its floor, or one more when something is left over. */
  lemma CeilIs(k: nat, n: nat)
    requires n > 0
    ensures (k + n - 1) / n == k / n + if k % n == 0 then 0 else 1
  {
    var q, r := k / n, k % n;
    DivMod(k, n);
    if r == 0 {
      DivideExact(k + n - 1, n, q, n - 1);
    } else {
      MulSum(q, 1, n);
      DivideExact(k + n - 1, n, q + 1, r - 1);
    }
  }

  lemma SumIs(a: nat, k: nat, n: nat)
    requires n > 0
    ensures (a + k) / n == a / n + k / n + if a % n + k % n < n then 0 else 1
  {
    var qa, ra, qk, rk := a / n, a % n, k / n, k % n;
    DivMod(a, n);
    DivMod(k, n);
    MulSum(qa, qk, n);
    if ra + rk < n {
      DivideExact(a + k, n, qa + qk, ra + rk);
    } else {
      MulSum(qa + qk, 1, n);
      DivideExact(a + k, n, qa + qk + 1, ra + rk - n);
    }
  }

  /**
   * From any state and over any run, k selections on a chain with n endpoints use
   * each of them floor(k / n) or ceil(k / n) times.
   */
  lemma Balanced(s: System, es: seq<Event>, chain: Chain, n: nat, index: nat)
    requires index < n
    ensures var k, uses := Selections(s, es, chain), Uses(s, es, chain, n, index);
      uses == k / n || uses == (k + n - 1) / n
  {
    var k, from := Selections(s, es, chain), Counter(s, chain);
    UsesAreHits(s, es, chain, n, index);
    HitsAre(from, k, n, index);
    SumIs(from + n - 1 - index, k, n);
    CeilIs(k, n);
    DivMod(from + n - 1 - index, n);
  }

  /** In particular n selections in a row on a chain use every endpoint exactly once. */
  lemma FullCycle(s: System, es: seq<Event>, chain: Chain, n: nat, index: nat)
    requires index < n && Selections(s, es, chain) == n
    ensures Uses(s, es, chain, n, index) == 1
  {
    Balanced(s, es, chain, n, index);
    DivideExact(n, n, 1, 0);
    CeilIs(n, n);
  }

  // --- In terms of URLs ---

  predicate DistinctUrls(endpoints: seq<Endpoint>) {
    forall i, j | 0 <= i < j < |endpoints| :: endpoints[i].url != endpoints[j].url
  }

  lemma ThreeDistinct(all: seq<Endpoint>, i: nat, j: nat, k: nat)
    requires |all| == 3 && i < |all[0].url| && i < |all[1].url| && j < |all[0].url| && j < |all[2].url|
    requires k < |all[1].url| && k < |all[2].url|
    requires all[0].url[i] != all[1].url[i] && all[0].url[j] != all[2].url[j] && all[1].url[k] != all[2].url[k]
    ensures DistinctUrls(all)
  {}

  lemma TwoDistinct(all: seq<Endpoint>, i: nat)
    requires |all| == 2 && i < |all[0].url| && i < |all[1].url| && all[0].url[i] != all[1].url[i]
    ensures DistinctUrls(all)
  {}

  lemma MainnetsDistinct(keys: ApiKeys)
    ensures DistinctUrls(Configured(Ethereum, keys)) && DistinctUrls(Configured(Polygon, keys))
  {
    ThreeDistinct(Configured(Ethereum, keys), 8, 11, 8);
    ThreeDistinct(Configured(Polygon, keys), 24, 16, 16);
  }

  lemma RollupsDistinct(keys: ApiKeys)
    ensures DistinctUrls(Configured(Arbitrum, keys)) && DistinctUrls(Configured(Optimism, keys))
  {
    ThreeDistinct(Configured(Arbitrum, keys), 11, 11, 11);
    ThreeDistinct(Configured(Optimism, keys), 11, 8, 8);
  }

  lemma OthersDistinct(keys: ApiKeys)
    ensures DistinctUrls(Configured(Base, keys)) && DistinctUrls(Configured(Avalanche, keys))
    ensures DistinctUrls(Configured(Bsc, keys))
  {
    TwoDistinct(Configured(Base, keys), 8);
    TwoDistinct(Configured(Avalanche, keys), 9);
    ThreeDistinct(Configured(Bsc, keys), 20, 20, 20);
  }

  /** No two configured endpoints of a chain share a URL, whatever the keys. */
  lemma ConfiguredDistinct(chain: Chain, keys: ApiKeys)
    ensures DistinctUrls(Configured(chain, keys))
  {
    MainnetsDistinct(keys);
    RollupsDistinct(keys);
    OthersDistinct(keys);
  }

  function NamesOf(endpoints: seq<Endpoint>): seq<string> {
    seq(|endpoints|, i requires 0 <= i < |endpoints| => endpoints[i].name)
  }

  /** The providers listed for each chain. */
  lemma ProviderNames(keys: ApiKeys)
    ensures forall chain: Chain :: NamesOf(Configured(chain, keys)) ==
              match chain
              case Base => ["alchemy", "public"]
              case Avalanche => ["infura", "public"]
              case Bsc => ["public-1", "public-2", "public-3"]
              case _ => ["alchemy", "infura", "public"]
  {}

  ghost predicate HasShape(ep: Endpoint, keys: ApiKeys) {
    (ep.name == "alchemy" ==>
      exists host: string :: ep.url == "https://" + host + ".g.alchemy.com/v2/" + keys.alchemy) &&
    (ep.name == "infura" ==>
      exists host: string :: ep.url == "https://" + host + ".infura.io/v3/" + keys.infura)
  }

  lemma HostShape(host: string, keys: ApiKeys)
    ensures HasShape(Alchemy(host, keys), keys) && HasShape(Infura(host, keys), keys)
  {
    assert "alchemy"[0] != "infura"[0];
  }

  /** A keyed endpoint is a URL of its provider that ends in that provider's key. */
  lemma KeyedShape(chain: Chain, keys: ApiKeys, ep: Endpoint)
    requires ep in Configured(chain, keys)
    ensures HasShape(ep, keys)
  {
    assert "alchemy"[0] != "public"[0] && "infura"[0] != "public"[0];
    match chain
    case Ethereum => HostShape("eth-mainnet", keys); HostShape("mainnet", keys);
    case Polygon => HostShape("polygon-mainnet", keys);
    case Arbitrum => HostShape("arb-mainnet", keys); HostShape("arbitrum-mainnet", keys);
    case Optimism => HostShape("opt-mainnet", keys); HostShape("optimism-mainnet", keys);
    case Base => HostShape("base-mainnet", keys);
    case Avalanche => HostShape("avalanche-mainnet", keys);
    case Bsc => BscShape(keys);
  }

  lemma BscShape(keys: ApiKeys)
    ensures forall i :: 0 <= i < 3 ==> Configured(Bsc, keys)[i].name[0] == 'p'
  {}

  /** The chain a provider URL is of, as the start of its host name tells. */
  function Owner(url: string): Option<Chain> {
    if |url| <= 16 then None
    else match url[8]
      case 'e' => Some(Ethereum)
      case 'p' => Some(Polygon)
      case 'o' => Some(Optimism)
      case 'b' => Some(if url[9] == 'a' then Base else Bsc)
      case 'a' => Some(if url[9] == 'r' then Arbitrum else Avalanche)
      case _ => Some(match url[16] case 'o' => Optimism case 'b' => Base case _ => Ethereum)
  }

  lemma EthereumOwned(keys: ApiKeys)
    ensures forall i :: 0 <= i < 3 ==> Owner(Configured(Ethereum, keys)[i].url) == Some(Ethereum)
  {}

  lemma PolygonOwned(keys: ApiKeys)
    ensures forall i :: 0 <= i < 3 ==> Owner(Configured(Polygon, keys)[i].url) == Some(Polygon)
  {}

  lemma ArbitrumOwned(keys: ApiKeys)
    ensures forall i :: 0 <= i < 3 ==> Owner(Configured(Arbitrum, keys)[i].url) == Some(Arbitrum)
  {}

  lemma OptimismOwned(keys: ApiKeys)
    ensures forall i :: 0 <= i < 3 ==> Owner(Configured(Optimism, keys)[i].url) == Some(Optimism)
  {}

  lemma BaseOwned(keys: ApiKeys)
    ensures forall i :: 0 <= i < 2 ==> Owner(Configured(Base, keys)[i].url) == Some(Base)
  {}

  lemma AvalancheOwned(keys: ApiKeys)
    ensures forall i :: 0 <= i < 2 ==> Owner(Configured(Avalanche, keys)[i].url) == Some(Avalanche)
  {}

  lemma BscOwned(keys: ApiKeys)
    ensures forall i :: 0 <= i < 3 ==> Owner(Configured(Bsc, keys)[i].url) == Some(Bsc)
  {}

  lemma OwnerIs(chain: Chain, keys: ApiKeys, ep: Endpoint)
    requires ep in Configured(chain, keys)
    ensures Owner(ep.url) == Some(chain)
  {
    match chain
    case Ethereum => EthereumOwned(keys);
    case Polygon => PolygonOwned(keys);
    case Arbitrum => ArbitrumOwned(keys);
    case Optimism => OptimismOwned(keys);
    case Base => BaseOwned(keys);
    case Avalanche => AvalancheOwned(keys);
    case Bsc => BscOwned(keys);
  }

  /** No endpoint of one chain has the URL of an endpoint of another, whatever the keys. */
  lemma ChainsApart(c: Chain, keys: ApiKeys, x: Endpoint, d: Chain, other: ApiKeys, y: Endpoint)
    requires c != d && x in Configured(c, keys) && y in Configured(d, other)
    ensures x.url != y.url
  {
    OwnerIs(c, keys, x);
    OwnerIs(d, other, y);
  }

  lemma {:induction false} FilteredDistinct(endpoints: seq<Endpoint>)
    requires DistinctUrls(endpoints)
    ensures DistinctUrls(Filtered(endpoints))
  {
    if endpoints != [] {
      FilteredDistinct(endpoints[1..]);
      var rest := Filtered(endpoints[1..]);
      forall j | 0 <= j < |rest| ensures rest[j].url != endpoints[0].url {
        assert rest[j] in rest;
        var k :| 0 <= k < |endpoints[1..]| && endpoints[1..][k] == rest[j];
        assert endpoints[k + 1] == rest[j];
      }
    }
  }

  lemma ProvidersDistinct(chain: Chain, keys: ApiKeys)
    ensures DistinctUrls(Providers(chain, keys))
  {
    ConfiguredDistinct(chain, keys);
    FilteredDistinct(Configured(chain, keys));
  }

  /** How many selections of a run on a chain answer a URL. */
  function UrlUses(s: System, es: seq<Event>, chain: Chain, url: string): nat
    decreases es
  {
    if es == [] then 0
    else (if es[0].Select? && es[0].chain == chain && Answer(s, es[0].service, chain) == Some(url) then 1 else 0) +
         UrlUses(Step(s, es[0]), es[1..], chain, url)
  }

  predicate HasList(lists: Lists, chain: Chain, list: seq<Endpoint>) {
    chain in lists && lists[chain] == list
  }

  /** All instances, present and to come, have the same list for the chain. */
  predicate SameList(s: System, es: seq<Event>, chain: Chain, list: seq<Endpoint>) {
    (forall x | x in s.services :: HasList(x, chain, list)) &&
    (forall e | e in es && e.NewService? :: HasList(e.lists, chain, list))
  }

  lemma SameListNext(s: System, es: seq<Event>, chain: Chain, list: seq<Endpoint>)
    requires es != [] && SameList(s, es, chain, list)
    ensures SameList(Step(s, es[0]), es[1..], chain, list)
  {
    assert es[0] in es && forall e :: e in es[1..] ==> e in es;
  }

  /** An answer is the URL at the chosen position of the one list. */
  lemma AnswerIs(s: System, service: nat, chain: Chain, list: seq<Endpoint>, index: nat)
    requires DistinctUrls(list) && index < |list|
    requires Offers(s, service, chain) == list || Offers(s, service, chain) == []
    ensures Answer(s, service, chain) == Some(list[index].url) <==>
            Offers(s, service, chain) != [] && Chosen(s, chain, |list|) == index
  {
    var c := Chosen(s, chain, |list|);
    assert c != index ==> list[c].url != list[index].url;
  }

  lemma OneList(s: System, es: seq<Event>, service: nat, chain: Chain, list: seq<Endpoint>)
    requires SameList(s, es, chain, list)
    ensures Offers(s, service, chain) == list || Offers(s, service, chain) == []
  {
    if service < |s.services| { assert s.services[service] in s.services; }
  }

  lemma {:induction false} UrlUsesAre(s: System, es: seq<Event>, chain: Chain, list: seq<Endpoint>, index: nat)
    requires SameList(s, es, chain, list) && DistinctUrls(list) && index < |list|
    ensures UrlUses(s, es, chain, list[index].url) == Uses(s, es, chain, |list|, index)
    decreases es
  {
    if es != [] {
      SameListNext(s, es, chain, list);
      UrlUsesAre(Step(s, es[0]), es[1..], chain, list, index);
      if es[0].Select? && es[0].chain == chain {
        OneList(s, es, es[0].service, chain, list);
        AnswerIs(s, es[0].service, chain, list, index);
      }
    }
  }

  lemma ListSharesEvenly(s: System, es: seq<Event>, chain: Chain, list: seq<Endpoint>, ep: Endpoint)
    requires SameList(s, es, chain, list) && DistinctUrls(list) && ep in list
    ensures var k, uses := Selections(s, es, chain), UrlUses(s, es, chain, ep.url);
      uses == k / |list| || uses == (k + |list| - 1) / |list|
  {
    var index: nat :| index < |list| && list[index] == ep;
    UrlUsesAre(s, es, chain, list, index);
    Balanced(s, es, chain, |list|, index);
  }

  /**
   * Each provider of a chain is answered floor(k / n) or ceil(k / n) times in any k
   * consecutive selections on it, whichever instances of the service make them.
   */
  lemma ProvidersShareEvenly(s: System, es: seq<Event>, chain: Chain, keys: ApiKeys, ep: Endpoint)
    requires SameList(s, es, chain, Providers(chain, keys)) && ep in Providers(chain, keys)
    ensures var k, n := Selections(s, es, chain), |Providers(chain, keys)|;
      var uses := UrlUses(s, es, chain, ep.url);
      uses == k / n || uses == (k + n - 1) / n
  {
    ProvidersDistinct(chain, keys);
    ListSharesEvenly(s, es, chain, Providers(chain, keys), ep);
  }

  /** The lists of an instance built from these API keys. */
  ghost predicate BuiltFrom(lists: Lists, keys: ApiKeys) {
    forall chain: Chain :: HasList(lists, chain, Providers(chain, keys))
  }

  /** Such an instance always answers, with the URL of one of its chain's providers. */
  lemma AlwaysAnswers(s: System, service: nat, chain: Chain, keys: ApiKeys)
    requires service < |s.services| && BuiltFrom(s.services[service], keys)
    ensures var url := Answer(s, service, chain);
      url.Some? && exists ep :: ep in Providers(chain, keys) && ep.url == url.value
  {
    var list := Providers(chain, keys);
    assert HasList(s.services[service], chain, list);
    NeverEmpty(chain, keys);
    assert list[Chosen(s, chain, |list|)] in list;
  }
}
