/** internal/marketradar/realtime_markets.go: the recent prices of every token. Prices are reals, times
    are Unix seconds. */
module RealtimeSamples {
  import opened Prelude
  import opened Text

  datatype Sample = Sample(at: int, price: real)

  ghost predicate Increasing(samples: seq<Sample>) {
    forall i, j :: 0 <= i < j < |samples| ==> samples[i].at < samples[j].at
  }

  predicate Plausible(s: Sample) {
    s.at > 0 && 0.0 < s.price <= 1.0
  }

  ghost predicate Proper(samples: seq<Sample>) {
    Increasing(samples) && forall i :: 0 <= i < |samples| ==> Plausible(samples[i])
  }

  /** What a list means: the price at each time. */
  function Prices(samples: seq<Sample>): map<int, real> {
    if samples == [] then map[]
    else Prices(samples[..|samples| - 1])[samples[|samples| - 1].at := samples[|samples| - 1].price]
  }

  lemma {:induction false} PricesOf(samples: seq<Sample>)
    requires Increasing(samples)
    ensures forall i :: 0 <= i < |samples| ==>
      samples[i].at in Prices(samples) && Prices(samples)[samples[i].at] == samples[i].price
    ensures forall at :: at in Prices(samples) ==> exists i :: 0 <= i < |samples| && samples[i].at == at
  {
    if samples != [] {
      var init, last := samples[..|samples| - 1], samples[|samples| - 1];
      PricesOf(init);
      forall i | 0 <= i < |samples|
        ensures samples[i].at in Prices(samples) && Prices(samples)[samples[i].at] == samples[i].price
      {
        assert i < |init| ==> samples[i] == init[i];
      }
      forall at | at in Prices(samples) ensures exists i :: 0 <= i < |samples| && samples[i].at == at {
        if at == last.at {
          assert samples[|samples| - 1].at == at;
        } else {
          assert at in Prices(init);
          var i :| 0 <= i < |init| && init[i].at == at;
          assert samples[i].at == at;
        }
      }
    }
  }

  lemma {:induction false} PricesConcat(a: seq<Sample>, b: seq<Sample>)
    ensures Prices(a + b) == Prices(a) + Prices(b)
  {
    if b == [] {
      assert a + b == a;
    } else {
      var init, last := b[..|b| - 1], b[|b| - 1];
      PricesConcat(a, init);
      assert (a + b)[..|a + b| - 1] == a + init;
    }
  }

  /** The prices of a list around one entry. */
  lemma PricesAround(a: seq<Sample>, sample: Sample, b: seq<Sample>)
    requires Increasing(b) && forall i :: 0 <= i < |b| ==> b[i].at > sample.at
    ensures Prices(a + [sample] + b) == (Prices(a) + Prices(b))[sample.at := sample.price]
  {
    PricesConcat(a + [sample], b);
    assert (a + [sample])[..|a|] == a;
    PricesOf(b);
    assert sample.at !in Prices(b);
  }

  method AppendOrReplace(samples: seq<Sample>, sample: Sample) returns (r: seq<Sample>)
    requires Proper(samples)
    ensures Proper(r)
    ensures Prices(r) == if Plausible(sample) then Prices(samples)[sample.at := sample.price] else Prices(samples)
  {
    if sample.at <= 0 || sample.price <= 0.0 || sample.price > 1.0 {
      return samples;
    }
    var insert := 0;
    while insert < |samples| && samples[insert].at < sample.at
      invariant 0 <= insert <= |samples|
      invariant forall i :: 0 <= i < insert ==> samples[i].at < sample.at
    {
      insert := insert + 1;
    }
    if insert < |samples| && samples[insert].at == sample.at {
      r := samples[insert := sample];
      Replaced(samples, sample, insert);
    } else {
      r := samples[..insert] + [sample] + samples[insert..];
      Inserted(samples, sample, insert);
    }
  }

  lemma Suffix(samples: seq<Sample>, first: nat)
    requires Proper(samples) && first <= |samples|
    ensures Proper(samples[first..])
    ensures first > 0 ==> forall i :: 0 <= i < |samples| - first ==> samples[first - 1].at < samples[first..][i].at
  {
  }

  lemma UpdateAround(samples: seq<Sample>, at: nat, sample: Sample)
    requires at < |samples|
    ensures samples[at := sample] == samples[..at] + [sample] + samples[at + 1..]
  {
  }

  lemma Replaced(samples: seq<Sample>, sample: Sample, at: nat)
    requires at < |samples| && Proper(samples) && Plausible(sample) && samples[at].at == sample.at
    ensures Proper(samples[at := sample]) && Prices(samples[at := sample]) == Prices(samples)[sample.at := sample.price]
  {
    Suffix(samples, at + 1);
    UpdateAround(samples, at, samples[at]);
    UpdateAround(samples, at, sample);
    PricesAround(samples[..at], samples[at], samples[at + 1..]);
    PricesAround(samples[..at], sample, samples[at + 1..]);
    assert samples[at := samples[at]] == samples;
  }

  /** `r` is `samples` with `sample` at index `at`. */
  ghost predicate Inserts(r: seq<Sample>, samples: seq<Sample>, sample: Sample, at: nat) {
    && |r| == |samples| + 1 && at <= |samples|
    && forall i {:trigger r[i]} :: 0 <= i < |r| ==>
         r[i] == if i < at then samples[i] else if i == at then sample else samples[i - 1]
  }

  lemma InsertedProper(r: seq<Sample>, samples: seq<Sample>, sample: Sample, at: nat)
    requires Inserts(r, samples, sample, at) && Proper(samples) && Plausible(sample)
    requires forall i :: 0 <= i < |samples| ==> if i < at then samples[i].at < sample.at else sample.at < samples[i].at
    ensures Proper(r)
  {
    forall i, j | 0 <= i < j < |r| ensures r[i].at < r[j].at {
      var x, y := if i < at then i else i - 1, if j < at then j else j - 1;
      if i != at && j != at {
        assert samples[x].at < samples[y].at;
      }
    }
    forall i | 0 <= i < |r| ensures Plausible(r[i]) {
    }
  }

  lemma InsertedPrices(samples: seq<Sample>, sample: Sample, at: nat)
    requires at <= |samples| && Increasing(samples[at..])
    requires forall i :: at <= i < |samples| ==> sample.at < samples[i].at
    ensures Prices(samples[..at] + [sample] + samples[at..]) == Prices(samples)[sample.at := sample.price]
  {
    var a, b := samples[..at], samples[at..];
    assert forall i :: 0 <= i < |b| ==> b[i] == samples[at + i];
    assert samples == a + b;
    PricesConcat(a, b);
    PricesAround(a, sample, b);
  }

  lemma Inserted(samples: seq<Sample>, sample: Sample, at: nat)
    requires at <= |samples| && Proper(samples) && Plausible(sample)
    requires forall i :: 0 <= i < at ==> samples[i].at < sample.at
    requires at < |samples| ==> sample.at < samples[at].at
    ensures var r := samples[..at] + [sample] + samples[at..];
      Proper(r) && Prices(r) == Prices(samples)[sample.at := sample.price]
  {
    var r := samples[..at] + [sample] + samples[at..];
    assert Inserts(r, samples, sample, at);
    InsertedProper(r, samples, sample, at);
    InsertedPrices(samples, sample, at);
  }

  function Since(prices: map<int, real>, cutoff: int): map<int, real> {
    map at | at in prices && at >= cutoff :: prices[at]
  }

  method Prune(samples: seq<Sample>, cutoff: int) returns (r: seq<Sample>)
    requires Proper(samples)
    ensures Proper(r) && Prices(r) == Since(Prices(samples), cutoff)
    ensures forall i :: 0 <= i < |r| ==> r[i].at >= cutoff
  {
    var first := 0;
    while first < |samples| && samples[first].at < cutoff
      invariant 0 <= first <= |samples|
      invariant forall i :: 0 <= i < first ==> samples[i].at < cutoff
    {
      first := first + 1;
    }
    r := samples[first..];
    Dropped(samples, first, cutoff);
  }

  lemma SincePrices(a: seq<Sample>, b: seq<Sample>, cutoff: int)
    requires Increasing(a) && Increasing(b)
    requires forall i :: 0 <= i < |a| ==> a[i].at < cutoff
    requires forall i :: 0 <= i < |b| ==> b[i].at >= cutoff
    ensures Since(Prices(a + b), cutoff) == Prices(b)
  {
    PricesConcat(a, b);
    PricesOf(a);
    PricesOf(b);
  }

  lemma Dropped(samples: seq<Sample>, first: nat, cutoff: int)
    requires Proper(samples) && first <= |samples| && forall i :: 0 <= i < first ==> samples[i].at < cutoff
    requires first < |samples| ==> samples[first].at >= cutoff
    ensures Proper(samples[first..]) && Prices(samples[first..]) == Since(Prices(samples), cutoff)
    ensures forall i :: 0 <= i < |samples| - first ==> samples[first..][i].at >= cutoff
  {
    Suffix(samples, first);
    var a, b := samples[..first], samples[first..];
    assert b != [] ==> b[0].at >= cutoff;
    assert samples == a + b;
    SincePrices(a, b, cutoff);
  }

  // ----- windows -----

  lemma LatestOld(samples: seq<Sample>, start: nat, target: int)
    requires Increasing(samples) && start < |samples| && samples[start].at <= target
    requires start + 1 < |samples| ==> samples[start + 1].at > target
    ensures var at := samples[start].at;
      && at in Prices(samples) && Prices(samples)[at] == samples[start].price
      && forall later :: later in Prices(samples) && later > at ==> later > target
  {
    PricesOf(samples);
    forall later | later in Prices(samples) && later > samples[start].at ensures later > target {
      var k :| 0 <= k < |samples| && samples[k].at == later;
      assert k > start;
    }
  }

  datatype Window = Warmup | Change(points: real)

  /** There is a price, and one that is at least a window old. */
  ghost predicate Warm(prices: map<int, real>, now: int, seconds: int, price: real) {
    price > 0.0 && exists at :: at in prices && at <= now - seconds
  }

  /** realtimeWindowItemLocked: a window is out of warmup exactly when some sample is at least a window
      old, and it then compares with the latest such sample. */
  method WindowItem(samples: seq<Sample>, now: int, seconds: int, price: real) returns (w: Window)
    requires Proper(samples)
    ensures w.Change? <==> Warm(Prices(samples), now, seconds, price)
    ensures w.Change? ==>
      exists at ::
        && at in Prices(samples) && at <= now - seconds && w.points == (price - Prices(samples)[at]) * 100.0
        && forall later :: later in Prices(samples) && later > at ==> later > now - seconds
  {
    PricesOf(samples);
    if price <= 0.0 || |samples| == 0 {
      return Warmup;
    }
    var target := now - seconds;
    var start := -1;
    var i := 0;
    while i < |samples|
      invariant 0 <= i <= |samples| && start == i - 1
      invariant forall k :: 0 <= k < i ==> samples[k].at <= target
    {
      if samples[i].at <= target {
        start := i;
        i := i + 1;
        continue;
      }
      if start < 0 {
        start := i;
      }
      break;
    }
    if start < 0 || samples[start].price <= 0.0 || now - samples[start].at < seconds {
      return Warmup;
    }
    w := Change((price - samples[start].price) * 100.0);
    LatestOld(samples, start, target);
  }
}

/** The states and samples of all tokens, and the refresh that keeps them. */
module RealtimeBoard {
  import opened Prelude
  import opened Text
  import opened RealtimeSamples

  const RETENTION := 960

  datatype Token = Token(id: string, price: real)

  /** The tokens of a market; absent entries are skipped everywhere. */
  type Market = seq<Option<Token>>

  datatype Observation = Observation(token: string, price: real)

  function TokenId(token: Option<Token>): string {
    if token.None? then "" else TrimSpace(token.value.id)
  }

  // ----- meaning -----

  /** What sampling can use: a named token with a price in (0, 1]. */
  predicate Usable(token: Option<Token>) {
    TokenId(token) != "" && 0.0 < token.value.price <= 1.0
  }

  function MarketObservations(market: Market): seq<Observation> {
    if market == [] then []
    else
      var token, before := market[|market| - 1], MarketObservations(market[..|market| - 1]);
      if Usable(token) then before + [Observation(TokenId(token), token.value.price)] else before
  }

  /** The usable token prices of the candidates, in order. */
  function Observations(candidates: seq<Option<Market>>): seq<Observation> {
    if candidates == [] then []
    else
      var market, before := candidates[|candidates| - 1], Observations(candidates[..|candidates| - 1]);
      if market.None? then before else before + MarketObservations(market.value)
  }

  function LastPrice(observations: seq<Observation>, token: string): Option<real> {
    if observations == [] then None
    else
      var last := observations[|observations| - 1];
      if last.token == token then Some(last.price) else LastPrice(observations[..|observations| - 1], token)
  }

  function Seen(observations: seq<Observation>): set<string> {
    set k | 0 <= k < |observations| :: observations[k].token
  }

  function TokensOf(markets: seq<Market>): set<string> {
    set i, j | 0 <= i < |markets| && 0 <= j < |markets[i]| && TokenId(markets[i][j]) != "" :: TokenId(markets[i][j])
  }

  type History = map<string, map<int, real>>

  function HistoryOf(prices: History, token: string): map<int, real> {
    if token in prices then prices[token] else map[]
  }

  /** A token's prices with the last one observed now. */
  function NotedAt(prices: History, observations: seq<Observation>, now: int, token: string): map<int, real> {
    var price := LastPrice(observations, token);
    if price.Some? && now > 0 then HistoryOf(prices, token)[now := price.value] else HistoryOf(prices, token)
  }

  function Noted(prices: History, observations: seq<Observation>, now: int): History {
    map token | token in prices.Keys + Seen(observations) :: NotedAt(prices, observations, now, token)
  }

  function Pruned(prices: History, cutoff: int): History {
    map token | token in prices :: Since(prices[token], cutoff)
  }

  function Restrict<T>(m: map<string, T>, tokens: set<string>): map<string, T> {
    map token | token in m && token in tokens :: m[token]
  }

  lemma RestrictAll<T>(m: map<string, T>, tokens: set<string>)
    requires m.Keys <= tokens
    ensures Restrict(m, tokens) == m
  {
  }

  lemma RestrictDrop<T>(m: map<string, T>, tokens: set<string>, token: string)
    ensures Restrict(m, tokens) - {token} == Restrict(m, tokens - {token})
  {
  }

  function Refreshed(prices: History, observations: seq<Observation>, tokens: set<string>, now: int): History {
    Restrict(Pruned(Noted(prices, observations, now), now - RETENTION), tokens)
  }

  ghost predicate Keeps(list: seq<Sample>, prices: map<int, real>) {
    Proper(list) && Prices(list) == prices
  }

  /** The lists hold exactly these prices. */
  ghost predicate Holds(samples: map<string, seq<Sample>>, prices: History) {
    samples.Keys == prices.Keys && forall token :: token in samples ==> Keeps(samples[token], prices[token])
  }

  lemma {:induction false} SeenHasPrice(observations: seq<Observation>, token: string)
    ensures LastPrice(observations, token).Some? <==> token in Seen(observations)
  {
    if observations != [] {
      SeenHasPrice(observations[..|observations| - 1], token);
    }
  }

  lemma SeenMore(observations: seq<Observation>, o: Observation)
    ensures Seen(observations + [o]) == Seen(observations) + {o.token}
  {
    var more := observations + [o];
    assert more[|observations|] == o;
    forall token ensures token in Seen(more) <==> token in Seen(observations) + {o.token} {
      if token in Seen(observations) {
        var k :| 0 <= k < |observations| && observations[k].token == token;
        assert more[k].token == token;
      }
    }
  }

  /** A token's prices with one more observed now. */
  function With(prices: map<int, real>, now: int, price: real): map<int, real> {
    if now > 0 then prices[now := price] else prices
  }

  lemma NotedAtMore(prices: History, observations: seq<Observation>, o: Observation, now: int, token: string)
    ensures NotedAt(prices, observations + [o], now, token) ==
      if token == o.token then With(NotedAt(prices, observations, now, token), now, o.price)
      else NotedAt(prices, observations, now, token)
  {
    var more := observations + [o];
    assert more[..|more| - 1] == observations;
  }

  lemma NotedMore(prices: History, observations: seq<Observation>, o: Observation, now: int)
    ensures var noted := Noted(prices, observations, now);
      Noted(prices, observations + [o], now) == noted[o.token := With(HistoryOf(noted, o.token), now, o.price)]
  {
    var noted, more := Noted(prices, observations, now), Noted(prices, observations + [o], now);
    SeenMore(observations, o);
    SeenHasPrice(observations, o.token);
    assert HistoryOf(noted, o.token) == NotedAt(prices, observations, now, o.token);
    forall token | token in more
      ensures more[token] == noted[o.token := With(HistoryOf(noted, o.token), now, o.price)][token]
    {
      NotedAtMore(prices, observations, o, now, token);
    }
  }

  // ----- the code -----

  datatype TokenState = TokenState(price: real, lastEventAt: int)

  /** The states after observing prices now. */
  function Told(states: map<string, TokenState>, observations: seq<Observation>, now: int): map<string, TokenState> {
    if observations == [] then states
    else
      var last := observations[|observations| - 1];
      Told(states, observations[..|observations| - 1], now)[last.token := TokenState(last.price, now)]
  }

  lemma ToldMore(states: map<string, TokenState>, observations: seq<Observation>, o: Observation, now: int)
    ensures Told(states, observations + [o], now) ==
      Told(states, observations, now)[o.token := TokenState(o.price, now)]
  {
    assert (observations + [o])[..|observations|] == observations;
  }

  lemma {:induction false} ToldConcat(states: map<string, TokenState>, a: seq<Observation>, b: seq<Observation>,
          now: int)
    ensures Told(states, a + b, now) == Told(Told(states, a, now), b, now)
  {
    if b == [] {
      assert a + b == a;
    } else {
      ToldConcat(states, a, b[..|b| - 1], now);
      assert (a + b)[..|a + b| - 1] == a + b[..|b| - 1];
    }
  }

  /** An observed token has its last price, dated now; all others are as they were. */
  lemma {:induction false} ToldIsLast(states: map<string, TokenState>, observations: seq<Observation>, now: int)
    ensures Told(states, observations, now).Keys == states.Keys + Seen(observations)
    ensures forall token :: token in Told(states, observations, now) ==>
      var price := LastPrice(observations, token);
      if price.Some? then Told(states, observations, now)[token] == TokenState(price.value, now)
      else token in states && Told(states, observations, now)[token] == states[token]
  {
    if observations != [] {
      var init, last := observations[..|observations| - 1], observations[|observations| - 1];
      ToldIsLast(states, init, now);
      assert observations == init + [last];
      SeenMore(init, last);
    }
  }

  /** A token's state after markets with these usable prices were ensured: the last price, else the price it had,
      else zero; and the time it had, else zero. */
  function EnsuredState(states: map<string, TokenState>, observations: seq<Observation>, token: string): TokenState {
    var price, before := LastPrice(observations, token),
                         if token in states then states[token] else TokenState(0.0, 0);
    if price.Some? then before.(price := price.value) else before
  }

  function AllObservations(markets: seq<Market>): seq<Observation> {
    if markets == [] then []
    else AllObservations(markets[..|markets| - 1]) + MarketObservations(markets[|markets| - 1])
  }

  lemma LastPriceMore(observations: seq<Observation>, o: Observation, token: string)
    ensures LastPrice(observations + [o], token) ==
      if token == o.token then Some(o.price) else LastPrice(observations, token)
  {
    assert (observations + [o])[..|observations|] == observations;
  }

  /** Every state is what ensuring makes of it. */
  ghost predicate Ensured(now: map<string, TokenState>, before: map<string, TokenState>,
          observations: seq<Observation>)
  {
    && Seen(observations) <= now.Keys
    && forall token :: token in now ==> now[token] == EnsuredState(before, observations, token)
  }

  lemma SeenConcat(a: seq<Observation>, b: seq<Observation>)
    ensures Seen(a + b) == Seen(a) + Seen(b)
  {
    forall token ensures token in Seen(a + b) <==> token in Seen(a) + Seen(b) {
      if k :| 0 <= k < |a| && a[k].token == token {
        assert (a + b)[k].token == token;
      }
      if k :| 0 <= k < |b| && b[k].token == token {
        assert (a + b)[|a| + k].token == token;
      }
    }
  }

  class Board {
    var states: map<string, TokenState>
    var samples: map<string, seq<Sample>>

    constructor ()
      ensures states == map[] && samples == map[]
    {
      states, samples := map[], map[];
    }

    /** One token of sampleHotMarketCandidatesLocked */
    method Note(id: string, price: real, now: int, ghost prices: History)
      requires Holds(samples, prices) && 0.0 < price <= 1.0
      modifies this
      ensures states == old(states)[id := TokenState(price, now)]
      ensures Holds(samples, prices[id := With(HistoryOf(prices, id), now, price)])
    {
      states := states[id := TokenState(price, now)];
      var list := AppendOrReplace(if id in samples then samples[id] else [], Sample(now, price));
      samples := samples[id := list];
    }

    /** One turn of the inner loop, in a refresh that has noted `done`. */
    method NoteToken(token: Option<Token>, now: int, ghost prices: History, ghost done: seq<Observation>)
      requires Holds(samples, Noted(prices, done, now))
      modifies this
      ensures states == Told(old(states), Observed(token), now)
      ensures Holds(samples, Noted(prices, done + Observed(token), now))
    {
      var id := TokenId(token);
      assert done + [] == done;
      if id == "" || token.value.price <= 0.0 || token.value.price > 1.0 {
        return;
      }
      var o := Observation(id, token.value.price);
      NotedMore(prices, done, o, now);
      ToldMore(states, [], o, now);
      assert [] + [o] == [o];
      Note(id, o.price, now, Noted(prices, done, now));
    }

    method NoteMarket(market: Market, now: int, ghost prices: History, ghost before: seq<Observation>)
      requires Holds(samples, Noted(prices, before, now))
      modifies this
      ensures states == Told(old(states), MarketObservations(market), now)
      ensures Holds(samples, Noted(prices, before + MarketObservations(market), now))
    {
      assert before + [] == before;
      for j := 0 to |market|
        invariant states == Told(old(states), MarketObservations(market[..j]), now)
        invariant Holds(samples, Noted(prices, before + MarketObservations(market[..j]), now))
      {
        ObservedMore(market, j, before);
        ToldConcat(old(states), MarketObservations(market[..j]), Observed(market[j]), now);
        NoteToken(market[j], now, prices, before + MarketObservations(market[..j]));
      }
      assert market[..|market|] == market;
    }

    method NoteCandidates(candidates: seq<Option<Market>>, now: int, ghost prices: History)
      requires Holds(samples, prices)
      modifies this
      ensures states == Told(old(states), Observations(candidates), now)
      ensures Holds(samples, Noted(prices, Observations(candidates), now))
    {
      assert Noted(prices, [], now) == prices;
      for i := 0 to |candidates|
        invariant states == Told(old(states), Observations(candidates[..i]), now)
        invariant Holds(samples, Noted(prices, Observations(candidates[..i]), now))
      {
        assert candidates[..i + 1][..i] == candidates[..i];
        if candidates[i].None? {
          continue;
        }
        ToldConcat(old(states), Observations(candidates[..i]), MarketObservations(candidates[i].value), now);
        NoteMarket(candidates[i].value, now, prices, Observations(candidates[..i]));
      }
      assert candidates[..|candidates|] == candidates;
    }

    method PruneAll(cutoff: int, ghost prices: History)
      requires Holds(samples, prices)
      modifies this`samples
      ensures Holds(samples, Pruned(prices, cutoff))
    {
      var keys := samples.Keys;
      while keys != {}
        invariant keys <= samples.Keys == prices.Keys
        invariant forall id :: id in samples ==>
          Keeps(samples[id], if id in keys then prices[id] else Since(prices[id], cutoff))
        decreases |keys|
      {
        var id :| id in keys;
        var list := Prune(samples[id], cutoff);
        assert Keeps(list, Since(prices[id], cutoff));
        samples := samples[id := list];
        keys := keys - {id};
      }
    }

    /** cleanupRealtimeStatesForMarketsLocked */
    method Cleanup(markets: seq<Market>)
      requires samples.Keys <= states.Keys
      modifies this
      ensures states == Restrict(old(states), TokensOf(markets)) && samples == Restrict(old(samples), TokensOf(markets))
    {
      var seen := CollectTokens(markets);
      var ids := states.Keys;
      RestrictAll(states, seen + ids);
      RestrictAll(samples, seen + ids);
      while ids != {}
        invariant states == Restrict(old(states), seen + ids) && samples == Restrict(old(samples), seen + ids)
        decreases |ids|
      {
        var id :| id in ids;
        if id in seen {
          assert seen + (ids - {id}) == seen + ids;
        } else {
          assert seen + (ids - {id}) == seen + ids - {id};
          RestrictDrop(old(states), seen + ids, id);
          RestrictDrop(old(samples), seen + ids, id);
          states := states - {id};
          samples := samples - {id};
        }
        ids := ids - {id};
      }
      assert seen + {} == seen;
    }

    method SampleCandidates(candidates: seq<Option<Market>>, monitored: seq<Market>, now: int, ghost prices: History)
      requires Holds(samples, prices) && samples.Keys <= states.Keys
      modifies this
      ensures states == Restrict(Told(old(states), Observations(candidates), now), TokensOf(monitored))
      ensures states.Keys == (old(states.Keys) + Seen(Observations(candidates))) * TokensOf(monitored)
      ensures samples.Keys <= states.Keys
      ensures Holds(samples, Refreshed(prices, Observations(candidates), TokensOf(monitored), now))
    {
      ToldIsLast(states, Observations(candidates), now);
      NoteCandidates(candidates, now, prices);
      PruneAll(now - RETENTION, Noted(prices, Observations(candidates), now));
      Cleanup(monitored);
    }

    /** ensureRealtimeStatesForMarketsLocked */
    method EnsureStates(markets: seq<Market>)
      modifies this`states
      ensures states.Keys == old(states.Keys) + TokensOf(markets)
      ensures Ensured(states, old(states), AllObservations(markets))
    {
      for i := 0 to |markets|
        invariant states.Keys == old(states.Keys) + TokensOf(markets[..i])
        invariant Ensured(states, old(states), AllObservations(markets[..i]))
      {
        TokensMore(markets, i);
        assert markets[..i + 1][..i] == markets[..i];
        EnsureMarket(markets[i], old(states), AllObservations(markets[..i]));
      }
      assert markets[..|markets|] == markets;
    }

    /** The loop over the tokens of one market. */
    method EnsureMarket(market: Market, ghost before: map<string, TokenState>, ghost done: seq<Observation>)
      requires Ensured(states, before, done) && before.Keys <= states.Keys
      modifies this`states
      ensures states.Keys == old(states.Keys) + TokensOf([market])
      ensures Ensured(states, before, done + MarketObservations(market))
    {
      assert done + [] == done;
      for j := 0 to |market|
        invariant states.Keys == old(states.Keys) + TokensOf([market[..j]])
        invariant Ensured(states, before, done + MarketObservations(market[..j]))
      {
        TokenMore(market, j);
        ObservedMore(market, j, done);
        EnsureToken(market[j], before, done + MarketObservations(market[..j]));
      }
      assert market[..|market|] == market;
    }

    method EnsureToken(token: Option<Token>, ghost before: map<string, TokenState>, ghost all: seq<Observation>)
      requires Ensured(states, before, all) && before.Keys <= states.Keys
      modifies this`states
      ensures states.Keys == old(states.Keys) + if TokenId(token) == "" then {} else {TokenId(token)}
      ensures Ensured(states, before, all + Observed(token))
    {
      var id := TokenId(token);
      assert all + [] == all;
      if id == "" {
        return;
      }
      var price := token.value.price;
      ghost var known := states;
      if id !in states {
        states := states[id := TokenState(0.0, 0)];
      }
      if 0.0 < price <= 1.0 {
        states := states[id := states[id].(price := price)];
      }
      EnsuredMore(known, before, all, token, states);
    }
  }

  function Observed(token: Option<Token>): seq<Observation> {
    if Usable(token) then [Observation(TokenId(token), token.value.price)] else []
  }

  lemma ObservedMore(market: Market, j: nat, done: seq<Observation>)
    requires j < |market|
    ensures MarketObservations(market[..j + 1]) == MarketObservations(market[..j]) + Observed(market[j])
    ensures done + MarketObservations(market[..j + 1]) == done + MarketObservations(market[..j]) + Observed(market[j])
  {
    assert market[..j + 1][..j] == market[..j];
  }

  lemma EnsuredMore(known: map<string, TokenState>, before: map<string, TokenState>, all: seq<Observation>,
          token: Option<Token>, now: map<string, TokenState>)
    requires Ensured(known, before, all) && before.Keys <= known.Keys && TokenId(token) != ""
    requires var id, price := TokenId(token), token.value.price;
      var state := if id in known then known[id] else TokenState(0.0, 0);
      now == known[id := if 0.0 < price <= 1.0 then state.(price := price) else state]
    ensures Ensured(now, before, all + Observed(token))
  {
    var id := TokenId(token);
    SeenHasPrice(all, id);
    if Usable(token) {
      var o := Observation(id, token.value.price);
      SeenMore(all, o);
      forall other | other in now ensures now[other] == EnsuredState(before, all + [o], other) {
        LastPriceMore(all, o, other);
      }
    } else {
      assert all + Observed(token) == all;
    }
  }

  method CollectTokens(markets: seq<Market>) returns (seen: set<string>)
    ensures seen == TokensOf(markets)
  {
    seen := {};
    for i := 0 to |markets|
      invariant seen == TokensOf(markets[..i])
    {
      TokensMore(markets, i);
      for j := 0 to |markets[i]|
        invariant seen == TokensOf(markets[..i]) + TokensOf([markets[i][..j]])
      {
        TokenMore(markets[i], j);
        var id := TokenId(markets[i][j]);
        if id != "" {
          seen := seen + {id};
        }
      }
      assert markets[i][..|markets[i]|] == markets[i];
    }
    assert markets[..|markets|] == markets;
  }

  lemma TokensMore(markets: seq<Market>, i: nat)
    requires i < |markets|
    ensures TokensOf(markets[..i + 1]) == TokensOf(markets[..i]) + TokensOf([markets[i]])
  {
    var all, head, tail := markets[..i + 1], markets[..i], [markets[i]];
    forall id ensures id in TokensOf(all) <==> id in TokensOf(head) + TokensOf(tail) {
      if k, j :| 0 <= k < |all| && 0 <= j < |all[k]| && TokenId(all[k][j]) != "" && TokenId(all[k][j]) == id {
        if k < i {
          assert head[k] == all[k];
        } else {
          assert tail[0] == all[k];
        }
      }
      if k, j :| 0 <= k < |head| && 0 <= j < |head[k]| && TokenId(head[k][j]) != "" && TokenId(head[k][j]) == id {
        assert all[k] == head[k];
      }
      if k, j :| 0 <= k < |tail| && 0 <= j < |tail[k]| && TokenId(tail[k][j]) != "" && TokenId(tail[k][j]) == id {
        assert all[i] == tail[k];
      }
    }
  }

  lemma TokenMore(market: Market, j: nat)
    requires j < |market|
    ensures TokensOf([market[..j + 1]]) ==
      TokensOf([market[..j]]) + if TokenId(market[j]) == "" then {} else {TokenId(market[j])}
  {
    var more, less := [market[..j + 1]], [market[..j]];
    assert more[0][j] == market[j];
    assert forall k :: 0 <= k < j ==> more[0][k] == less[0][k];
  }
}

/** The samples over any history of refreshes. */
module RealtimeRuns {
  import opened Prelude
  import opened RealtimeSamples
  import opened RealtimeBoard

  /** One refresh; afterwards states are ensured for the first `ensured` monitored markets. */
  datatype Refresh = Refresh(candidates: seq<Option<Market>>, monitored: seq<Market>, now: int, ensured: nat)

  function Run(history: seq<Refresh>): History {
    if history == [] then map[]
    else
      var last := history[|history| - 1];
      Refreshed(Run(history[..|history| - 1]), Observations(last.candidates), TokensOf(last.monitored), last.now)
  }

  /** The tokens that have a state. */
  function States(history: seq<Refresh>): set<string> {
    if history == [] then {}
    else
      var last := history[|history| - 1];
      (States(history[..|history| - 1]) + Seen(Observations(last.candidates))) * TokensOf(last.monitored)
      + TokensOf(if last.ensured < |last.monitored| then last.monitored[..last.ensured] else last.monitored)
  }

  /** After every refresh sample keys are within state keys, which are within the tokens of monitored markets. */
  lemma {:induction false} KeysNested(history: seq<Refresh>)
    requires history != []
    ensures Run(history).Keys <= States(history) <= TokensOf(history[|history| - 1].monitored)
  {
    var init, last := history[..|history| - 1], history[|history| - 1];
    if init != [] {
      KeysNested(init);
    }
    if last.ensured < |last.monitored| {
      TokensPrefix(last.monitored, last.ensured);
    }
  }

  lemma TokensPrefix(markets: seq<Market>, n: nat)
    requires n <= |markets|
    ensures TokensOf(markets[..n]) <= TokensOf(markets)
  {
    forall id | id in TokensOf(markets[..n]) ensures id in TokensOf(markets) {
      var i, j :| 0 <= i < n && 0 <= j < |markets[..n][i]| && TokenId(markets[..n][i][j]) != ""
        && TokenId(markets[..n][i][j]) == id;
      assert markets[i][j] == markets[..n][i][j];
    }
  }

  function Quote(r: Refresh, token: string): Option<real> {
    LastPrice(Observations(r.candidates), token)
  }

  predicate Monitors(r: Refresh, token: string) {
    token in TokensOf(r.monitored)
  }

  ghost predicate Nondecreasing(history: seq<Refresh>) {
    forall i, j :: 0 <= i < j < |history| ==> history[i].now <= history[j].now
  }

  /** Refresh `i` quoted the token at time `at`, the token has been monitored ever since, and `at` is
      within the retention of the last refresh. */
  ghost predicate Source(history: seq<Refresh>, token: string, at: int, i: int) {
    && 0 <= i < |history| && history[i].now == at && at > 0 && Quote(history[i], token).Some?
    && (forall j :: i <= j < |history| ==> Monitors(history[j], token))
    && at >= history[|history| - 1].now - 960
  }

  /** What one refresh does to one token. */
  lemma OneToken(prices: History, r: Refresh, token: string, at: int)
    ensures var after := HistoryOf(Refreshed(prices, Observations(r.candidates), TokensOf(r.monitored), r.now), token);
      var quoted := at == r.now && at > 0 && Quote(r, token).Some?;
      && (at in after <==> Monitors(r, token) && at >= r.now - RETENTION && (quoted || at in HistoryOf(prices, token)))
      && (at in after ==> after[at] == if quoted then Quote(r, token).value else HistoryOf(prices, token)[at])
  {
    SeenHasPrice(Observations(r.candidates), token);
  }

  lemma SourceInit(history: seq<Refresh>, token: string, at: int, i: int)
    requires history != [] && Nondecreasing(history) && i < |history| - 1
    requires var last := history[|history| - 1]; Monitors(last, token) && at >= last.now - RETENTION
    ensures Source(history, token, at, i) <==> Source(history[..|history| - 1], token, at, i)
  {
    var init := history[..|history| - 1];
    assert forall j :: 0 <= j < |init| ==> init[j] == history[j];
    if Source(init, token, at, i) {
      forall j | i <= j < |history| ensures Monitors(history[j], token) {
        assert j < |init| ==> Monitors(init[j], token);
      }
    }
    if Source(history, token, at, i) {
      assert init[|init| - 1].now <= history[|history| - 1].now;
    }
  }

  ghost predicate Quoted(history: seq<Refresh>, token: string, at: int) {
    exists i :: Source(history, token, at, i)
  }

  lemma QuotedStep(history: seq<Refresh>, token: string, at: int)
    requires history != [] && Nondecreasing(history)
    ensures var last := history[|history| - 1];
      Quoted(history, token, at) <==>
      && Monitors(last, token) && at >= last.now - RETENTION
      && ((at == last.now && at > 0 && Quote(last, token).Some?) || Quoted(history[..|history| - 1], token, at))
  {
    var init, last := history[..|history| - 1], history[|history| - 1];
    if Monitors(last, token) && at >= last.now - RETENTION {
      if at == last.now && at > 0 && Quote(last, token).Some? {
        assert Source(history, token, at, |init|);
      }
      if i :| Source(init, token, at, i) {
        SourceInit(history, token, at, i);
      }
      if i :| Source(history, token, at, i) && i < |init| {
        SourceInit(history, token, at, i);
      }
    }
  }

  /** The list of a token holds exactly the times at which it was quoted since it is monitored, within
      the retention. */
  lemma {:induction false} TimesAreQuotes(history: seq<Refresh>, token: string, at: int)
    requires Nondecreasing(history)
    ensures at in HistoryOf(Run(history), token) <==> Quoted(history, token, at)
  {
    if history != [] {
      var init, last := history[..|history| - 1], history[|history| - 1];
      OneToken(Run(init), last, token, at);
      TimesAreQuotes(init, token, at);
      QuotedStep(history, token, at);
    }
  }

  /** So a window is out of warmup exactly when some such quote is at least a window old. */
  lemma WarmIffQuoted(history: seq<Refresh>, token: string, now: int, seconds: int, price: real)
    requires Nondecreasing(history)
    ensures Warm(HistoryOf(Run(history), token), now, seconds, price) <==>
      price > 0.0 && exists at :: Quoted(history, token, at) && at <= now - seconds
  {
    if at :| at in HistoryOf(Run(history), token) && at <= now - seconds {
      TimesAreQuotes(history, token, at);
    }
    if at :| Quoted(history, token, at) && at <= now - seconds {
      TimesAreQuotes(history, token, at);
    }
  }

  /** `i` is the last refresh that quoted the token at `at`. */
  ghost predicate LastSource(history: seq<Refresh>, token: string, at: int, i: int) {
    Source(history, token, at, i) && forall k :: k > i ==> !Source(history, token, at, k)
  }

  lemma LastSourceInit(history: seq<Refresh>, token: string, at: int, i: int)
    requires Nondecreasing(history) && LastSource(history, token, at, i) && i < |history| - 1
    ensures LastSource(history[..|history| - 1], token, at, i)
    ensures var last := history[|history| - 1]; Monitors(last, token) && !(at == last.now && Quote(last, token).Some?)
  {
    var init := history[..|history| - 1];
    assert Monitors(history[|init|], token);
    assert !Source(history, token, at, |init|);
    SourceInit(history, token, at, i);
    forall k | k > i ensures !Source(init, token, at, k) {
      if Source(init, token, at, k) {
        SourceInit(history, token, at, k);
      }
    }
  }

  /** And the price at a time is the last one quoted then. */
  lemma {:induction false} PricesAreLastQuotes(history: seq<Refresh>, token: string, at: int, i: int)
    requires Nondecreasing(history) && LastSource(history, token, at, i)
    ensures at in HistoryOf(Run(history), token) && HistoryOf(Run(history), token)[at] == Quote(history[i], token).value
  {
    var init, last := history[..|history| - 1], history[|history| - 1];
    OneToken(Run(init), last, token, at);
    if i < |init| {
      LastSourceInit(history, token, at, i);
      PricesAreLastQuotes(init, token, at, i);
    } else {
      assert Monitors(history[i], token);
    }
  }
}
