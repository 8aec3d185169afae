/** internal/marketradar/hot_markets.go: the monitored market list with its missing counters. */
module HotMarkets {
  import opened Prelude
  import opened Text

  const TARGET_LIMIT := 500
  const CANDIDATE_LIMIT := 650
  const MISSING_THRESHOLD := 3

  /** `data` is everything else the item shows. */
  datatype Item = Item(conditionId: string, data: int)

  type Candidate = Option<Item>

  datatype Monitor = Monitor(items: seq<Item>, missing: map<string, nat>)

  function IdOf(item: Item): string {
    TrimSpace(item.conditionId)
  }

  predicate Has(items: seq<Item>, id: string) {
    exists k :: 0 <= k < |items| && IdOf(items[k]) == id
  }

  ghost predicate Distinct(items: seq<Item>) {
    forall i, j :: 0 <= i < j < |items| ==> IdOf(items[i]) != IdOf(items[j])
  }

  predicate Eligible(c: Candidate) {
    c.Some? && IdOf(c.value) != ""
  }

  // ----- what a refresh means -----

  /** Candidate `k` is the first of its market. */
  predicate FirstAt(candidates: seq<Candidate>, k: nat)
    requires k < |candidates|
  {
    && Eligible(candidates[k])
    && forall j :: 0 <= j < k && Eligible(candidates[j]) ==> IdOf(candidates[j].value) != IdOf(candidates[k].value)
  }

  /** The first occurrence of every market among the first `n` candidates, in order. */
  function Firsts(candidates: seq<Candidate>, n: nat): seq<Item>
    requires n <= |candidates|
  {
    if n == 0 then []
    else Firsts(candidates, n - 1) + if FirstAt(candidates, n - 1) then [candidates[n - 1].value] else []
  }

  function TopCount(candidates: seq<Candidate>): (n: nat)
    ensures n <= |candidates|
  {
    if |candidates| < TARGET_LIMIT then |candidates| else TARGET_LIMIT
  }

  function Top(candidates: seq<Candidate>): seq<Item> {
    Firsts(candidates, TopCount(candidates))
  }

  /** The last candidate whose untrimmed identifier is `id`. */
  function Latest(candidates: seq<Candidate>, id: string): Option<Item> {
    if candidates == [] then None
    else
      var c := candidates[|candidates| - 1];
      if Eligible(c) && c.value.conditionId == id then c else Latest(candidates[..|candidates| - 1], id)
  }

  predicate Present(candidates: seq<Candidate>, id: string) {
    Has(Top(candidates), id) || Latest(candidates, id).Some?
  }

  function MissingCount(missing: map<string, nat>, candidates: seq<Candidate>, id: string): nat {
    if Present(candidates, id) then 0 else (if id in missing then missing[id] else 0) + 1
  }

  predicate Survives(m: Monitor, candidates: seq<Candidate>, id: string) {
    id != "" && !Has(Top(candidates), id) && MissingCount(m.missing, candidates, id) < MISSING_THRESHOLD
  }

  /** A monitored market that is not at the top: refreshed when it is listed, else as it was. */
  function Kept(candidates: seq<Candidate>, item: Item): Item {
    var latest := Latest(candidates, IdOf(item));
    if latest.Some? then latest.value else item
  }

  /** The first `n` items whose identifiers satisfy `keep`, each replaced by its `latest` form. */
  function Filtered(items: seq<Item>, keep: string -> bool, latest: Item -> Item, n: nat): seq<Item>
    requires n <= |items|
  {
    if n == 0 then []
    else Filtered(items, keep, latest, n - 1) + if keep(IdOf(items[n - 1])) then [latest(items[n - 1])] else []
  }

  function Survivors(m: Monitor, candidates: seq<Candidate>): seq<Item> {
    Filtered(m.items, id => Survives(m, candidates, id), item => Kept(candidates, item), |m.items|)
  }

  function Capped(items: seq<Item>): seq<Item> {
    if |items| <= CANDIDATE_LIMIT then items else items[..CANDIDATE_LIMIT]
  }

  function Ids(items: seq<Item>): set<string> {
    set k | 0 <= k < |items| :: IdOf(items[k])
  }

  function Refresh(m: Monitor, candidates: seq<Candidate>): Monitor {
    var items := Capped(Top(candidates) + Survivors(m, candidates));
    Monitor(items, map id | id in Ids(items) :: MissingCount(m.missing, candidates, id))
  }

  // ----- lemmas about the parts -----

  lemma {:induction false} FirstsHas(candidates: seq<Candidate>, n: nat, id: string)
    requires n <= |candidates|
    ensures |Firsts(candidates, n)| <= n
    ensures Has(Firsts(candidates, n), id) <==>
      exists k :: 0 <= k < n && Eligible(candidates[k]) && IdOf(candidates[k].value) == id
  {
    if n > 0 {
      var less, more := Firsts(candidates, n - 1), Firsts(candidates, n);
      FirstsHas(candidates, n - 1, id);
      assert forall k :: 0 <= k < |less| ==> more[k] == less[k];
      var c := candidates[n - 1];
      if Eligible(c) && IdOf(c.value) == id && FirstAt(candidates, n - 1) {
        assert IdOf(more[|less|]) == id;
      }
    }
  }

  lemma {:induction false} LatestIsListed(candidates: seq<Candidate>, id: string)
    ensures Latest(candidates, id).Some? <==>
      exists k :: 0 <= k < |candidates| && Eligible(candidates[k]) && candidates[k].value.conditionId == id
    ensures Latest(candidates, id).Some? ==> Latest(candidates, id).value.conditionId == id
  {
    if candidates != [] {
      LatestIsListed(candidates[..|candidates| - 1], id);
    }
  }

  lemma KeptKeepsId(candidates: seq<Candidate>, item: Item)
    ensures IdOf(Kept(candidates, item)) == IdOf(item)
  {
    LatestIsListed(candidates, IdOf(item));
    TrimIsProjection(item.conditionId);
  }

  lemma HasMore(items: seq<Item>, item: Item, id: string)
    ensures Has(items + [item], id) <==> Has(items, id) || IdOf(item) == id
  {
    var more := items + [item];
    assert IdOf(more[|items|]) == IdOf(item);
    if k :| 0 <= k < |items| && IdOf(items[k]) == id {
      assert IdOf(more[k]) == id;
    }
  }

  lemma DistinctMore(items: seq<Item>, item: Item)
    requires Distinct(items) && !Has(items, IdOf(item))
    ensures Distinct(items + [item])
  {
  }

  lemma {:induction false} FirstsDistinct(candidates: seq<Candidate>, n: nat)
    requires n <= |candidates|
    ensures Distinct(Firsts(candidates, n))
  {
    if n > 0 {
      FirstsDistinct(candidates, n - 1);
      if FirstAt(candidates, n - 1) {
        FirstsHas(candidates, n - 1, IdOf(candidates[n - 1].value));
        DistinctMore(Firsts(candidates, n - 1), candidates[n - 1].value);
      }
    }
  }

  ghost predicate KeepsIds(latest: Item -> Item) {
    forall item :: IdOf(latest(item)) == IdOf(item)
  }

  lemma {:induction false} FilteredHas(items: seq<Item>, keep: string -> bool, latest: Item -> Item, n: nat, id: string)
    requires n <= |items| && KeepsIds(latest)
    ensures |Filtered(items, keep, latest, n)| <= n
    ensures Has(Filtered(items, keep, latest, n), id) <==> Has(items[..n], id) && keep(id)
  {
    if n > 0 {
      var less, item := Filtered(items, keep, latest, n - 1), items[n - 1];
      FilteredHas(items, keep, latest, n - 1, id);
      HasMore(items[..n - 1], item, id);
      assert items[..n] == items[..n - 1] + [item];
      if keep(IdOf(item)) {
        HasMore(less, latest(item), id);
      } else {
        assert Filtered(items, keep, latest, n) == less;
      }
    }
  }

  lemma {:induction false} FilteredDistinct(items: seq<Item>, keep: string -> bool, latest: Item -> Item, n: nat)
    requires n <= |items| && KeepsIds(latest) && Distinct(items)
    ensures Distinct(Filtered(items, keep, latest, n))
  {
    if n > 0 {
      FilteredDistinct(items, keep, latest, n - 1);
      FilteredHas(items, keep, latest, n - 1, IdOf(items[n - 1]));
      var less := Filtered(items, keep, latest, n - 1);
      if keep(IdOf(items[n - 1])) {
        DistinctMore(less, latest(items[n - 1]));
      } else {
        assert Filtered(items, keep, latest, n) == less;
      }
    }
  }

  lemma HasAppend(a: seq<Item>, b: seq<Item>, id: string)
    ensures Has(a + b, id) <==> Has(a, id) || Has(b, id)
  {
    if k :| 0 <= k < |a| && IdOf(a[k]) == id {
      assert IdOf((a + b)[k]) == id;
    }
    if k :| 0 <= k < |b| && IdOf(b[k]) == id {
      assert IdOf((a + b)[|a| + k]) == id;
    }
  }

  lemma DistinctAppend(a: seq<Item>, b: seq<Item>)
    requires Distinct(a) && Distinct(b) && forall id :: Has(a, id) ==> !Has(b, id)
    ensures Distinct(a + b)
  {
    forall i, j | 0 <= i < j < |a + b| ensures IdOf((a + b)[i]) != IdOf((a + b)[j]) {
      if i < |a| <= j {
        assert Has(a, IdOf(a[i])) && Has(b, IdOf(b[j - |a|]));
      }
    }
  }

  lemma SurvivorsHave(m: Monitor, candidates: seq<Candidate>, id: string)
    ensures Has(Survivors(m, candidates), id) <==> Has(m.items, id) && Survives(m, candidates, id)
    ensures |Survivors(m, candidates)| <= |m.items|
  {
    var keep, latest := (id => Survives(m, candidates, id)), (item => Kept(candidates, item));
    forall item ensures IdOf(latest(item)) == IdOf(item) {
      KeptKeepsId(candidates, item);
    }
    FilteredHas(m.items, keep, latest, |m.items|, id);
    assert m.items[..|m.items|] == m.items;
  }

  lemma SurvivorsDistinct(m: Monitor, candidates: seq<Candidate>)
    requires Distinct(m.items)
    ensures Distinct(Survivors(m, candidates))
  {
    var keep, latest := (id => Survives(m, candidates, id)), (item => Kept(candidates, item));
    forall item ensures IdOf(latest(item)) == IdOf(item) {
      KeptKeepsId(candidates, item);
    }
    FilteredDistinct(m.items, keep, latest, |m.items|);
  }

  // ----- one refresh -----

  /** Distinct nonblank identifiers, at most 650 of them, each with its counter. */
  ghost predicate Valid(m: Monitor) {
    && Distinct(m.items) && !Has(m.items, "") && |m.items| <= CANDIDATE_LIMIT
    && m.missing.Keys == Ids(m.items)
    && forall id :: id in m.missing ==> m.missing[id] < MISSING_THRESHOLD
  }

  lemma IdsAreHad(items: seq<Item>, id: string)
    ensures id in Ids(items) <==> Has(items, id)
  {
  }

  /** The list before it is capped. */
  function Uncapped(m: Monitor, candidates: seq<Candidate>): seq<Item> {
    Top(candidates) + Survivors(m, candidates)
  }

  lemma UncappedHas(m: Monitor, candidates: seq<Candidate>, id: string)
    ensures Has(Uncapped(m, candidates), id) <==>
      Has(Top(candidates), id) || (Has(m.items, id) && Survives(m, candidates, id))
  {
    HasAppend(Top(candidates), Survivors(m, candidates), id);
    SurvivorsHave(m, candidates, id);
  }

  lemma UncappedDistinct(m: Monitor, candidates: seq<Candidate>)
    requires Distinct(m.items)
    ensures Distinct(Uncapped(m, candidates)) && !Has(Uncapped(m, candidates), "")
  {
    FirstsDistinct(candidates, TopCount(candidates));
    FirstsHas(candidates, TopCount(candidates), "");
    SurvivorsDistinct(m, candidates);
    UncappedHas(m, candidates, "");
    forall id | Has(Top(candidates), id) ensures !Has(Survivors(m, candidates), id) {
      SurvivorsHave(m, candidates, id);
    }
    DistinctAppend(Top(candidates), Survivors(m, candidates));
  }

  /** The list keeps the whole top, in order, and is cut short only when it is full. */
  lemma TopLeads(m: Monitor, candidates: seq<Candidate>)
    ensures Top(candidates) <= Refresh(m, candidates).items && |Top(candidates)| <= 500
    ensures Refresh(m, candidates).items <= Uncapped(m, candidates)
    ensures Refresh(m, candidates).items == Uncapped(m, candidates) || |Refresh(m, candidates).items| == 650
  {
    FirstsHas(candidates, TopCount(candidates), "");
  }

  lemma HasPrefix(items: seq<Item>, more: seq<Item>, id: string)
    requires items <= more && Has(items, id)
    ensures Has(more, id)
  {
    var k :| 0 <= k < |items| && IdOf(items[k]) == id;
    assert IdOf(more[k]) == id;
  }

  // ----- what a listed market shows -----

  /** `item` is the first of its market among the best 500 candidates. */
  ghost predicate LeadsAt(candidates: seq<Candidate>, item: Item, k: int) {
    && 0 <= k < |candidates| && k < 500 && candidates[k] == Some(item) && IdOf(item) != ""
    && forall j :: 0 <= j < k && candidates[j].Some? ==> IdOf(candidates[j].value) != IdOf(item)
  }

  /** `item` is the last candidate listed under the trimmed identifier of monitored market `known`. */
  ghost predicate RefreshedAt(candidates: seq<Candidate>, item: Item, known: Item, k: int) {
    && 0 <= k < |candidates| && candidates[k] == Some(item) && item.conditionId == IdOf(known) != ""
    && forall j :: k < j < |candidates| && candidates[j].Some? ==> candidates[j].value.conditionId != IdOf(known)
  }

  /** Monitored market `known` is not listed under its trimmed identifier. */
  ghost predicate Unlisted(candidates: seq<Candidate>, known: Item) {
    forall j :: 0 <= j < |candidates| && candidates[j].Some? ==> candidates[j].value.conditionId != IdOf(known)
  }

  lemma {:induction false} FirstsLead(candidates: seq<Candidate>, n: nat, i: nat)
    requires n <= |candidates| && n <= 500 && i < |Firsts(candidates, n)|
    ensures exists k :: LeadsAt(candidates, Firsts(candidates, n)[i], k)
  {
    if i < |Firsts(candidates, n - 1)| {
      FirstsLead(candidates, n - 1, i);
      assert Firsts(candidates, n)[i] == Firsts(candidates, n - 1)[i];
    } else {
      assert Firsts(candidates, n)[i] == candidates[n - 1].value;
      assert LeadsAt(candidates, candidates[n - 1].value, n - 1);
    }
  }

  lemma {:induction false} LatestIsLast(candidates: seq<Candidate>, known: Item)
    requires IdOf(known) != ""
    ensures var latest := Latest(candidates, IdOf(known));
      if latest.Some? then exists k :: RefreshedAt(candidates, latest.value, known, k) else Unlisted(candidates, known)
  {
    TrimIsProjection(known.conditionId);
    if candidates != [] {
      var init, c := candidates[..|candidates| - 1], candidates[|candidates| - 1];
      LatestIsLast(init, known);
      if c.Some? && c.value.conditionId == IdOf(known) {
        assert RefreshedAt(candidates, c.value, known, |init|);
      } else if Latest(init, IdOf(known)).Some? {
        var item := Latest(init, IdOf(known)).value;
        var k :| RefreshedAt(init, item, known, k);
        assert RefreshedAt(candidates, item, known, k);
      }
    }
  }

  lemma {:induction false} FilteredAre(items: seq<Item>, keep: string -> bool, latest: Item -> Item, n: nat, i: nat)
    requires n <= |items| && i < |Filtered(items, keep, latest, n)|
    ensures exists j :: 0 <= j < n && keep(IdOf(items[j])) && Filtered(items, keep, latest, n)[i] == latest(items[j])
  {
    if i < |Filtered(items, keep, latest, n - 1)| {
      FilteredAre(items, keep, latest, n - 1, i);
    } else {
      assert Filtered(items, keep, latest, n)[i] == latest(items[n - 1]);
    }
  }

  /** Market `j` of the monitor, as the candidates show it if they list it, else as it was. */
  ghost predicate CarriesOver(m: Monitor, candidates: seq<Candidate>, item: Item, j: int) {
    && 0 <= j < |m.items|
    && ((exists k :: RefreshedAt(candidates, item, m.items[j], k))
        || (item == m.items[j] && Unlisted(candidates, m.items[j])))
  }

  /** Every listed market shows its first candidate of the best 500, its last candidate, or what it showed before. */
  lemma ListedShows(m: Monitor, candidates: seq<Candidate>, i: nat)
    requires i < |Refresh(m, candidates).items|
    ensures var item, top := Refresh(m, candidates).items[i], |Top(candidates)|;
      && (i < top ==> exists k :: LeadsAt(candidates, item, k))
      && (i >= top ==> exists j :: CarriesOver(m, candidates, item, j))
  {
    var top := Top(candidates);
    var item := Refresh(m, candidates).items[i];
    TopLeads(m, candidates);
    assert item == Uncapped(m, candidates)[i];
    if i < |top| {
      FirstsLead(candidates, TopCount(candidates), i);
    } else {
      var keep, latest := (id => Survives(m, candidates, id)), (item => Kept(candidates, item));
      FilteredAre(m.items, keep, latest, |m.items|, i - |top|);
      var j :| 0 <= j < |m.items| && keep(IdOf(m.items[j])) && item == latest(m.items[j]);
      LatestIsLast(candidates, m.items[j]);
      assert CarriesOver(m, candidates, item, j);
    }
  }

  lemma ValidRefresh(m: Monitor, candidates: seq<Candidate>)
    requires Distinct(m.items)
    ensures Valid(Refresh(m, candidates))
  {
    var t := Refresh(m, candidates);
    TopLeads(m, candidates);
    UncappedDistinct(m, candidates);
    if Has(t.items, "") {
      HasPrefix(t.items, Uncapped(m, candidates), "");
    }
    forall id | id in t.missing ensures t.missing[id] < MISSING_THRESHOLD {
      HasPrefix(t.items, Uncapped(m, candidates), id);
      UncappedHas(m, candidates, id);
    }
  }

  // ----- the code -----

  /** The locals that applyHotMarketCandidatesLocked builds up. */
  datatype Draft = Draft(selected: set<string>, missing: map<string, nat>, out: seq<Item>)

  method AddCandidate(d: Draft, candidate: Candidate) returns (t: Draft)
    ensures t == if |d.out| < CANDIDATE_LIMIT && Eligible(candidate) && IdOf(candidate.value) !in d.selected
                 then Draft(d.selected + {IdOf(candidate.value)}, d.missing[IdOf(candidate.value) := 0],
                            d.out + [candidate.value])
                 else d
  {
    if |d.out| >= CANDIDATE_LIMIT || candidate.None? {
      return d;
    }
    var id := TrimSpace(candidate.value.conditionId);
    if id == "" || id in d.selected {
      return d;
    }
    return Draft(d.selected + {id}, d.missing[id := 0], d.out + [candidate.value]);
  }

  ghost predicate Drafted(d: Draft, missing: map<string, nat>, candidates: seq<Candidate>) {
    d.selected == Ids(d.out) && d.missing == map id | id in d.selected :: MissingCount(missing, candidates, id)
  }

  lemma IdsMore(items: seq<Item>, item: Item)
    ensures Ids(items + [item]) == Ids(items) + {IdOf(item)}
  {
    forall id ensures id in Ids(items + [item]) <==> id in Ids(items) + {IdOf(item)} {
      HasMore(items, item, id);
      IdsAreHad(items + [item], id);
      IdsAreHad(items, id);
    }
  }

  lemma DraftedMore(d: Draft, missing: map<string, nat>, candidates: seq<Candidate>, item: Item)
    requires Drafted(d, missing, candidates)
    ensures var id := IdOf(item);
      var more := Draft(d.selected + {id}, d.missing[id := MissingCount(missing, candidates, id)], d.out + [item]);
      Drafted(more, missing, candidates)
  {
    IdsMore(d.out, item);
  }

  /** byID holds the last candidate of every untrimmed identifier. */
  ghost predicate IsById(byId: map<string, Item>, candidates: seq<Candidate>) {
    forall id :: (if id in byId then Some(byId[id]) else None) == Latest(candidates, id)
  }

  method IndexById(candidates: seq<Candidate>) returns (byId: map<string, Item>)
    ensures IsById(byId, candidates)
  {
    byId := map[];
    for i := 0 to |candidates|
      invariant IsById(byId, candidates[..i])
    {
      var c := candidates[i];
      assert candidates[..i + 1][..i] == candidates[..i];
      if c.None? || TrimSpace(c.value.conditionId) == "" {
        continue;
      }
      byId := byId[c.value.conditionId := c.value];
    }
    assert candidates[..|candidates|] == candidates;
  }

  method SelectTop(candidates: seq<Candidate>, ghost missing: map<string, nat>) returns (d: Draft)
    ensures d.out == Top(candidates) && Drafted(d, missing, candidates)
  {
    d := Draft({}, map[], []);
    var i := 0;
    while i < |candidates| && i < TARGET_LIMIT
      invariant 0 <= i <= TopCount(candidates)
      invariant d.out == Firsts(candidates, i) && |d.out| <= i && Drafted(d, missing, candidates)
    {
      ghost var c := candidates[i];
      if Eligible(c) {
        TopHas(candidates, i);
        FirstsHas(candidates, i, IdOf(c.value));
        IdsAreHad(d.out, IdOf(c.value));
        DraftedMore(d, missing, candidates, c.value);
      }
      d := AddCandidate(d, candidates[i]);
      i := i + 1;
    }
  }

  lemma TopHas(candidates: seq<Candidate>, k: nat)
    requires k < TopCount(candidates) && Eligible(candidates[k])
    ensures Has(Top(candidates), IdOf(candidates[k].value))
  {
    FirstsHas(candidates, TopCount(candidates), IdOf(candidates[k].value));
  }

  lemma CappedMore(items: seq<Item>, item: Item)
    ensures Capped(items + [item]) ==
      if |Capped(items)| < CANDIDATE_LIMIT then Capped(items) + [item] else Capped(items)
  {
  }

  /** The draft's list while the second loop has looked at `n` monitored items. */
  ghost function Drawn(m: Monitor, candidates: seq<Candidate>, n: nat): seq<Item>
    requires n <= |m.items|
  {
    Capped(Top(candidates) + Filtered(m.items, id => Survives(m, candidates, id), item => Kept(candidates, item), n))
  }

  lemma DrawnMore(m: Monitor, candidates: seq<Candidate>, n: nat)
    requires n < |m.items|
    ensures Drawn(m, candidates, n + 1) ==
      if Survives(m, candidates, IdOf(m.items[n])) && |Drawn(m, candidates, n)| < CANDIDATE_LIMIT
      then Drawn(m, candidates, n) + [Kept(candidates, m.items[n])] else Drawn(m, candidates, n)
  {
    var keep, latest := (id => Survives(m, candidates, id)), (item => Kept(candidates, item));
    var less := Filtered(m.items, keep, latest, n);
    if Survives(m, candidates, IdOf(m.items[n])) {
      CappedMore(Top(candidates) + less, Kept(candidates, m.items[n]));
      assert Top(candidates) + (less + [Kept(candidates, m.items[n])])
        == Top(candidates) + less + [Kept(candidates, m.items[n])];
    } else {
      assert Filtered(m.items, keep, latest, n + 1) == less;
    }
  }

  /** Among monitored markets not yet looked at, exactly the top ones are already selected. */
  lemma SelectedIsTop(m: Monitor, candidates: seq<Candidate>, n: nat)
    requires n < |m.items| && Distinct(m.items)
    ensures Has(Drawn(m, candidates, n), IdOf(m.items[n])) <==> Has(Top(candidates), IdOf(m.items[n]))
  {
    var keep, latest := (id => Survives(m, candidates, id)), (item => Kept(candidates, item));
    var id, less := IdOf(m.items[n]), Filtered(m.items, keep, latest, n);
    forall item ensures IdOf(latest(item)) == IdOf(item) {
      KeptKeepsId(candidates, item);
    }
    FilteredHas(m.items, keep, latest, n, id);
    HasAppend(Top(candidates), less, id);
    if Has(Drawn(m, candidates, n), id) {
      HasPrefix(Drawn(m, candidates, n), Top(candidates) + less, id);
    }
    if Has(Top(candidates), id) {
      FirstsHas(candidates, TopCount(candidates), id);
      HasPrefix(Top(candidates), Drawn(m, candidates, n), id);
    }
  }

  class Radar {
    var items: seq<Item>
    var missing: map<string, nat>

    ghost function View(): Monitor
      reads this
    {
      Monitor(items, missing)
    }

    constructor ()
      ensures View() == Monitor([], map[])
    {
      items, missing := [], map[];
    }

    method ApplyCandidates(candidates: seq<Candidate>)
      requires Distinct(items)
      modifies this
      ensures View() == Refresh(old(View()), candidates) && Valid(View())
    {
      var byId := IndexById(candidates);
      var d := SelectTop(candidates, missing);
      assert d.out == Drawn(View(), candidates, 0) by {
        FirstsHas(candidates, TopCount(candidates), "");
        assert Top(candidates) + [] == Top(candidates);
      }
      for i := 0 to |items|
        invariant items == old(items) && missing == old(missing)
        invariant d.out == Drawn(View(), candidates, i) && Drafted(d, missing, candidates)
      {
        d := KeepOrDrop(Monitor(items, missing), candidates, byId, i, d);
      }
      ValidRefresh(View(), candidates);
      items, missing := d.out, d.missing;
    }
  }

  /** One turn of the second loop. */
  method KeepOrDrop(m: Monitor, ghost candidates: seq<Candidate>, byId: map<string, Item>, i: nat, d: Draft)
    returns (t: Draft)
    requires i < |m.items| && Distinct(m.items) && IsById(byId, candidates)
    requires d.out == Drawn(m, candidates, i) && Drafted(d, m.missing, candidates)
    ensures t.out == Drawn(m, candidates, i + 1) && Drafted(t, m.missing, candidates)
  {
    var previous := m.items[i];
    var id := TrimSpace(previous.conditionId);
    DrawnMore(m, candidates, i);
    SelectedIsTop(m, candidates, i);
    IdsAreHad(d.out, id);
    DraftedMore(d, m.missing, candidates, Kept(candidates, previous));
    KeptKeepsId(candidates, previous);
    LatestIsListed(candidates, id);
    if id == "" || id in d.selected {
      return d;
    }
    if id in byId {
      t := AddCandidate(d, Some(byId[id]));
      return;
    }
    var missing := (if id in m.missing then m.missing[id] else 0) + 1;
    if missing < MISSING_THRESHOLD && |d.out| < CANDIDATE_LIMIT {
      return Draft(d.selected + {id}, d.missing[id := missing], d.out + [previous]);
    }
    return d;
  }
}

/** The monitored list over any history of refreshes. */
module HotMarketRuns {
  import opened Prelude
  import opened Text
  import opened HotMarkets

  function Run(history: seq<seq<Candidate>>): Monitor {
    if history == [] then Monitor([], map[]) else Refresh(Run(history[..|history| - 1]), history[|history| - 1])
  }

  /** For how many refreshes, counted back from the last one, the market has not been listed. */
  function Absences(history: seq<seq<Candidate>>, id: string): nat {
    if history == [] || Present(history[|history| - 1], id) then 0 else 1 + Absences(history[..|history| - 1], id)
  }

  lemma {:induction false} ValidRun(history: seq<seq<Candidate>>)
    ensures Valid(Run(history))
  {
    if history != [] {
      ValidRun(history[..|history| - 1]);
      ValidRefresh(Run(history[..|history| - 1]), history[|history| - 1]);
    }
  }

  lemma {:induction false} CounterIsStreak(history: seq<seq<Candidate>>, id: string)
    requires Has(Run(history).items, id)
    ensures id in Run(history).missing && Run(history).missing[id] == Absences(history, id) < 3
  {
    ValidRun(history);
    IdsAreHad(Run(history).items, id);
    var init, candidates := history[..|history| - 1], history[|history| - 1];
    if !Present(candidates, id) {
      var m := Run(init);
      TopLeads(m, candidates);
      HasPrefix(Run(history).items, Uncapped(m, candidates), id);
      UncappedHas(m, candidates, id);
      CounterIsStreak(init, id);
    }
  }

  /** Unless the list is full, a refresh monitors exactly the top markets and those it monitored before
      that have not been absent three times in a row. */
  lemma MonitoredExactly(history: seq<seq<Candidate>>, candidates: seq<Candidate>, id: string)
    ensures var before, after := Run(history).items, Run(history + [candidates]).items;
      && (Has(after, id) ==>
            Has(Top(candidates), id) || (Has(before, id) && Absences(history + [candidates], id) < 3))
      && (Has(Top(candidates), id) ==> Has(after, id))
      && (Has(before, id) && Absences(history + [candidates], id) < 3 ==> Has(after, id) || |after| == 650)
  {
    var all := history + [candidates];
    assert all[..|all| - 1] == history;
    var m := Run(history);
    ValidRun(history);
    TopLeads(m, candidates);
    UncappedHas(m, candidates, id);
    if Has(m.items, id) {
      CounterIsStreak(history, id);
      assert Absences(all, id) == MissingCount(m.missing, candidates, id);
    }
    if Has(Run(all).items, id) {
      HasPrefix(Run(all).items, Uncapped(m, candidates), id);
    }
    if Has(Top(candidates), id) {
      HasPrefix(Top(candidates), Run(all).items, id);
    }
  }

  lemma {:induction false} AbsencesAtLeast(history: seq<seq<Candidate>>, id: string, n: nat)
    requires n <= |history| && forall k :: |history| - n <= k < |history| ==> !Present(history[k], id)
    ensures Absences(history, id) >= n
  {
    if n > 0 {
      assert !Present(history[|history| - 1], id);
      AbsencesAtLeast(history[..|history| - 1], id, n - 1);
    }
  }

  /** A market that is absent from three refreshes in a row is gone. */
  lemma AbsentMarketsLeave(history: seq<seq<Candidate>>, id: string)
    requires |history| >= 3 && forall k :: |history| - 3 <= k < |history| ==> !Present(history[k], id)
    ensures !Has(Run(history).items, id)
  {
    AbsencesAtLeast(history, id, 3);
    if Has(Run(history).items, id) {
      CounterIsStreak(history, id);
    }
  }

  /** The first occurrences of the best 500 lead every list, in order. */
  lemma ListBeginsWithTop(history: seq<seq<Candidate>>, candidates: seq<Candidate>)
    ensures Top(candidates) <= Run(history + [candidates]).items
    ensures Distinct(Run(history + [candidates]).items) && |Run(history + [candidates]).items| <= 650
  {
    assert (history + [candidates])[..|history|] == history;
    TopLeads(Run(history), candidates);
    ValidRun(history + [candidates]);
  }

  /** For candidates with trimmed identifiers, as mapHotMarket builds them, being present is being in
      the list of candidates. */
  lemma PresentIsListed(candidates: seq<Candidate>, id: string)
    requires forall k :: 0 <= k < |candidates| && candidates[k].Some? ==> Trimmed(candidates[k].value.conditionId)
    ensures Present(candidates, id) <==>
      exists k :: 0 <= k < |candidates| && Eligible(candidates[k]) && candidates[k].value.conditionId == id
  {
    FirstsHas(candidates, TopCount(candidates), id);
    LatestIsListed(candidates, id);
    forall k | 0 <= k < |candidates| && candidates[k].Some?
      ensures IdOf(candidates[k].value) == candidates[k].value.conditionId
    {
      TrimIsProjection(candidates[k].value.conditionId);
    }
  }
}
