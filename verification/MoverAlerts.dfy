/** internal/marketradar/mover_alerts.go: which market moves are announced. Prices and scores are reals,
    times are Unix seconds. */
module MoverAlerts {
  import opened Prelude
  import opened Text
  import opened Sorting

  datatype Severity = Warning | Critical

  datatype Config = Config(
    warningScore: real, criticalScore: real, warning1m: real, warning5m: real, warning15m: real,
    critical1m: real, critical5m: real, minVolume: real, cooldown: int, maxPerRefresh: int)

  const NANOSECONDS := 1_000_000_000

  /** normalizeMoverAlertsConfig; durations are nanoseconds. */
  function Normalize(c: Config): Config {
    Config(
      if c.warningScore <= 0.0 then 6.0 else c.warningScore, if c.criticalScore <= 0.0 then 12.0 else c.criticalScore,
      if c.warning1m <= 0.0 then 3.0 else c.warning1m, if c.warning5m <= 0.0 then 5.0 else c.warning5m,
      if c.warning15m <= 0.0 then 8.0 else c.warning15m, if c.critical1m <= 0.0 then 8.0 else c.critical1m,
      if c.critical5m <= 0.0 then 12.0 else c.critical5m, if c.minVolume <= 0.0 then 10000.0 else c.minVolume,
      if c.cooldown <= 0 then 900 * NANOSECONDS else c.cooldown, if c.maxPerRefresh <= 0 then 3 else c.maxPerRefresh)
  }

  /** The cooldown in whole seconds. */
  function CooldownSeconds(c: Config): int {
    Normalize(c).cooldown / NANOSECONDS
  }

  function MaxPerRefresh(c: Config): (n: nat)
    ensures n > 0
  {
    Normalize(c).maxPerRefresh
  }

  /** A market with its leading token; the changes are absolute, in percentage points. */
  datatype Item = Item(
    condition: string, token: string, direction: string, score: real, change1m: real, change5m: real, change15m: real,
    volume: real, warmup: bool)

  datatype Sent = Sent(at: int, severity: Severity)

  datatype Candidate = Candidate(key: string, severity: Severity, score: real, change1m: real, condition: string)

  /** moverAlertSeverity */
  function SeverityOf(item: Item, c: Config): Option<Severity> {
    if item.score >= c.criticalScore || item.change1m >= c.critical1m || item.change5m >= c.critical5m
    then Some(Critical)
    else if item.score >= c.warningScore
            && (item.change1m >= c.warning1m || item.change5m >= c.warning5m || item.change15m >= c.warning15m)
    then Some(Warning)
    else None
  }

  function JoinKey(condition: string, token: string, direction: string): string {
    condition + ":" + token + ":" + direction
  }

  /** moverAlertKey; None is the empty key. */
  function KeyOf(item: Item): Option<string> {
    var condition, token, direction := TrimSpace(item.condition), TrimSpace(item.token), TrimSpace(item.direction);
    if condition == "" || token == "" || direction == "" then None else Some(JoinKey(condition, token, direction))
  }

  /** shouldSendMoverAlertLocked */
  predicate ShouldSend(states: map<string, Sent>, key: string, severity: Severity, cooldown: int, now: int) {
    || key !in states || states[key].at <= 0
    || (severity == Critical && states[key].severity == Warning)
    || now - states[key].at >= cooldown
  }

  /** moverAlertCandidateLocked, of a normalized configuration */
  function CandidateOf(states: map<string, Sent>, item: Option<Item>, c: Config, now: int): Option<Candidate> {
    if item.None? || item.value.warmup || item.value.volume < c.minVolume then None
    else
      var severity, key := SeverityOf(item.value, c), KeyOf(item.value);
      if severity.None? || key.None?
        || !ShouldSend(states, key.value, severity.value, c.cooldown / NANOSECONDS, now)
      then None
      else Some(Candidate(key.value, severity.value, item.value.score, item.value.change1m, item.value.condition))
  }

  function Candidates(states: map<string, Sent>, items: seq<Option<Item>>, c: Config, now: int): seq<Candidate> {
    if items == [] then []
    else
      var last := CandidateOf(states, items[|items| - 1], c, now);
      Candidates(states, items[..|items| - 1], c, now) + if last.Some? then [last.value] else []
  }

  /** Alerts remembered with a time of zero or before count as never sent. */
  lemma {:induction false} EarlyAlertsAreForgotten(states: map<string, Sent>, early: set<string>,
          items: seq<Option<Item>>, c: Config, now: int)
    requires forall key :: key in early && key in states ==> states[key].at <= 0
    ensures Candidates(states, items, c, now) == Candidates(states - early, items, c, now)
  {
    if items != [] {
      EarlyAlertsAreForgotten(states, early, items[..|items| - 1], c, now);
    }
  }

  // ----- which moves are announced -----

  /** A setting that is not positive stands for its default. */
  function Or(setting: real, default: real): real {
    if setting > 0.0 then setting else default
  }

  ghost predicate IsCritical(item: Item, c: Config) {
    || item.score >= Or(c.criticalScore, 12.0)
    || item.change1m >= Or(c.critical1m, 8.0) || item.change5m >= Or(c.critical5m, 12.0)
  }

  ghost predicate IsWarning(item: Item, c: Config) {
    && !IsCritical(item, c) && item.score >= Or(c.warningScore, 6.0)
    && (|| item.change1m >= Or(c.warning1m, 3.0) || item.change5m >= Or(c.warning5m, 5.0)
        || item.change15m >= Or(c.warning15m, 8.0))
  }

  /** Nothing was sent for the key since it counts, or this is an escalation, or the cooldown is over. */
  ghost predicate Due(states: map<string, Sent>, key: string, severity: Severity, c: Config, now: int) {
    key in states && states[key].at > 0 ==>
      || (severity == Critical && states[key].severity == Warning)
      || now >= states[key].at + (if c.cooldown > 0 then c.cooldown / 1_000_000_000 else 900)
  }

  /** `x` is the alert that `item` is worth now. */
  ghost predicate Announces(states: map<string, Sent>, item: Option<Item>, c: Config, now: int, x: Candidate) {
    && item.Some? && !item.value.warmup && item.value.volume >= Or(c.minVolume, 10000.0)
    && TrimSpace(item.value.condition) != "" && TrimSpace(item.value.token) != ""
    && TrimSpace(item.value.direction) != ""
    && x.key == TrimSpace(item.value.condition) + ":" + TrimSpace(item.value.token) + ":"
                + TrimSpace(item.value.direction)
    && (x.severity == Critical <==> IsCritical(item.value, c)) && (x.severity == Warning <==> IsWarning(item.value, c))
    && Due(states, x.key, x.severity, c, now)
    && x.score == item.value.score && x.change1m == item.value.change1m && x.condition == item.value.condition
  }

  lemma CandidateAnnounces(states: map<string, Sent>, item: Option<Item>, c: Config, now: int, x: Candidate)
    ensures CandidateOf(states, item, Normalize(c), now) == Some(x) <==> Announces(states, item, c, now, x)
  {
    if item.Some? {
      assert SeverityOf(item.value, Normalize(c)) == Some(Critical) <==> IsCritical(item.value, c);
      assert SeverityOf(item.value, Normalize(c)) == Some(Warning) <==> IsWarning(item.value, c);
    }
  }

  ghost predicate AnnouncedAt(states: map<string, Sent>, items: seq<Option<Item>>, c: Config, now: int, x: Candidate,
          i: int)
  {
    0 <= i < |items| && Announces(states, items[i], c, now, x)
  }

  /** The candidates are exactly the alerts that the items are worth, one for each such item. */
  lemma {:induction false} AnnouncedExactly(states: map<string, Sent>, items: seq<Option<Item>>, c: Config, now: int)
    ensures forall x :: x in Candidates(states, items, Normalize(c), now) <==>
      exists i :: AnnouncedAt(states, items, c, now, x, i)
    ensures |Candidates(states, items, Normalize(c), now)| <= |items|
  {
    if items != [] {
      var init, last := items[..|items| - 1], items[|items| - 1];
      AnnouncedExactly(states, init, c, now);
      forall x
        ensures x in Candidates(states, items, Normalize(c), now) <==>
          exists i :: AnnouncedAt(states, items, c, now, x, i)
      {
        CandidateAnnounces(states, last, c, now, x);
        if i :| AnnouncedAt(states, init, c, now, x, i) {
          assert AnnouncedAt(states, items, c, now, x, i);
        }
        if Announces(states, last, c, now, x) {
          assert AnnouncedAt(states, items, c, now, x, |init|);
        }
        if i :| AnnouncedAt(states, items, c, now, x, i) && i < |init| {
          assert AnnouncedAt(states, init, c, now, x, i);
        }
      }
    }
  }

  function Grade(severity: Option<Severity>): nat {
    match severity case None => 0 case Some(Warning) => 1 case Some(Critical) => 2
  }

  /** A greater score or a greater change never lowers the severity. */
  lemma SeverityIsMonotone(item: Item, more: Item, c: Config)
    requires item.score <= more.score && item.change1m <= more.change1m
    requires item.change5m <= more.change5m && item.change15m <= more.change15m
    ensures Grade(SeverityOf(item, c)) <= Grade(SeverityOf(more, c))
  {
  }

  // ----- ranking -----

  predicate TextLess(s: string, t: string) {
    t != "" && (s == "" || s[0] < t[0] || (s[0] == t[0] && TextLess(s[1..], t[1..])))
  }

  predicate Outranks(a: Candidate, b: Candidate) {
    if a.severity != b.severity then a.severity == Critical
    else if a.score != b.score then a.score > b.score
    else if a.change1m != b.change1m then a.change1m > b.change1m
    else TextLess(a.condition, b.condition)
  }

  /** One text is before another if it is a proper prefix or has the smaller character where they first differ. */
  lemma {:induction false} TextLessIff(s: string, t: string)
    ensures TextLess(s, t) <==> s < t || exists k :: DiffersAt(s, t, k) && s[k] < t[k]
  {
    if s != "" && t != "" {
      if s[0] == t[0] {
        TextLessIff(s[1..], t[1..]);
        if k :| DiffersAt(s[1..], t[1..], k) && s[1..][k] < t[1..][k] {
          assert DiffersAt(s, t, k + 1);
        }
        if k :| DiffersAt(s, t, k) && s[k] < t[k] {
          assert DiffersAt(s[1..], t[1..], k - 1);
        }
      } else {
        assert DiffersAt(s, t, 0);
      }
    }
  }

  ghost predicate DiffersAt(s: string, t: string, k: int) {
    0 <= k < |s| && k < |t| && s[..k] == t[..k] && s[k] != t[k]
  }

  /** Critical alerts come first, then the greater score, the greater one-minute change, the smaller condition. */
  lemma OutranksIff(a: Candidate, b: Candidate)
    ensures Outranks(a, b) <==>
      || (a.severity == Critical && b.severity == Warning)
      || (a.severity == b.severity && a.score > b.score)
      || (a.severity == b.severity && a.score == b.score && a.change1m > b.change1m)
      || (a.severity == b.severity && a.score == b.score && a.change1m == b.change1m
          && TextLess(a.condition, b.condition))
  {
  }

  lemma {:induction false} TextOrder(s: string, t: string, u: string)
    ensures TextLess(s, t) ==> !TextLess(t, s)
    ensures !TextLess(t, s) && !TextLess(u, t) ==> !TextLess(u, s)
  {
    if s != "" && t != "" {
      TextOrder(s[1..], t[1..], if u == "" then "" else u[1..]);
    }
  }

  lemma OutranksIsOrder()
    ensures StrictWeakOrder(Outranks)
  {
    forall a: Candidate, b: Candidate, c: Candidate
      ensures Outranks(a, b) ==> !Outranks(b, a)
      ensures !Outranks(b, a) && !Outranks(c, b) ==> !Outranks(c, a)
    {
      TextOrder(a.condition, b.condition, c.condition);
    }
  }

  function Take(xs: seq<Candidate>, n: nat): seq<Candidate> {
    if |xs| <= n then xs else xs[..n]
  }

  function Best(candidates: seq<Candidate>, n: nat): seq<Candidate> {
    Take(StableSort(candidates, Outranks), n)
  }

  function Others(candidates: seq<Candidate>, n: nat): seq<Candidate> {
    var sorted := StableSort(candidates, Outranks);
    if |sorted| <= n then [] else sorted[n..]
  }

  function Emitted(states: map<string, Sent>, items: seq<Option<Item>>, c: Config, now: int): seq<Candidate> {
    Best(Candidates(states, items, Normalize(c), now), MaxPerRefresh(c))
  }

  /** The best candidates are taken, never more than `n`, and some are left only when `n` are taken;
      nothing left outranks anything taken. */
  lemma BestAreTaken(candidates: seq<Candidate>, n: nat)
    ensures multiset(Best(candidates, n)) + multiset(Others(candidates, n)) == multiset(candidates)
    ensures |Best(candidates, n)| <= n && (Others(candidates, n) == [] || |Best(candidates, n)| == n)
    ensures Sorted(Best(candidates, n), Outranks)
    ensures forall better, other :: better in Best(candidates, n) && other in Others(candidates, n) ==>
      !Outranks(other, better)
  {
    var sorted, best, others := StableSort(candidates, Outranks), Best(candidates, n), Others(candidates, n);
    SortPermutes(candidates, Outranks);
    assert Sorted(sorted, Outranks) by {
      OutranksIsOrder();
      SortSorts(candidates, Outranks);
    }
    assert sorted == best + others;
    forall better, other | better in best && other in others ensures !Outranks(other, better) {
      var i :| 0 <= i < |best| && best[i] == better;
      var j :| 0 <= j < |others| && others[j] == other;
      assert sorted[i] == better && sorted[|best| + j] == other;
    }
  }

  /** What a refresh announces, and what it withholds. */
  lemma EmittedExactly(states: map<string, Sent>, items: seq<Option<Item>>, c: Config, now: int)
    ensures forall x :: x in Emitted(states, items, c, now) ==> exists i :: AnnouncedAt(states, items, c, now, x, i)
    ensures forall x, i :: AnnouncedAt(states, items, c, now, x, i) ==>
      x in Emitted(states, items, c, now)
      || (|Emitted(states, items, c, now)| == (if c.maxPerRefresh > 0 then c.maxPerRefresh else 3)
          && forall better :: better in Emitted(states, items, c, now) ==> !Outranks(x, better))
    ensures |Emitted(states, items, c, now)| <= if c.maxPerRefresh > 0 then c.maxPerRefresh else 3
  {
    var candidates, n := Candidates(states, items, Normalize(c), now), MaxPerRefresh(c);
    AnnouncedExactly(states, items, c, now);
    BestAreTaken(candidates, n);
    forall x ensures x in candidates <==> x in Best(candidates, n) || x in Others(candidates, n) {
      assert x in candidates <==> x in multiset(candidates);
      assert x in Best(candidates, n) <==> x in multiset(Best(candidates, n));
      assert x in Others(candidates, n) <==> x in multiset(Others(candidates, n));
    }
  }

  // ----- the code -----

  function Record(states: map<string, Sent>, emitted: seq<Candidate>, now: int): map<string, Sent> {
    if emitted == [] then states
    else
      var last := emitted[|emitted| - 1];
      Record(states, emitted[..|emitted| - 1], now)[last.key := Sent(now, last.severity)]
  }

  /** The time a refresh uses: its own, or the wall clock when that is not set. */
  function Clock(now: int, wall: int): int {
    if now <= 0 then wall else now
  }

  class Alerts {
    const config: Config
    var states: map<string, Sent>

    constructor (config: Config)
      ensures this.config == config && states == map[]
    {
      this.config, states := config, map[];
    }

    /** collectMoverAlertsLocked, with alerts enabled */
    method Collect(now: int, wall: int, items: seq<Option<Item>>) returns (emitted: seq<Candidate>)
      modifies this
      ensures emitted == Emitted(old(states), items, config, Clock(now, wall))
      ensures states == Record(old(states), emitted, Clock(now, wall))
      // Only what an item is worth is announced, and all of it unless as many better alerts are.
      ensures forall x :: x in emitted ==>
        exists i :: AnnouncedAt(old(states), items, config, Clock(now, wall), x, i)
      ensures forall x, i :: AnnouncedAt(old(states), items, config, Clock(now, wall), x, i) ==>
        x in emitted || (|emitted| == (if config.maxPerRefresh > 0 then config.maxPerRefresh else 3)
                         && forall better :: better in emitted ==> !Outranks(x, better))
      ensures |emitted| <= if config.maxPerRefresh > 0 then config.maxPerRefresh else 3
    {
      EmittedExactly(states, items, config, Clock(now, wall));
      var c := Normalize(config);
      var time := if now <= 0 then wall else now;
      var candidates: seq<Candidate> := [];
      for i := 0 to |items|
        invariant candidates == Candidates(states, items[..i], c, time) && states == old(states)
      {
        assert items[..i + 1][..i] == items[..i];
        var candidate := CandidateOf(states, items[i], c, time);
        if candidate.Some? {
          candidates := candidates + [candidate.value];
        }
      }
      assert items[..|items|] == items;
      emitted := StableSort(candidates, Outranks);
      if |emitted| > c.maxPerRefresh {
        emitted := emitted[..c.maxPerRefresh];
      }
      for i := 0 to |emitted|
        invariant states == Record(old(states), emitted[..i], time)
      {
        assert emitted[..i + 1][..i] == emitted[..i];
        states := states[emitted[i].key := Sent(time, emitted[i].severity)];
      }
      assert emitted[..|emitted|] == emitted;
    }
  }

  // ----- keys -----

  predicate ColonFree(s: string) {
    ':' !in s
  }

  /** Keys of markets whose condition identifiers have no colon tell the markets apart. */
  lemma {:induction false} KeysTellConditions(a: string, b: string, rest: string, more: string)
    requires ColonFree(a) && ColonFree(b) && a + ":" + rest == b + ":" + more
    ensures a == b && rest == more
  {
    var x, y := a + ":" + rest, b + ":" + more;
    assert x[0] == if a == "" then ':' else a[0];
    assert y[0] == if b == "" then ':' else b[0];
    if a == "" && b == "" {
      assert x[1..] == rest && y[1..] == more;
    } else if a != "" && b != "" {
      assert x[1..] == a[1..] + ":" + rest && y[1..] == b[1..] + ":" + more;
      KeysTellConditions(a[1..], b[1..], rest, more);
    }
  }

  lemma SameKeySameMarket(a: Item, b: Item)
    requires KeyOf(a).Some? && KeyOf(a) == KeyOf(b) && ColonFree(TrimSpace(a.condition))
    requires ColonFree(TrimSpace(b.condition))
    ensures TrimSpace(a.condition) == TrimSpace(b.condition)
  {
    var p, q := TrimSpace(a.token) + ":" + TrimSpace(a.direction), TrimSpace(b.token) + ":" + TrimSpace(b.direction);
    assert KeyOf(a).value == TrimSpace(a.condition) + ":" + p && KeyOf(b).value == TrimSpace(b.condition) + ":" + q;
    KeysTellConditions(TrimSpace(a.condition), TrimSpace(b.condition), p, q);
  }

  /** With a colon in a condition identifier two markets can share a key. */
  lemma ColonsCollide()
    ensures JoinKey("a:b", "c", "up") == JoinKey("a", "b:c", "up")
  {
  }
}

/** Alerts over whole runs of refreshes. */
module MoverAlertRuns {
  import opened Prelude
  import opened Text
  import opened Traces
  import opened Sorting
  import opened MoverAlerts

  datatype Alert = Alert(at: int, key: string, severity: Severity)

  datatype State = State(states: map<string, Sent>, sent: seq<Alert>)

  datatype Event = Refresh(now: int, wall: int, items: seq<Option<Item>>)

  function TimeOf(e: Event): int {
    Clock(e.now, e.wall)
  }

  function Log(sent: seq<Alert>, emitted: seq<Candidate>, now: int): seq<Alert> {
    if emitted == [] then sent
    else
      var last := emitted[|emitted| - 1];
      Log(sent, emitted[..|emitted| - 1], now) + [Alert(now, last.key, last.severity)]
  }

  function Next(c: Config, s: State, e: Event): State {
    var emitted := Emitted(s.states, e.items, c, TimeOf(e));
    State(Record(s.states, emitted, TimeOf(e)), Log(s.sent, emitted, TimeOf(e)))
  }

  function Run(c: Config, events: seq<Event>): State {
    if events == [] then State(map[], []) else Next(c, Run(c, events[..|events| - 1]), events[|events| - 1])
  }

  // ----- what holds of the log -----

  function Latest(sent: seq<Alert>, key: string): Option<Sent> {
    if sent == [] then None
    else if sent[|sent| - 1].key == key then Some(Sent(sent[|sent| - 1].at, sent[|sent| - 1].severity))
    else Latest(sent[..|sent| - 1], key)
  }

  function Lookup(states: map<string, Sent>, key: string): Option<Sent> {
    if key in states then Some(states[key]) else None
  }

  ghost predicate Agrees(states: map<string, Sent>, sent: seq<Alert>) {
    forall key :: Lookup(states, key) == Latest(sent, key)
  }

  ghost predicate Timed(sent: seq<Alert>, now: int) {
    && (forall i :: 0 <= i < |sent| ==> sent[i].at <= now)
    && (forall i, j :: 0 <= i < j < |sent| ==> sent[i].at <= sent[j].at)
  }

  /** An alert at a positive time and a later one of its key within a cooldown are a warning and then a
      critical one. (An alert at time zero or before counts as never sent.) */
  ghost predicate Cooled(sent: seq<Alert>, cooldown: int) {
    forall i, j ::
      0 <= i < j < |sent| && sent[i].key == sent[j].key && 0 < sent[i].at && sent[j].at - sent[i].at < cooldown ==>
        sent[i].severity == Warning && sent[j].severity == Critical
  }

  lemma {:induction false} LatestAt(sent: seq<Alert>, key: string) returns (index: int)
    ensures Latest(sent, key).None? ==> index == -1
    ensures Latest(sent, key).Some? ==>
      0 <= index < |sent| && sent[index] == Alert(Latest(sent, key).value.at, key, Latest(sent, key).value.severity)
    ensures forall i :: index < i < |sent| ==> sent[i].key != key
  {
    if sent == [] {
      index := -1;
    } else if sent[|sent| - 1].key == key {
      index := |sent| - 1;
    } else {
      index := LatestAt(sent[..|sent| - 1], key);
    }
  }

  lemma CooledMore(sent: seq<Alert>, alert: Alert, cooldown: int)
    requires Cooled(sent, cooldown) && Timed(sent, alert.at)
    requires var last := Latest(sent, alert.key);
      last.Some? && last.value.at > 0 ==>
        (last.value.severity == Warning && alert.severity == Critical) || alert.at - last.value.at >= cooldown
    ensures Cooled(sent + [alert], cooldown)
  {
    var index := LatestAt(sent, alert.key);
    forall i | 0 <= i < |sent| && sent[i].key == alert.key && 0 < sent[i].at && alert.at - sent[i].at < cooldown
      ensures sent[i].severity == Warning && alert.severity == Critical
    {
      if i < index {
        assert sent[index].at - sent[i].at < cooldown;
      }
    }
  }

  lemma AgreesMore(states: map<string, Sent>, sent: seq<Alert>, alert: Alert)
    requires Agrees(states, sent)
    ensures Agrees(states[alert.key := Sent(alert.at, alert.severity)], sent + [alert])
  {
    var more, later := sent + [alert], states[alert.key := Sent(alert.at, alert.severity)];
    assert more[..|more| - 1] == sent && more[|more| - 1] == alert;
    forall key ensures Lookup(later, key) == Latest(more, key) {
      assert Lookup(states, key) == Latest(sent, key);
    }
  }

  ghost predicate KeysDistinct(candidates: seq<Candidate>) {
    forall i, j :: 0 <= i < j < |candidates| ==> candidates[i].key != candidates[j].key
  }

  ghost predicate AllSendable(states: map<string, Sent>, emitted: seq<Candidate>, cooldown: int, now: int) {
    forall i :: 0 <= i < |emitted| ==> ShouldSend(states, emitted[i].key, emitted[i].severity, cooldown, now)
  }

  lemma {:induction false} RecordKeeps(states: map<string, Sent>, emitted: seq<Candidate>, now: int, key: string)
    requires forall i :: 0 <= i < |emitted| ==> emitted[i].key != key
    ensures Lookup(Record(states, emitted, now), key) == Lookup(states, key)
  {
    if emitted != [] {
      RecordKeeps(states, emitted[..|emitted| - 1], now, key);
    }
  }

  /** The remembered alerts are the latest ones of the log, which is in order of time. */
  ghost predicate Logged(s: State, now: int) {
    Agrees(s.states, s.sent) && Timed(s.sent, now)
  }

  lemma {:induction false} LoggedEmit(s: State, emitted: seq<Candidate>, now: int)
    requires Logged(s, now)
    ensures Logged(State(Record(s.states, emitted, now), Log(s.sent, emitted, now)), now)
  {
    if emitted != [] {
      var init, last := emitted[..|emitted| - 1], emitted[|emitted| - 1];
      LoggedEmit(s, init, now);
      AgreesMore(Record(s.states, init, now), Log(s.sent, init, now), Alert(now, last.key, last.severity));
    }
  }

  lemma CooledSend(s: State, alert: Alert, cooldown: int)
    requires Logged(s, alert.at) && Cooled(s.sent, cooldown)
    requires ShouldSend(s.states, alert.key, alert.severity, cooldown, alert.at)
    ensures Cooled(s.sent + [alert], cooldown)
  {
    assert Lookup(s.states, alert.key) == Latest(s.sent, alert.key);
    CooledMore(s.sent, alert, cooldown);
  }

  /** Alerts of distinct keys, each permitted by what is remembered, keep the log cooled. */
  lemma {:induction false} CooledEmit(s: State, emitted: seq<Candidate>, cooldown: int, now: int)
    requires Logged(s, now) && Cooled(s.sent, cooldown) && KeysDistinct(emitted)
    requires AllSendable(s.states, emitted, cooldown, now)
    ensures Cooled(Log(s.sent, emitted, now), cooldown)
  {
    if emitted != [] {
      var init, last := emitted[..|emitted| - 1], emitted[|emitted| - 1];
      assert KeysDistinct(init) && AllSendable(s.states, init, cooldown, now);
      CooledEmit(s, init, cooldown, now);
      LoggedEmit(s, init, now);
      var t := State(Record(s.states, init, now), Log(s.sent, init, now));
      assert ShouldSend(t.states, last.key, last.severity, cooldown, now) by {
        RecordKeeps(s.states, init, now, last.key);
        assert ShouldSend(s.states, last.key, last.severity, cooldown, now);
      }
      CooledSend(t, Alert(now, last.key, last.severity), cooldown);
    }
  }

  /** At time zero or before nothing is owed. */
  lemma {:induction false} CooledEarly(s: State, emitted: seq<Candidate>, cooldown: int, now: int)
    requires Logged(s, now) && Cooled(s.sent, cooldown) && now <= 0
    ensures Cooled(Log(s.sent, emitted, now), cooldown)
  {
    if emitted != [] {
      CooledEarly(s, emitted[..|emitted| - 1], cooldown, now);
      LoggedEmit(s, emitted[..|emitted| - 1], now);
    }
  }

  lemma {:induction false} LogOf(sent: seq<Alert>, emitted: seq<Candidate>, now: int)
    ensures |Log(sent, emitted, now)| == |sent| + |emitted| && sent <= Log(sent, emitted, now)
    ensures forall i :: 0 <= i < |emitted| ==>
      Log(sent, emitted, now)[|sent| + i] == Alert(now, emitted[i].key, emitted[i].severity)
  {
    if emitted != [] {
      LogOf(sent, emitted[..|emitted| - 1], now);
    }
  }

  /** Two alerts of one key in one refresh are never a warning and then a critical one: critical ones come first. */
  lemma SharedKeyIsNotCooled(s: State, emitted: seq<Candidate>, cooldown: int, now: int)
    requires Sorted(emitted, Outranks) && !KeysDistinct(emitted) && now > 0 && cooldown > 0
    ensures !Cooled(Log(s.sent, emitted, now), cooldown)
  {
    var i, j :| 0 <= i < j < |emitted| && emitted[i].key == emitted[j].key;
    LogOf(s.sent, emitted, now);
    var sent := Log(s.sent, emitted, now);
    var x, y := |s.sent| + i, |s.sent| + j;
    assert sent[x] == Alert(now, emitted[i].key, emitted[i].severity)
      && sent[y] == Alert(now, emitted[j].key, emitted[j].severity);
    assert !Outranks(emitted[j], emitted[i]);
  }

  // ----- what a refresh emits -----

  /** The alert keys of one refresh's markets are distinct. */
  ghost predicate ItemKeysDistinct(items: seq<Option<Item>>) {
    forall i, j :: 0 <= i < j < |items| && items[i].Some? && items[j].Some? && KeyOf(items[i].value).Some? ==>
      KeyOf(items[i].value) != KeyOf(items[j].value)
  }

  /** So they are for distinct markets whose condition identifiers have no colon. */
  lemma ColonFreeKeysAreDistinct(items: seq<Option<Item>>)
    requires forall i :: 0 <= i < |items| && items[i].Some? ==> ColonFree(TrimSpace(items[i].value.condition))
    requires forall i, j :: 0 <= i < j < |items| && items[i].Some? && items[j].Some? ==>
      TrimSpace(items[i].value.condition) != TrimSpace(items[j].value.condition)
    ensures ItemKeysDistinct(items)
  {
    forall i, j | 0 <= i < j < |items| && items[i].Some? && items[j].Some? && KeyOf(items[i].value).Some?
      ensures KeyOf(items[i].value) != KeyOf(items[j].value)
    {
      if KeyOf(items[i].value) == KeyOf(items[j].value) {
        SameKeySameMarket(items[i].value, items[j].value);
      }
    }
  }

  lemma {:induction false} CandidateOrigin(states: map<string, Sent>, items: seq<Option<Item>>, c: Config,
          now: int, candidate: Candidate)
    returns (k: nat)
    requires candidate in Candidates(states, items, c, now)
    ensures k < |items| && CandidateOf(states, items[k], c, now) == Some(candidate)
  {
    var last := CandidateOf(states, items[|items| - 1], c, now);
    if last == Some(candidate) {
      k := |items| - 1;
    } else {
      k := CandidateOrigin(states, items[..|items| - 1], c, now, candidate);
    }
  }

  lemma {:induction false} CandidatesDistinct(states: map<string, Sent>, items: seq<Option<Item>>, c: Config, now: int)
    requires ItemKeysDistinct(items)
    ensures KeysDistinct(Candidates(states, items, c, now))
  {
    if items != [] {
      var init, item := items[..|items| - 1], items[|items| - 1];
      CandidatesDistinct(states, init, c, now);
      var candidates, last := Candidates(states, init, c, now), CandidateOf(states, item, c, now);
      if last.Some? {
        forall i | 0 <= i < |candidates| ensures candidates[i].key != last.value.key {
          var k := CandidateOrigin(states, init, c, now, candidates[i]);
          assert KeyOf(items[k].value) != KeyOf(items[|init|].value);
        }
      }
    }
  }

  lemma {:induction false} InsertDistinct(x: Candidate, xs: seq<Candidate>)
    requires KeysDistinct(xs) && forall i :: 0 <= i < |xs| ==> xs[i].key != x.key
    ensures KeysDistinct(Insert(x, xs, Outranks))
  {
    if xs != [] && !Outranks(x, xs[0]) {
      var rest := Insert(x, xs[1..], Outranks);
      InsertDistinct(x, xs[1..]);
      InsertPermutes(x, xs[1..], Outranks);
      forall j | 0 <= j < |rest| ensures rest[j].key != xs[0].key {
        assert rest[j] in multiset(rest);
        assert rest[j] == x || rest[j] in xs[1..];
      }
    }
  }

  lemma {:induction false} SortDistinct(xs: seq<Candidate>)
    requires KeysDistinct(xs)
    ensures KeysDistinct(StableSort(xs, Outranks))
  {
    if xs != [] {
      var init, last := xs[..|xs| - 1], xs[|xs| - 1];
      SortDistinct(init);
      SortPermutes(init, Outranks);
      var sorted := StableSort(init, Outranks);
      SameMembers(sorted, init);
      forall i | 0 <= i < |sorted| ensures sorted[i].key != last.key {
        assert sorted[i] in init;
      }
      InsertDistinct(last, sorted);
    }
  }

  lemma EmittedIsSendable(states: map<string, Sent>, items: seq<Option<Item>>, c: Config, now: int)
    ensures AllSendable(states, Emitted(states, items, c, now), CooldownSeconds(c), now)
    ensures Sorted(Emitted(states, items, c, now), Outranks)
  {
    var candidates, emitted := Candidates(states, items, Normalize(c), now), Emitted(states, items, c, now);
    BestAreTaken(candidates, MaxPerRefresh(c));
    SortPermutes(candidates, Outranks);
    SameMembers(StableSort(candidates, Outranks), candidates);
    forall i | 0 <= i < |emitted|
      ensures ShouldSend(states, emitted[i].key, emitted[i].severity, CooldownSeconds(c), now)
    {
      assert emitted[i] == StableSort(candidates, Outranks)[i];
      var k := CandidateOrigin(states, items, Normalize(c), now, emitted[i]);
    }
  }

  lemma EmittedIsDistinct(states: map<string, Sent>, items: seq<Option<Item>>, c: Config, now: int)
    requires ItemKeysDistinct(items)
    ensures KeysDistinct(Emitted(states, items, c, now))
  {
    CandidatesDistinct(states, items, Normalize(c), now);
    SortDistinct(Candidates(states, items, Normalize(c), now));
  }

  // ----- whole runs -----

  ghost predicate Nondecreasing(events: seq<Event>) {
    forall i, j :: 0 <= i < j < |events| ==> TimeOf(events[i]) <= TimeOf(events[j])
  }

  lemma {:induction false} LoggedRun(c: Config, events: seq<Event>, now: int)
    requires Nondecreasing(events) && forall i :: 0 <= i < |events| ==> TimeOf(events[i]) <= now
    ensures Logged(Run(c, events), now)
  {
    if events != [] {
      var init, e := events[..|events| - 1], events[|events| - 1];
      LoggedRun(c, init, TimeOf(e));
      LoggedEmit(Run(c, init), Emitted(Run(c, init).states, e.items, c, TimeOf(e)), TimeOf(e));
    }
  }

  /** A refresh at a positive time that announces two markets under one key. */
  ghost predicate Clash(c: Config, before: seq<Event>, e: Event) {
    TimeOf(e) > 0 && !KeysDistinct(Emitted(Run(c, before).states, e.items, c, TimeOf(e)))
  }

  lemma CooledPrefix(sent: seq<Alert>, more: seq<Alert>, cooldown: int)
    requires sent <= more && Cooled(more, cooldown)
    ensures Cooled(sent, cooldown)
  {
    assert forall i :: 0 <= i < |sent| ==> sent[i] == more[i];
  }

  lemma CooledNext(c: Config, before: seq<Event>, e: Event)
    requires Logged(Run(c, before), TimeOf(e)) && CooldownSeconds(c) > 0
    ensures Cooled(Next(c, Run(c, before), e).sent, CooldownSeconds(c)) <==>
      Cooled(Run(c, before).sent, CooldownSeconds(c)) && !Clash(c, before, e)
  {
    var s, cooldown := Run(c, before), CooldownSeconds(c);
    var emitted := Emitted(s.states, e.items, c, TimeOf(e));
    EmittedIsSendable(s.states, e.items, c, TimeOf(e));
    LogOf(s.sent, emitted, TimeOf(e));
    if Cooled(Next(c, s, e).sent, cooldown) {
      CooledPrefix(s.sent, Next(c, s, e).sent, cooldown);
      if Clash(c, before, e) {
        SharedKeyIsNotCooled(s, emitted, cooldown, TimeOf(e));
      }
    }
    if Cooled(s.sent, cooldown) && !Clash(c, before, e) {
      if TimeOf(e) > 0 {
        CooledEmit(s, emitted, cooldown, TimeOf(e));
      } else {
        CooledEarly(s, emitted, cooldown, TimeOf(e));
      }
    }
  }

  /** Over every run with a nondecreasing clock, the cooldown holds for every alert at a positive time if and
      only if it is less than a second or no refresh announces two markets under one key. */
  lemma {:induction false} CooledIff(c: Config, events: seq<Event>)
    requires Nondecreasing(events)
    ensures Cooled(Run(c, events).sent, CooldownSeconds(c)) <==>
      CooldownSeconds(c) <= 0 || !Occurs(events, (before, e) => Clash(c, before, e))
  {
    if events == [] {
      assert Run(c, events).sent == [];
    } else if CooldownSeconds(c) <= 0 {
      LoggedRun(c, events, TimeOf(events[|events| - 1]));
    } else {
      var init, e := events[..|events| - 1], events[|events| - 1];
      CooledIff(c, init);
      LoggedRun(c, init, TimeOf(e));
      CooledNext(c, init, e);
      OccursStep(events, (before, e) => Clash(c, before, e));
    }
  }

  /** Refreshes whose markets have distinct keys never clash. */
  lemma DistinctKeysCool(c: Config, events: seq<Event>)
    requires Nondecreasing(events) && forall k :: 0 <= k < |events| ==> ItemKeysDistinct(events[k].items)
    ensures Cooled(Run(c, events).sent, CooldownSeconds(c))
  {
    var p := (before, e) => Clash(c, before, e);
    forall k | OccursAt(events, p, k) ensures false {
      EmittedIsDistinct(Run(c, events[..k]).states, events[k].items, c, TimeOf(events[k]));
    }
    CooledIff(c, events);
  }

  /** Two alerts of one key within a cooldown are a warning and then a critical one. */
  lemma OnlyEscalation(c: Config, events: seq<Event>, i: nat, j: nat)
    requires Nondecreasing(events) && forall k :: 0 <= k < |events| ==> ItemKeysDistinct(events[k].items)
    requires var sent := Run(c, events).sent;
      i < j < |sent| && sent[i].key == sent[j].key && 0 < sent[i].at && sent[j].at - sent[i].at < CooldownSeconds(c)
    ensures var sent := Run(c, events).sent;
      sent[i].at <= sent[j].at && sent[i].severity == Warning && sent[j].severity == Critical
  {
    DistinctKeysCool(c, events);
    LoggedRun(c, events, TimeOf(events[|events| - 1]));
  }

  /** So no half-open interval of one cooldown, from a positive time on, holds three alerts of one key. */
  lemma AtMostTwoPerCooldown(c: Config, events: seq<Event>, i: nat, j: nat, k: nat)
    requires Nondecreasing(events) && forall k :: 0 <= k < |events| ==> ItemKeysDistinct(events[k].items)
    requires var sent := Run(c, events).sent;
      i < j < k < |sent| && sent[i].key == sent[j].key == sent[k].key && 0 < sent[i].at
    ensures var sent := Run(c, events).sent; sent[k].at - sent[i].at >= CooldownSeconds(c)
  {
    DistinctKeysCool(c, events);
    LoggedRun(c, events, TimeOf(events[|events| - 1]));
    var sent := Run(c, events).sent;
    assert sent[i].at <= sent[j].at <= sent[k].at;
    if sent[j].at - sent[i].at < CooldownSeconds(c) {
      assert sent[j].severity == Critical;
    }
  }

  lemma EmittedOfOne(states: map<string, Sent>, item: Item, c: Config, now: int)
    ensures var x := CandidateOf(states, Some(item), Normalize(c), now);
      Emitted(states, [Some(item)], c, now) == if x.Some? then [x.value] else []
  {
    var items := [Some(item)];
    var none: seq<Option<Item>> := [];
    assert items[..|items| - 1] == none && Candidates(states, none, Normalize(c), now) == [];
    var candidates := Candidates(states, items, Normalize(c), now);
    var x := CandidateOf(states, Some(item), Normalize(c), now);
    assert candidates == if x.Some? then [x.value] else [];
    if x.Some? {
      assert candidates[..|candidates| - 1] == [];
      assert StableSort(candidates, Outranks) == Insert(x.value, [], Outranks);
    }
  }

  function Repeat(e: Event, n: nat): seq<Event> {
    if n == 0 then [] else Repeat(e, n - 1) + [e]
  }

  /** `item` is announced as a warning whenever nothing holds it back. */
  predicate Warns(c: Config, item: Item) {
    && !item.warmup && item.volume >= Normalize(c).minVolume && KeyOf(item).Some?
    && SeverityOf(item, Normalize(c)) == Some(Warning) && CooldownSeconds(c) > 0
  }

  lemma WarnedAgain(c: Config, s: State, item: Item, t: int)
    requires Warns(c, item) && (KeyOf(item).value in s.states ==> s.states[KeyOf(item).value] == Sent(t, Warning))
    ensures var key := KeyOf(item).value;
      Next(c, s, Refresh(t, t, [Some(item)])) ==
        if t > 0 && key in s.states then s
        else State(s.states[key := Sent(t, Warning)], s.sent + [Alert(t, key, Warning)])
  {
    var key := KeyOf(item).value;
    EmittedOfOne(s.states, item, c, t);
    var emitted := Emitted(s.states, [Some(item)], c, t);
    if t <= 0 || key !in s.states {
      assert emitted == [Candidate(key, Warning, item.score, item.change1m, item.condition)];
      var none: seq<Candidate> := [];
      assert emitted[..|emitted| - 1] == none;
      assert Record(s.states, none, t) == s.states && Log(s.sent, none, t) == s.sent;
    }
  }

  /** The state after `n` refreshes that announce the same warning at time `t`. */
  ghost predicate Warned(s: State, key: string, t: int, n: nat) {
    && |s.sent| == (if t > 0 && n > 0 then 1 else n)
    && s.states == (if n == 0 then map[] else map[key := Sent(t, Warning)])
  }

  lemma WarnedStep(c: Config, s: State, item: Item, t: int, n: nat)
    requires Warns(c, item) && Warned(s, KeyOf(item).value, t, n)
    ensures Warned(Next(c, s, Refresh(t, t, [Some(item)])), KeyOf(item).value, t, n + 1)
  {
    WarnedAgain(c, s, item, t);
  }

  /** The same warning over and over at one time `t`: it is sent once, as promised, if and only if the
      clock is positive. */
  lemma {:induction false} RepeatedWarning(c: Config, item: Item, t: int, n: nat)
    requires Warns(c, item)
    ensures Warned(Run(c, Repeat(Refresh(t, t, [Some(item)]), n)), KeyOf(item).value, t, n)
  {
    if n > 0 {
      var e := Refresh(t, t, [Some(item)]);
      RepeatedWarning(c, item, t, n - 1);
      WarnedStep(c, Run(c, Repeat(e, n - 1)), item, t, n - 1);
      assert Repeat(e, n)[..|Repeat(e, n)| - 1] == Repeat(e, n - 1);
    }
  }

  lemma CandidateOfWarning(c: Config, item: Item, t: int)
    requires Warns(c, item)
    ensures CandidateOf(map[], Some(item), Normalize(c), t) ==
      Some(Candidate(KeyOf(item).value, Warning, item.score, item.change1m, item.condition))
  {
  }

  lemma CandidatesOfTwo(states: map<string, Sent>, a: Item, b: Item, c: Config, now: int)
    requires CandidateOf(states, Some(a), c, now).Some? && CandidateOf(states, Some(b), c, now).Some?
    ensures Candidates(states, [Some(a), Some(b)], c, now) ==
      [CandidateOf(states, Some(a), c, now).value, CandidateOf(states, Some(b), c, now).value]
  {
    var two, one := [Some(a), Some(b)], [Some(a)];
    var none: seq<Option<Item>> := [];
    assert two[..|two| - 1] == one && one[..|one| - 1] == none && Candidates(states, none, c, now) == [];
  }

  lemma BestOfTwo(x: Candidate, y: Candidate, n: nat)
    requires n >= 2
    ensures Best([x, y], n) == [x, y] || Best([x, y], n) == [y, x]
  {
    var one, two := [x], [x, y];
    var none: seq<Candidate> := [];
    assert two[..|two| - 1] == one && one[..|one| - 1] == none && one[1..] == none;
    assert StableSort(one, Outranks) == Insert(x, none, Outranks) == one;
    assert StableSort(two, Outranks) == Insert(y, one, Outranks);
    assert Insert(y, none, Outranks) == [y] && Insert(y, one, Outranks) == if Outranks(y, x) then [y, x] else [x, y];
  }

  lemma EmittedOfTwo(c: Config, a: Item, b: Item, t: int)
    requires Warns(c, a) && Warns(c, b) && KeyOf(a) == KeyOf(b) && MaxPerRefresh(c) >= 2
    ensures var emitted := Emitted(map[], [Some(a), Some(b)], c, t);
      |emitted| == 2 && forall i :: 0 <= i < 2 ==> emitted[i].key == KeyOf(a).value && emitted[i].severity == Warning
  {
    CandidateOfWarning(c, a, t);
    CandidateOfWarning(c, b, t);
    CandidatesOfTwo(map[], a, b, Normalize(c), t);
    var candidates := Candidates(map[], [Some(a), Some(b)], Normalize(c), t);
    BestOfTwo(candidates[0], candidates[1], MaxPerRefresh(c));
  }

  /** Two markets that share a key are both announced by one refresh: two warnings of one key at once. */
  lemma SharedKeyIsSentTwice(c: Config, a: Item, b: Item, t: int)
    requires Warns(c, a) && Warns(c, b) && KeyOf(a) == KeyOf(b) && MaxPerRefresh(c) >= 2
    ensures Run(c, [Refresh(t, t, [Some(a), Some(b)])]).sent ==
      [Alert(t, KeyOf(a).value, Warning), Alert(t, KeyOf(a).value, Warning)]
  {
    var e := Refresh(t, t, [Some(a), Some(b)]);
    var none: seq<Event> := [];
    assert [e][..0] == none && Run(c, none) == State(map[], []);
    EmittedOfTwo(c, a, b, t);
    LogOf([], Emitted(map[], e.items, c, t), t);
  }

  // ----- what was sent -----

  /** Alert `a` was announced by item `i` of refresh `n`, at the time of that refresh. */
  ghost predicate SentBy(c: Config, events: seq<Event>, a: Alert, x: Candidate, n: int, i: int) {
    && 0 <= n < |events| && a.at == (if events[n].now <= 0 then events[n].wall else events[n].now)
    && a.key == x.key && a.severity == x.severity
    && AnnouncedAt(Run(c, events[..n]).states, events[n].items, c, a.at, x, i)
  }

  lemma SentByLater(c: Config, events: seq<Event>, e: Event, a: Alert)
    requires exists x, n, i :: SentBy(c, events, a, x, n, i)
    ensures exists x, n, i :: SentBy(c, events + [e], a, x, n, i)
  {
    var x, n, i :| SentBy(c, events, a, x, n, i);
    assert (events + [e])[..n] == events[..n];
    assert SentBy(c, events + [e], a, x, n, i);
  }

  lemma SentNow(c: Config, events: seq<Event>, e: Event, k: nat)
    requires var s := Run(c, events); |s.sent| <= k < |Next(c, s, e).sent|
    ensures exists x, n, i :: SentBy(c, events + [e], Next(c, Run(c, events), e).sent[k], x, n, i)
  {
    var s, more := Run(c, events), events + [e];
    var emitted := Emitted(s.states, e.items, c, TimeOf(e));
    LogOf(s.sent, emitted, TimeOf(e));
    EmittedExactly(s.states, e.items, c, TimeOf(e));
    var x := emitted[k - |s.sent|];
    assert x in emitted;
    var i :| AnnouncedAt(s.states, e.items, c, TimeOf(e), x, i);
    assert more[..|events|] == events;
    assert SentBy(c, more, Next(c, s, e).sent[k], x, |events|, i);
  }

  /** Every alert ever sent goes back to a market move that was worth it at that time. */
  lemma {:induction false} AlertsAreAnnounced(c: Config, events: seq<Event>, k: nat)
    requires k < |Run(c, events).sent|
    ensures exists x, n, i :: SentBy(c, events, Run(c, events).sent[k], x, n, i)
  {
    var init, e := events[..|events| - 1], events[|events| - 1];
    var s := Run(c, init);
    assert events == init + [e];
    LogOf(s.sent, Emitted(s.states, e.items, c, TimeOf(e)), TimeOf(e));
    if k < |s.sent| {
      AlertsAreAnnounced(c, init, k);
      SentByLater(c, init, e, s.sent[k]);
    } else {
      SentNow(c, init, e, k);
    }
  }
}
