/** Divisibility facts behind round-robin selection. */
module Divisibility {

  function Gcd(a: nat, b: nat): (g: nat)
    requires a > 0 || b > 0
    ensures g > 0
    decreases b
  {
    if b == 0 then a else Gcd(b, a % b)
  }

  lemma DivMod(a: int, b: int) returns (q: int, r: nat)
    requires b > 0
    ensures q == a / b && r == a % b && a == b * q + r && r < b && (a >= 0 ==> q >= 0)
  {
    q, r := a / b, a % b;
  }

  lemma MultipleStep(a: int, b: int, g: int, q: nat, r: int, x: nat, y: nat) returns (z: nat)
    requires a == b * q + r && b == g * x && r == g * y
    ensures z == q * x + y && a == g * z
  {
    z := q * x + y;
    assert b * q == g * (q * x) by {
      assert (g * x) * q == g * (q * x);
    }
    assert g * (q * x + y) == g * (q * x) + g * y;
  }

  lemma CombinationStep(a: int, b: int, g: int, q: int, r: int, u: int, v: int)
    requires a == b * q + r && b * u + r * v == g
    ensures a * v + b * (u - q * v) == g
  {
    assert a * v == b * q * v + r * v;
    assert b * (u - q * v) == b * u - b * (q * v);
    assert b * q * v == b * (q * v);
  }

  /** The greatest common divisor divides both and is an integer combination of both. */
  lemma {:induction false} GcdFacts(a: nat, b: nat) returns (x: nat, y: nat, u: int, v: int)
    requires a > 0 || b > 0
    ensures var g := Gcd(a, b); a == g * x && b == g * y && a * u + b * v == g
    decreases b
  {
    if b == 0 {
      x, y, u, v := 1, 0, 1, 0;
    } else {
      var g := Gcd(a, b);
      var q, r := DivMod(a, b);
      var x', y', u', v' := GcdFacts(b, r);
      x := MultipleStep(a, b, g, q, r, x', y');
      CombinationStep(a, b, g, q, r, u', v');
      y, u, v := x', v', u' - q * v';
    }
  }

  /** The least common multiple. */
  function Lcm(a: nat, b: nat): nat
    requires a > 0 && b > 0
  {
    a / Gcd(a, b) * b
  }

  lemma AtLeast(g: int, k: int)
    requires g > 0
    ensures k >= 1 ==> g * k >= g
    ensures k <= -1 ==> g * k <= -g
  {
    if k >= 1 {
      assert g * k == g + g * (k - 1);
    } else if k <= -1 {
      assert g * k == -g + g * (k + 1);
    }
  }

  /** Quotient and remainder are determined. */
  lemma DivUnique(a: int, g: int, x: int, r: int)
    requires g > 0 && 0 <= r < g && a == g * x + r
    ensures a / g == x && a % g == r
  {
    var q, s := a / g, a % g;
    assert a == g * q + s;
    assert g * (x - q) == g * x - g * q;
    AtLeast(g, x - q);
  }

  /** lcm == x * b == a * y, where a == g * x and b == g * y. */
  lemma LcmFacts(a: nat, b: nat, x: nat, y: nat)
    requires a > 0 && b > 0 && a == Gcd(a, b) * x && b == Gcd(a, b) * y
    ensures Lcm(a, b) == b * x == a * y && Lcm(a, b) > 0
  {
    var g := Gcd(a, b);
    DivUnique(a, g, x, 0);
    assert x * b == a * y by {
      assert x * (g * y) == (g * x) * y;
    }
    assert x > 0 && b > 0;
    Positive(x, b);
  }

  lemma Positive(x: int, y: int)
    requires x > 0 && y > 0
    ensures x * y > 0
  {
  }

  lemma Regroup(a: int, b: int, c: int, d: int)
    ensures (a * b) * (c * d) == (a * c) * (b * d)
  {
    assert (a * b) * (c * d) == a * (b * (c * d));
    assert b * (c * d) == c * (b * d);
    assert a * (c * (b * d)) == (a * c) * (b * d);
  }

  lemma Combine(a: int, b: int, g: int, u: int, v: int, d: int, k: int, m: int)
    requires a * u + b * v == g && d == a * k && d == b * m
    ensures g * d == (a * b) * (u * m + v * k)
  {
    assert g * d == (a * u) * d + (b * v) * d;
    Regroup(a, u, b, m);
    Regroup(b, v, a, k);
    assert (a * b) * (u * m + v * k) == (a * b) * (u * m) + (a * b) * (v * k);
    assert b * a == a * b;
  }

  /** What two divisors divide, their least common multiple divides. */
  lemma LcmDivides(a: nat, b: nat, d: int, k: int, m: int) returns (n: int)
    requires a > 0 && b > 0 && d == a * k && d == b * m
    ensures d == Lcm(a, b) * n
  {
    var x, y, u, v := GcdFacts(a, b);
    LcmFacts(a, b, x, y);
    var g, l := Gcd(a, b), Lcm(a, b);
    n := u * m + v * k;
    Combine(a, b, g, u, v, d, k, m);
    GroupLeft(g, x, b, l, n, a);
    Cancel(g, d, l * n);
  }

  lemma GroupLeft(g: int, x: int, b: int, l: int, n: int, a: int)
    requires a == g * x && l == b * x
    ensures (a * b) * n == g * (l * n)
  {
    assert (g * x) * b == g * (x * b);
    assert (g * l) * n == g * (l * n);
  }

  lemma Cancel(g: int, a: int, b: int)
    requires g > 0 && g * a == g * b
    ensures a == b
  {
    assert g * (a - b) == g * a - g * b;
    AtLeast(g, a - b);
  }

  /** Adding a multiple keeps the remainder. */
  lemma ShiftRemainder(x: int, m: int, k: int)
    requires m > 0
    ensures (x + m * k) % m == x % m
  {
    var q, r := x / m, x % m;
    assert x == m * q + r;
    assert m * (q + k) == m * q + m * k;
    DivUnique(x + m * k, m, q + k, r);
  }

  /** Numbers with one remainder differ by a multiple. */
  lemma SameRemainder(x: int, y: int, m: int) returns (k: int)
    requires m > 0 && x % m == y % m
    ensures x - y == m * k
  {
    k := x / m - y / m;
    assert x == m * (x / m) + x % m && y == m * (y / m) + y % m;
    assert m * k == m * (x / m) - m * (y / m);
  }

  lemma ShiftMultiple(x: int, a: int, l: int, t: int, n: int)
    requires a > 0 && l == a * t
    ensures (x + l * n) % a == x % a
  {
    assert (a * t) * n == a * (t * n);
    ShiftRemainder(x, a, t * n);
  }

  lemma NestedRemainder(x: int, a: int, g: int, s: int)
    requires a > 0 && g > 0 && a == g * s
    ensures x % a % g == x % g
  {
    var q, r := x / a, x % a;
    assert x == r + a * q;
    ShiftMultiple(r, g, a, s, q);
  }

  /** Remainders of one number agree modulo the greatest common divisor. */
  lemma RemaindersAgree(a: nat, b: nat, x: int)
    requires a > 0 && b > 0
    ensures x % a % Gcd(a, b) == x % b % Gcd(a, b)
  {
    var s, t, u, v := GcdFacts(a, b);
    NestedRemainder(x, a, Gcd(a, b), s);
    NestedRemainder(x, b, Gcd(a, b), t);
  }

  lemma MeetAlgebra(a: int, b: int, g: int, u: int, v: int, i: int, j: int, e: int)
    requires a * u + b * v == g && j - i == g * e
    ensures i + a * (u * e) == j + b * (-(v * e))
  {
    assert g * e == (a * u) * e + (b * v) * e;
    assert (a * u) * e == a * (u * e);
    assert (b * v) * e == b * (v * e);
    assert b * (-(v * e)) == -(b * (v * e));
  }

  /** Remainders that agree modulo the greatest common divisor are the remainders of some number. */
  lemma Meet(a: nat, b: nat, i: nat, j: nat) returns (x: int)
    requires i < a && j < b && i % Gcd(a, b) == j % Gcd(a, b)
    ensures x % a == i && x % b == j
  {
    var s, t, u, v := GcdFacts(a, b);
    var e := SameRemainder(j, i, Gcd(a, b));
    MeetAlgebra(a, b, Gcd(a, b), u, v, i, j, e);
    x := i + a * (u * e);
    DivUnique(x, a, u * e, i);
    DivUnique(x, b, -(v * e), j);
  }

  /** Any number has a representative with the same remainders in every window of one common multiple. */
  lemma IntoWindow(a: nat, b: nat, x: int, c: int) returns (z: int)
    requires a > 0 && b > 0
    ensures Lcm(a, b) > 0 && c <= z < c + Lcm(a, b) && z % a == x % a && z % b == x % b
  {
    var s, t, u, v := GcdFacts(a, b);
    LcmFacts(a, b, s, t);
    var l := Lcm(a, b);
    var q, r := DivMod(x - c, l);
    z := c + r;
    assert l * (-q) == -(l * q);
    assert z == x + l * (-q);
    ShiftMultiple(x, a, l, t, -q);
    ShiftMultiple(x, b, l, s, -q);
  }

  /** A window of one common multiple holds at most one number with given remainders. */
  lemma AtMostOneInWindow(a: nat, b: nat, x: int, y: int, c: int)
    requires a > 0 && b > 0 && c <= x < c + Lcm(a, b) && c <= y < c + Lcm(a, b)
    requires x % a == y % a && x % b == y % b
    ensures x == y
  {
    var k := SameRemainder(x, y, a);
    var m := SameRemainder(x, y, b);
    var n := LcmDivides(a, b, x - y, k, m);
    AtLeast(Lcm(a, b), n);
  }
}

/** internal/etherscanmanager/manager.go: round-robin choice of API key and gateway by one shared counter. */
module RoundRobin {
  import opened Prelude
  import opened Text
  import opened Divisibility

  const TWO_TO_64 := 0x1_0000_0000_0000_0000

  /** The counter after `k` selections. */
  function Counter(start: nat, k: nat): nat {
    if k == 0 then start else (Counter(start, k - 1) + 1) % TWO_TO_64
  }

  lemma {:induction false} CounterBeforeWrap(start: nat, k: nat)
    requires start + k < TWO_TO_64
    ensures Counter(start, k) == start + k
  {
    if k > 0 {
      CounterBeforeWrap(start, k - 1);
    }
  }

  // ----- how often an entry is used -----

  function Count(n: nat, p: nat -> bool): nat {
    if n == 0 then 0 else Count(n - 1, p) + if p(n - 1) then 1 else 0
  }

  /** Selection `k` after `start` chooses entry `r` of a list of `size`. */
  predicate Picks(start: nat, size: nat, r: nat, k: nat)
    requires size > 0
  {
    Counter(start, k) % size == r
  }

  /** How often entry `r` of a list of `size` is chosen by `n` selections in a row. */
  function Uses(start: nat, n: nat, size: nat, r: nat): nat
    requires size > 0
  {
    Count(n, (k: nat) => Picks(start, size, r, k))
  }

  /** How many of the numbers below `m` have remainder `r`. */
  function Below(m: nat, size: nat, r: nat): nat
    requires size > 0
  {
    m / size + if m % size > r then 1 else 0
  }

  lemma BelowNext(m: nat, size: nat, r: nat)
    requires r < size
    ensures Below(m + 1, size, r) == Below(m, size, r) + if m % size == r then 1 else 0
  {
    var q, t := m / size, m % size;
    assert m == size * q + t;
    if t + 1 < size {
      DivUnique(m + 1, size, q, t + 1);
    } else {
      assert size * (q + 1) == size * q + size;
      DivUnique(m + 1, size, q + 1, 0);
    }
  }

  lemma {:induction false} UsesAreBelow(start: nat, n: nat, size: nat, r: nat)
    requires r < size && start + n <= TWO_TO_64
    ensures Uses(start, n, size, r) + Below(start, size, r) == Below(start + n, size, r)
  {
    if n > 0 {
      UsesAreBelow(start, n - 1, size, r);
      CounterBeforeWrap(start, n - 1);
      BelowNext(start + n - 1, size, r);
      assert Uses(start, n, size, r) == Uses(start, n - 1, size, r) + if Picks(start, size, r, n - 1) then 1 else 0;
    }
  }

  /** Quotients and remainders of a sum. */
  lemma SumDivMod(x: nat, n: nat, m: nat)
    requires m > 0
    ensures var carry := if x % m + n % m < m then 0 else 1;
      (x + n) / m == x / m + n / m + carry && (x + n) % m == x % m + n % m - m * carry
  {
    var a, b := DivMod(x, m);
    var p, s := DivMod(n, m);
    assert m * (a + p) == m * a + m * p;
    if b + s < m {
      DivUnique(x + n, m, a + p, b + s);
    } else {
      assert m * (a + p + 1) == m * (a + p) + m;
      DivUnique(x + n, m, a + p + 1, b + s - m);
    }
  }

  /** Every entry is used the rounded-down or the rounded-up number of times. */
  lemma UsedEvenly(start: nat, n: nat, size: nat, r: nat)
    requires r < size && start + n <= TWO_TO_64
    ensures n / size <= Uses(start, n, size, r) <= n / size + if n % size == 0 then 0 else 1
  {
    UsesAreBelow(start, n, size, r);
    SumDivMod(start, n, size);
    var a, b := DivMod(start, size);
    var p, s := DivMod(n, size);
    var q, t := DivMod(start + n, size);
  }

  /** `uses` is `n / size`, rounded down or up. */
  predicate Even(uses: nat, n: nat, size: nat)
    requires size > 0
  {
    n / size <= uses <= n / size + if n % size == 0 then 0 else 1
  }

  lemma AllEven(start: nat, n: nat, size: nat)
    requires size > 0 && start + n <= 0x1_0000_0000_0000_0000
    ensures forall r :: 0 <= r < size ==> Even(Uses(start, n, size, r), n, size)
  {
    forall r | 0 <= r < size ensures Even(Uses(start, n, size, r), n, size) {
      UsedEvenly(start, n, size, r);
    }
  }

  // ----- which pairs are used -----

  predicate PicksPair(start: nat, keys: nat, gateways: nat, i: nat, j: nat, k: nat)
    requires keys > 0 && gateways > 0
  {
    Picks(start, keys, i, k) && Picks(start, gateways, j, k)
  }

  function PairUses(start: nat, n: nat, keys: nat, gateways: nat, i: nat, j: nat): nat
    requires keys > 0 && gateways > 0
  {
    Count(n, (k: nat) => PicksPair(start, keys, gateways, i, j, k))
  }

  lemma {:induction false} CountNone(n: nat, p: nat -> bool)
    requires forall k :: 0 <= k < n ==> !p(k)
    ensures Count(n, p) == 0
  {
    if n > 0 {
      CountNone(n - 1, p);
    }
  }

  lemma {:induction false} CountOne(n: nat, p: nat -> bool, x: nat)
    requires x < n && p(x) && forall k :: 0 <= k < n && p(k) ==> k == x
    ensures Count(n, p) == 1
  {
    if x == n - 1 {
      CountNone(n - 1, p);
    } else {
      CountOne(n - 1, p, x);
    }
  }

  lemma PicksBeforeWrap(start: nat, size: nat, r: nat, k: nat)
    requires size > 0 && start + k < TWO_TO_64
    ensures Picks(start, size, r, k) <==> (start + k) % size == r
  {
    CounterBeforeWrap(start, k);
  }

  lemma PairMeets(start: nat, keys: nat, gateways: nat, i: nat, j: nat) returns (k: nat)
    requires i < keys && j < gateways && start + Lcm(keys, gateways) <= TWO_TO_64
    requires i % Gcd(keys, gateways) == j % Gcd(keys, gateways)
    ensures k < Lcm(keys, gateways) && PicksPair(start, keys, gateways, i, j, k)
  {
    var x := Meet(keys, gateways, i, j);
    var z := IntoWindow(keys, gateways, x, start);
    k := z - start;
    PicksBeforeWrap(start, keys, i, k);
    PicksBeforeWrap(start, gateways, j, k);
  }

  lemma PairIsUnique(start: nat, keys: nat, gateways: nat, i: nat, j: nat, k: nat, m: nat)
    requires i < keys && j < gateways && k < Lcm(keys, gateways) && m < Lcm(keys, gateways)
    requires start + Lcm(keys, gateways) <= TWO_TO_64
    requires PicksPair(start, keys, gateways, i, j, k) && PicksPair(start, keys, gateways, i, j, m)
    ensures k == m
  {
    PicksBeforeWrap(start, keys, i, k);
    PicksBeforeWrap(start, gateways, j, k);
    PicksBeforeWrap(start, keys, i, m);
    PicksBeforeWrap(start, gateways, j, m);
    AtMostOneInWindow(keys, gateways, start + k, start + m, start);
  }

  lemma PairAgrees(start: nat, keys: nat, gateways: nat, i: nat, j: nat, k: nat)
    requires i < keys && j < gateways && start + k < TWO_TO_64 && PicksPair(start, keys, gateways, i, j, k)
    ensures i % Gcd(keys, gateways) == j % Gcd(keys, gateways)
  {
    PicksBeforeWrap(start, keys, i, k);
    PicksBeforeWrap(start, gateways, j, k);
    RemaindersAgree(keys, gateways, start + k);
  }

  /** A full round of selections uses exactly the pairs whose indices agree modulo the greatest common
      divisor of the list lengths, each once. */
  lemma RoundUsesEachPairOnce(start: nat, keys: nat, gateways: nat, i: nat, j: nat)
    requires i < keys && j < gateways && start + Lcm(keys, gateways) <= 0x1_0000_0000_0000_0000
    ensures PairUses(start, Lcm(keys, gateways), keys, gateways, i, j) ==
      if i % Gcd(keys, gateways) == j % Gcd(keys, gateways) then 1 else 0
  {
    var n := Lcm(keys, gateways);
    var p := (k: nat) => PicksPair(start, keys, gateways, i, j, k);
    if i % Gcd(keys, gateways) == j % Gcd(keys, gateways) {
      var x := PairMeets(start, keys, gateways, i, j);
      forall k: nat | k < n && p(k) ensures k == x {
        PairIsUnique(start, keys, gateways, i, j, k, x);
      }
      CountOne(n, p, x);
    } else {
      forall k: nat | k < n ensures !p(k) {
        if p(k) {
          PairAgrees(start, keys, gateways, i, j, k);
        }
      }
      CountNone(n, p);
    }
  }

  // ----- the manager -----

  /** `calls` counts the selections made so far. */
  class Manager {
    const apiKeys: seq<string>
    const clients: seq<string>
    var next: nat
    ghost var calls: nat

    ghost predicate Valid()
      reads this
    {
      next == Counter(0, calls)
    }

    constructor (apiKeys: seq<string>, clients: seq<string>)
      ensures this.apiKeys == apiKeys && this.clients == clients && calls == 0 && Valid()
    {
      this.apiKeys, this.clients, next, calls := apiKeys, clients, 0, 0;
    }

    /** nextGatewayClient; None is the error of a manager without keys or gateways. Over the manager's whole
        life, as long as the counter has not wrapped around, every key and every gateway has been chosen the
        rounded-down or the rounded-up number of times. */
    method NextGatewayClient() returns (r: Option<(string, string)>)
      requires Valid()
      modifies this
      ensures Valid()
      ensures r.None? <==> apiKeys == [] || clients == []
      ensures calls == if r.None? then old(calls) else old(calls) + 1
      ensures r.Some? ==> exists i, j ::
        && 0 <= i < |apiKeys| && 0 <= j < |clients| && r.value == (apiKeys[i], clients[j])
        && Picks(0, |apiKeys|, i, old(calls)) && Picks(0, |clients|, j, old(calls))
      ensures r.Some? && calls <= 0x1_0000_0000_0000_0000 ==>
        forall i :: 0 <= i < |apiKeys| ==> Even(Uses(0, calls, |apiKeys|, i), calls, |apiKeys|)
      ensures r.Some? && calls <= 0x1_0000_0000_0000_0000 ==>
        forall j :: 0 <= j < |clients| ==> Even(Uses(0, calls, |clients|, j), calls, |clients|)
    {
      if |apiKeys| == 0 || |clients| == 0 {
        return None;
      }
      var index := next;
      next := (next + 1) % TWO_TO_64;
      calls := calls + 1;
      var i, j := index % |apiKeys|, index % |clients|;
      r := Some((apiKeys[i], clients[j]));
      assert Picks(0, |apiKeys|, i, old(calls)) && Picks(0, |clients|, j, old(calls));
      if calls <= TWO_TO_64 {
        AllEven(0, calls, |apiKeys|);
        AllEven(0, calls, |clients|);
      }
    }
  }

  // ----- the lists -----

  predicate FirstAt(values: seq<string>, k: nat)
    requires k < |values|
  {
    TrimSpace(values[k]) != "" && forall j :: 0 <= j < k ==> TrimSpace(values[j]) != TrimSpace(values[k])
  }

  /** The first occurrence of every nonblank value, trimmed. */
  function Firsts(values: seq<string>, n: nat): seq<string>
    requires n <= |values|
  {
    if n == 0 then []
    else if FirstAt(values, n - 1) then Firsts(values, n - 1) + [TrimSpace(values[n - 1])]
    else Firsts(values, n - 1)
  }

  lemma {:induction false} FirstsHave(values: seq<string>, n: nat, value: string)
    requires n <= |values|
    ensures value in Firsts(values, n) <==> value != "" && exists k :: 0 <= k < n && TrimSpace(values[k]) == value
    ensures forall i, j :: 0 <= i < j < |Firsts(values, n)| ==> Firsts(values, n)[i] != Firsts(values, n)[j]
  {
    if n > 0 {
      FirstsHave(values, n - 1, value);
      FirstsHave(values, n - 1, TrimSpace(values[n - 1]));
    }
  }

  /** normalizeStringList: distinct, nonblank, trimmed, in the order of first occurrence. */
  method NormalizeStringList(values: seq<string>) returns (normalized: seq<string>)
    ensures normalized == Firsts(values, |values|)
  {
    normalized := [];
    var seen: set<string> := {};
    for i := 0 to |values|
      invariant normalized == Firsts(values, i) && seen == set v | v in normalized
    {
      var value := TrimSpace(values[i]);
      FirstsHave(values, i, value);
      if value == "" || value in seen {
        continue;
      }
      seen := seen + {value};
      normalized := normalized + [value];
    }
  }
}
