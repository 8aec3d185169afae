/** internal/bscswap/scanner.go: from swap logs to one row per transaction. Logs are deduplicated by
    transaction hash in a map, the map is iterated in an arbitrary order and sorted by an unstable
    sort, and the outcome depends on none of that. */
module SwapScanner {
  import opened Prelude
  import opened Sorting

  type Hash = nat

  const NO_HASH: Hash := 0
  const V2_SWAP_TOPIC: Hash := 0xd78ad95fa46c994b6551d0da85fc275fe613ce37657fb8d5e3d130840159d822

  datatype Log = Log(removed: bool, number: nat, blockHash: Hash, txHash: Hash, txIndex: nat, topics: seq<Hash>)
  datatype Candidate = Candidate(number: nat, blockHash: Hash, txHash: Hash, txIndex: nat)
  datatype Tx = Tx(hash: Hash, sender: Option<nat>)
  datatype Block = Block(number: nat, hash: Hash, time: nat, txs: seq<Tx>)
  datatype Row = Row(txHash: Hash, number: nat, blockHash: Hash, time: nat, txIndex: nat, from: nat)

  function CandidateOf(log: Log): Candidate {
    Candidate(log.number, log.blockHash, log.txHash, log.txIndex)
  }

  predicate Acceptable(log: Log, start: nat, end: nat) {
    && !log.removed && start <= log.number <= end
    && log.topics != [] && log.topics[0] == V2_SWAP_TOPIC && log.blockHash != NO_HASH && log.txHash != NO_HASH
  }

  /** An acceptable log is one of a V2 swap in the range, with nonzero hashes, that no reorganisation took back. */
  lemma AcceptableIff(log: Log, start: nat, end: nat)
    ensures Acceptable(log, start, end) <==>
      && start <= log.number <= end && !log.removed && log.blockHash > 0 && log.txHash > 0
      && [0xd78ad95fa46c994b6551d0da85fc275fe613ce37657fb8d5e3d130840159d822] <= log.topics
  {
  }

  /** Every log is acceptable, and logs of one transaction agree on its position. */
  ghost predicate Collectable(logs: seq<Log>, start: nat, end: nat) {
    && (forall k :: 0 <= k < |logs| ==> Acceptable(logs[k], start, end))
    && (forall i, j :: 0 <= i < |logs| && 0 <= j < |logs| && logs[i].txHash == logs[j].txHash ==>
          CandidateOf(logs[i]) == CandidateOf(logs[j]))
  }

  predicate Earlier(x: Candidate, y: Candidate) {
    if x.number == y.number then x.txIndex < y.txIndex else x.number < y.number
  }

  /** Some log is of this candidate. */
  ghost predicate Comes(c: Candidate, logs: seq<Log>) {
    exists i :: 0 <= i < |logs| && c == CandidateOf(logs[i])
  }

  /** `candidates` lists each transaction of `logs` once, by position; equal positions in any order. */
  ghost predicate ListsOnce(candidates: seq<Candidate>, logs: seq<Log>) {
    && (forall k :: 0 <= k < |candidates| ==> Comes(candidates[k], logs))
    && (forall i :: 0 <= i < |logs| ==> CandidateOf(logs[i]) in candidates)
    && (forall i, j :: 0 <= i < j < |candidates| ==> candidates[i].txHash != candidates[j].txHash)
    && Sorted(candidates, Earlier)
  }

  ghost predicate Numbers(numbers: seq<nat>, logs: seq<Log>) {
    && (forall n :: n in numbers <==> exists i :: 0 <= i < |logs| && logs[i].number == n)
    && (forall i, j :: 0 <= i < j < |numbers| ==> numbers[i] < numbers[j])
  }

  /** First loop of collectCandidates: the map by hash and the set of block numbers. */
  method GroupByHash(logs: seq<Log>, start: nat, end: nat)
    returns (ok: bool, byHash: map<Hash, Candidate>, numbers: set<nat>)
    ensures ok <==> Collectable(logs, start, end)
    ensures ok ==>
      forall k :: 0 <= k < |logs| ==> logs[k].txHash in byHash && byHash[logs[k].txHash] == CandidateOf(logs[k])
    ensures ok ==> (forall h :: h in byHash ==> byHash[h].txHash == h && Comes(byHash[h], logs))
    ensures ok ==> (forall n :: n in numbers <==> exists k :: 0 <= k < |logs| && logs[k].number == n)
  {
    byHash, numbers := map[], {};
    ghost var origin: map<Hash, int> := map[];
    ghost var block: map<nat, int> := map[];
    for n := 0 to |logs|
      invariant forall k :: 0 <= k < n ==> Acceptable(logs[k], start, end)
      invariant forall k :: 0 <= k < n ==> logs[k].txHash in byHash && byHash[logs[k].txHash] == CandidateOf(logs[k])
      invariant forall h :: h in byHash ==>
        h in origin && 0 <= origin[h] < n && byHash[h] == CandidateOf(logs[origin[h]]) && byHash[h].txHash == h
      invariant forall k :: 0 <= k < n ==> logs[k].number in numbers
      invariant forall m :: m in numbers ==> m in block && 0 <= block[m] < n && logs[block[m]].number == m
    {
      var log := logs[n];
      if log.removed || log.number < start || log.number > end || log.topics == [] || log.topics[0] != V2_SWAP_TOPIC
         || log.blockHash == NO_HASH || log.txHash == NO_HASH
      {
        assert !Acceptable(logs[n], start, end);
        return false, byHash, numbers;
      }
      var candidate := CandidateOf(log);
      if log.txHash in byHash {
        assert logs[origin[log.txHash]].txHash == logs[n].txHash;
        if byHash[log.txHash] != candidate {
          return false, byHash, numbers;
        }
        assert logs[origin[log.txHash]].number in numbers;
      } else {
        byHash := byHash[log.txHash := candidate];
        numbers := numbers + {log.number};
        origin, block := origin[log.txHash := n], block[log.number := n];
      }
    }
    ok := true;
  }

  lemma EarlierIsOrder()
    ensures StrictWeakOrder(Earlier)
  {
  }

  /** Map iteration: the values in some order. */
  method MapValues(byHash: map<Hash, Candidate>) returns (values: seq<Candidate>)
    requires forall h :: h in byHash ==> byHash[h].txHash == h
    ensures forall c :: c in values <==> c.txHash in byHash && byHash[c.txHash] == c
    ensures forall i, j :: 0 <= i < j < |values| ==> values[i].txHash != values[j].txHash
  {
    values := [];
    var left := byHash.Keys;
    while left != {}
      invariant left <= byHash.Keys
      invariant forall c :: c in values <==> c.txHash in byHash && c.txHash !in left && byHash[c.txHash] == c
      invariant forall i, j :: 0 <= i < j < |values| ==> values[i].txHash != values[j].txHash
    {
      var h :| h in left;
      assert forall i :: 0 <= i < |values| ==> values[i] in values;
      values := values + [byHash[h]];
      left := left - {h};
    }
  }

  predicate Below(x: nat, y: nat) {
    x < y
  }

  /** Set iteration and sorting of the block numbers. */
  method SortNumbers(numbers: set<nat>) returns (sorted: seq<nat>)
    ensures forall n :: n in sorted <==> n in numbers
    ensures forall i, j :: 0 <= i < j < |sorted| ==> sorted[i] < sorted[j]
  {
    var left := numbers;
    var listed: seq<nat> := [];
    while left != {}
      invariant left <= numbers
      invariant forall n :: n in listed <==> n in numbers && n !in left
      invariant forall i, j :: 0 <= i < j < |listed| ==> listed[i] != listed[j]
    {
      var n :| n in left;
      assert forall i :: 0 <= i < |listed| ==> listed[i] in listed;
      listed := listed + [n];
      left := left - {n};
    }
    sorted := StableSort(listed, Below);
    SortPermutes(listed, Below);
    SameMembers(listed, sorted);
    SortSorts(listed, Below);
    DistinctPermutation(listed, sorted);
    assert forall i, j :: 0 <= i < j < |sorted| ==> !Below(sorted[j], sorted[i]) && sorted[i] != sorted[j];
  }

  /** A permutation of distinct elements has distinct elements. */
  lemma DistinctPermutation<T>(xs: seq<T>, ys: seq<T>)
    requires multiset(xs) == multiset(ys)
    requires forall i, j :: 0 <= i < j < |xs| ==> xs[i] != xs[j]
    ensures forall i, j :: 0 <= i < j < |ys| ==> ys[i] != ys[j]
  {
    forall i, j | 0 <= i < j < |ys| ensures ys[i] != ys[j] {
      if ys[i] == ys[j] {
        var y := ys[i];
        assert ys == ys[..i] + [y] + ys[i + 1..j] + [y] + ys[j + 1..];
        assert multiset(ys)[y] >= 2;
        CountOne(xs, y);
      }
    }
  }

  lemma {:induction false} CountOne<T>(xs: seq<T>, x: T)
    requires forall i, j :: 0 <= i < j < |xs| ==> xs[i] != xs[j]
    ensures multiset(xs)[x] <= 1
  {
    if xs != [] {
      var init, last := xs[..|xs| - 1], xs[|xs| - 1];
      CountOne(init, x);
      assert xs == init + [last];
      if x == last {
        assert x !in init;
      }
    }
  }

  method CollectCandidates(logs: seq<Log>, start: nat, end: nat) returns (r: Option<(seq<Candidate>, seq<nat>)>)
    ensures r.Some? <==> Collectable(logs, start, end)
    ensures r.Some? ==> ListsOnce(r.value.0, logs) && Numbers(r.value.1, logs)
  {
    var ok, byHash, numbers := GroupByHash(logs, start, end);
    if !ok {
      return None;
    }
    var values := MapValues(byHash);
    var candidates := StableSort(values, Earlier);
    EarlierIsOrder();
    SortPermutes(values, Earlier);
    SortSorts(values, Earlier);
    assert ListsOnce(candidates, logs) by { SortedListsOnce(values, candidates, logs); }
    var sorted := SortNumbers(numbers);
    return Some((candidates, sorted));
  }

  lemma SortedListsOnce(values: seq<Candidate>, candidates: seq<Candidate>, logs: seq<Log>)
    requires multiset(candidates) == multiset(values) && Sorted(candidates, Earlier)
    requires forall i, j :: 0 <= i < j < |values| ==> values[i].txHash != values[j].txHash
    requires forall c :: c in values ==> Comes(c, logs)
    requires forall i :: 0 <= i < |logs| ==> CandidateOf(logs[i]) in values
    ensures ListsOnce(candidates, logs)
  {
    SameMembers(values, candidates);
    DistinctPermutation(values, candidates);
    forall k | 0 <= k < |candidates| ensures Comes(candidates[k], logs) {
      assert candidates[k] in values;
    }
    forall i | 0 <= i < |logs| ensures CandidateOf(logs[i]) in candidates {
      assert CandidateOf(logs[i]) in values;
    }
    forall i, j | 0 <= i < j < |candidates| ensures candidates[i].txHash != candidates[j].txHash {
      assert candidates[i] in values && candidates[j] in values;
    }
  }

  // ----- matching candidates against the fetched blocks -----

  /** The block holds the candidate's transaction at the candidate's position, with a sender. */
  predicate Matches(c: Candidate, blocks: map<nat, Block>) {
    && c.number in blocks && blocks[c.number].hash == c.blockHash && c.txIndex < |blocks[c.number].txs|
    && blocks[c.number].txs[c.txIndex].hash == c.txHash && blocks[c.number].txs[c.txIndex].sender.Some?
  }

  function RowOf(c: Candidate, blocks: map<nat, Block>): Row
    requires Matches(c, blocks)
  {
    var block := blocks[c.number];
    Row(block.txs[c.txIndex].hash, block.number, block.hash, block.time, c.txIndex, block.txs[c.txIndex].sender.value)
  }

  ghost predicate AllMatch(candidates: seq<Candidate>, blocks: map<nat, Block>) {
    forall k :: 0 <= k < |candidates| ==> Matches(candidates[k], blocks)
  }

  /** `rows` are the rows of `candidates`, in their order. */
  ghost predicate RowsOf(rows: seq<Row>, candidates: seq<Candidate>, blocks: map<nat, Block>)
    requires AllMatch(candidates, blocks)
  {
    |rows| == |candidates| && forall k :: 0 <= k < |rows| ==> rows[k] == RowOf(candidates[k], blocks)
  }

  method SwapTransactions(candidates: seq<Candidate>, blocks: map<nat, Block>) returns (r: Option<seq<Row>>)
    ensures r.Some? <==> AllMatch(candidates, blocks)
    ensures r.Some? ==> RowsOf(r.value, candidates, blocks)
  {
    var rows: seq<Row> := [];
    for k := 0 to |candidates|
      invariant AllMatch(candidates[..k], blocks) && RowsOf(rows, candidates[..k], blocks)
    {
      var c := candidates[k];
      if c.number !in blocks {
        assert !Matches(candidates[k], blocks);
        return None;
      }
      var block := blocks[c.number];
      if block.hash != c.blockHash || c.txIndex >= |block.txs| || block.txs[c.txIndex].hash != c.txHash
        || block.txs[c.txIndex].sender.None? {
        assert !Matches(candidates[k], blocks);
        return None;
      }
      var tx := block.txs[c.txIndex];
      rows := rows + [Row(tx.hash, block.number, block.hash, block.time, c.txIndex, tx.sender.value)];
    }
    assert candidates[..|candidates|] == candidates;
    return Some(rows);
  }

  // ----- independence of every order -----

  /** Two different transactions cannot both be found at one position, so matching candidates are
      strictly ascending. */
  lemma MatchingIsStrict(candidates: seq<Candidate>, logs: seq<Log>, blocks: map<nat, Block>)
    requires ListsOnce(candidates, logs) && AllMatch(candidates, blocks)
    ensures Strict(candidates)
  {
    forall i, j | 0 <= i < j < |candidates| ensures Earlier(candidates[i], candidates[j]) {
      assert !Earlier(candidates[j], candidates[i]) && candidates[i].txHash != candidates[j].txHash;
      assert Matches(candidates[i], blocks) && Matches(candidates[j], blocks);
    }
  }

  ghost predicate Strict(xs: seq<Candidate>) {
    forall i, j :: 0 <= i < j < |xs| ==> Earlier(xs[i], xs[j])
  }

  /** The members of a strictly ascending list without its last element. */
  lemma MembersOfInit(xs: seq<Candidate>, c: Candidate)
    requires Strict(xs) && xs != []
    ensures c in xs[..|xs| - 1] <==> c in xs && c != xs[|xs| - 1]
  {
    if c in xs[..|xs| - 1] {
      var i :| 0 <= i < |xs| - 1 && xs[i] == c;
      assert Earlier(xs[i], xs[|xs| - 1]);
    }
  }

  lemma HasMember(xs: seq<Candidate>)
    requires xs != []
    ensures exists c :: c in xs
  {
    assert xs[0] in xs;
  }

  lemma LastIsLatest(xs: seq<Candidate>, c: Candidate)
    requires Strict(xs) && c in xs
    ensures c == xs[|xs| - 1] || Earlier(c, xs[|xs| - 1])
  {
    var i :| 0 <= i < |xs| && xs[i] == c;
  }

  /** Two strictly ascending lists with the same members are the same list. */
  lemma {:induction false} AscendingUnique(xs: seq<Candidate>, ys: seq<Candidate>)
    requires Strict(xs) && Strict(ys) && forall c :: c in xs <==> c in ys
    ensures xs == ys
  {
    if xs == [] {
      if ys != [] {
        HasMember(ys);
      }
    } else if ys == [] {
      HasMember(xs);
    } else {
      var x, y := xs[|xs| - 1], ys[|ys| - 1];
      LastIsLatest(xs, y);
      LastIsLatest(ys, x);
      assert x == y;
      var xs', ys' := xs[..|xs| - 1], ys[..|ys| - 1];
      forall c ensures c in xs' <==> c in ys' {
        MembersOfInit(xs, c);
        MembersOfInit(ys, c);
      }
      AscendingUnique(xs', ys');
      assert xs == xs' + [x] && ys == ys' + [y];
    }
  }

  /** The same logs in any order and with any repetition, collected through any map iteration and any
      order of ties, give the same outcome: the same success, and on success the same rows. */
  lemma OrderIndependent(logs: seq<Log>, logs': seq<Log>, candidates: seq<Candidate>,
          candidates': seq<Candidate>, blocks: map<nat, Block>, rows: seq<Row>, rows': seq<Row>)
    requires forall log :: log in logs <==> log in logs'
    requires ListsOnce(candidates, logs) && ListsOnce(candidates', logs')
    ensures forall start, end :: Collectable(logs, start, end) <==> Collectable(logs', start, end)
    ensures AllMatch(candidates, blocks) <==> AllMatch(candidates', blocks)
    ensures AllMatch(candidates, blocks) && RowsOf(rows, candidates, blocks) && RowsOf(rows', candidates', blocks) ==>
      rows == rows'
  {
    forall start, end ensures Collectable(logs, start, end) <==> Collectable(logs', start, end) {
      if Collectable(logs, start, end) {
        CollectableMembers(logs, logs', start, end);
      }
      if Collectable(logs', start, end) {
        CollectableMembers(logs', logs, start, end);
      }
    }
    SameCandidates(logs, logs', candidates, candidates');
    SameCandidates(logs', logs, candidates', candidates);
    forall k | AllMatch(candidates, blocks) && 0 <= k < |candidates'| ensures Matches(candidates'[k], blocks) {
      assert candidates'[k] in candidates;
    }
    forall k | AllMatch(candidates', blocks) && 0 <= k < |candidates| ensures Matches(candidates[k], blocks) {
      assert candidates[k] in candidates';
    }
    if AllMatch(candidates, blocks) {
      MatchingIsStrict(candidates, logs, blocks);
      MatchingIsStrict(candidates', logs', blocks);
      AscendingUnique(candidates, candidates');
    }
  }

  lemma CollectableMembers(logs: seq<Log>, logs': seq<Log>, start: nat, end: nat)
    requires Collectable(logs, start, end) && forall log :: log in logs' ==> log in logs
    ensures Collectable(logs', start, end)
  {
    forall k | 0 <= k < |logs'| ensures exists i :: 0 <= i < |logs| && logs[i] == logs'[k] {
      assert logs'[k] in logs;
    }
  }

  lemma SameCandidates(logs: seq<Log>, logs': seq<Log>, candidates: seq<Candidate>, candidates': seq<Candidate>)
    requires forall log :: log in logs ==> log in logs'
    requires ListsOnce(candidates, logs) && ListsOnce(candidates', logs')
    ensures forall c :: c in candidates ==> c in candidates'
  {
    forall c | c in candidates ensures c in candidates' {
      var k :| 0 <= k < |candidates| && candidates[k] == c;
      var i :| 0 <= i < |logs| && candidates[k] == CandidateOf(logs[i]);
      assert logs[i] in logs';
      var j :| 0 <= j < |logs'| && logs'[j] == logs[i];
    }
  }

  predicate HasLog(logs: seq<Log>, hash: Hash) {
    exists i :: 0 <= i < |logs| && logs[i].txHash == hash
  }

  predicate HasRow(rows: seq<Row>, hash: Hash) {
    exists k :: 0 <= k < |rows| && rows[k].txHash == hash
  }

  lemma RowAt(candidates: seq<Candidate>, blocks: map<nat, Block>, rows: seq<Row>, k: nat)
    requires AllMatch(candidates, blocks) && RowsOf(rows, candidates, blocks) && k < |rows|
    requires forall n :: n in blocks ==> blocks[n].number == n
    ensures rows[k].txHash == candidates[k].txHash && rows[k].number == candidates[k].number
    ensures rows[k].txIndex == candidates[k].txIndex
  {
    assert Matches(candidates[k], blocks) && rows[k] == RowOf(candidates[k], blocks);
  }

  lemma RowsHaveLogs(logs: seq<Log>, candidates: seq<Candidate>, blocks: map<nat, Block>, rows: seq<Row>, hash: Hash)
    requires ListsOnce(candidates, logs) && AllMatch(candidates, blocks) && RowsOf(rows, candidates, blocks)
    requires forall n :: n in blocks ==> blocks[n].number == n
    ensures HasRow(rows, hash) <==> HasLog(logs, hash)
  {
    if HasRow(rows, hash) {
      var k :| 0 <= k < |rows| && rows[k].txHash == hash;
      RowAt(candidates, blocks, rows, k);
      var i :| 0 <= i < |logs| && candidates[k] == CandidateOf(logs[i]);
      assert logs[i].txHash == hash;
    }
    if HasLog(logs, hash) {
      var i :| 0 <= i < |logs| && logs[i].txHash == hash;
      assert CandidateOf(logs[i]) in candidates;
      var k :| 0 <= k < |candidates| && candidates[k] == CandidateOf(logs[i]);
      RowAt(candidates, blocks, rows, k);
      assert rows[k].txHash == hash;
    }
  }

  /** `row` says of log `i` where its transaction stands, in which block, and who sent it. */
  ghost predicate Reports(row: Row, logs: seq<Log>, blocks: map<nat, Block>, i: int) {
    && 0 <= i < |logs| && logs[i].number in blocks
    && var log, block := logs[i], blocks[logs[i].number];
       && log.blockHash == block.hash && log.txIndex < |block.txs| && block.txs[log.txIndex].hash == log.txHash
       && block.txs[log.txIndex].sender == Some(row.from) && row.txHash == log.txHash && row.number == log.number
       && row.blockHash == log.blockHash && row.time == block.time && row.txIndex == log.txIndex
  }

  ghost predicate Reported(row: Row, logs: seq<Log>, blocks: map<nat, Block>) {
    exists i :: Reports(row, logs, blocks, i)
  }

  /** On success there is exactly one row per distinct transaction hash of the logs, in strictly
      ascending position, and each says what the logs and the block say of its transaction. */
  lemma OneRowPerTransaction(logs: seq<Log>, candidates: seq<Candidate>, blocks: map<nat, Block>, rows: seq<Row>)
    requires ListsOnce(candidates, logs) && AllMatch(candidates, blocks) && RowsOf(rows, candidates, blocks)
    requires forall n :: n in blocks ==> blocks[n].number == n
    ensures forall hash :: HasRow(rows, hash) <==> HasLog(logs, hash)
    ensures forall k :: 0 <= k < |rows| ==> Reported(rows[k], logs, blocks)
    ensures forall i, j :: 0 <= i < j < |rows| ==>
      && rows[i].txHash != rows[j].txHash
      && (rows[i].number < rows[j].number || (rows[i].number == rows[j].number && rows[i].txIndex < rows[j].txIndex))
  {
    forall hash ensures HasRow(rows, hash) <==> HasLog(logs, hash) {
      RowsHaveLogs(logs, candidates, blocks, rows, hash);
    }
    forall k | 0 <= k < |rows| ensures Reported(rows[k], logs, blocks) {
      assert Matches(candidates[k], blocks) && rows[k] == RowOf(candidates[k], blocks) && Comes(candidates[k], logs);
      var i :| 0 <= i < |logs| && candidates[k] == CandidateOf(logs[i]);
      assert Reports(rows[k], logs, blocks, i);
    }
    forall i, j | 0 <= i < j < |rows|
      ensures rows[i].txHash != rows[j].txHash
      ensures rows[i].number < rows[j].number || (rows[i].number == rows[j].number && rows[i].txIndex < rows[j].txIndex)
    {
      MatchingIsStrict(candidates, logs, blocks);
      assert Earlier(candidates[i], candidates[j]);
      RowAt(candidates, blocks, rows, i);
      RowAt(candidates, blocks, rows, j);
    }
  }
}
