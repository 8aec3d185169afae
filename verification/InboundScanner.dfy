/** internal/bscinbound/scanner.go and its store: one iteration of the inbound transaction scanner.
    A node is whatever it answers during that iteration; a missing answer is an RPC error. */
module InboundScanner {
  import opened Prelude
  import opened Bytes

  type Hash = nat
  type Address = seq<Byte>

  const MAX_INT64 := 0x7fff_ffff_ffff_ffff
  const LOOKBACK_SECONDS := 30 * 24 * 60 * 60
  const MINIMUM_VALUE := 10_000_000_000_000_000

  /** `sender` is what signature recovery yields, if it succeeds. */
  datatype Tx = Tx(hash: Hash, to: Option<Address>, value: int, dataLength: nat, sender: Option<Address>)
  datatype Block = Block(number: nat, hash: Hash, parent: Hash, time: nat, txs: seq<Tx>)
  datatype Header = Header(number: nat, hash: Hash, time: nat)
  datatype Receipt = Receipt(successful: bool, blockHash: Hash, index: nat)

  /** A transaction's place in the chain. */
  datatype Place = Place(number: nat, index: nat)

  /** The answers of one iteration, query by query. Initialization asks for the finalized header (`lookback`),
      for the headers that the search probes, each once, and for the header before the start block; the scan
      asks for the finalized header again, for each block of the batch, and for one receipt per candidate. */
  datatype Node = Node(
    lookback: Option<Header>, headers: map<nat, Header>, previous: Option<Header>,
    finalized: Option<Header>, blocks: map<nat, Block>, receipts: map<Place, Receipt>)

  datatype Row = Row(
    hash: Hash, number: nat, blockHash: Hash, time: nat, index: nat, from: Address, to: Address, value: int)
  datatype Checkpoint = Checkpoint(start: nat, cursor: nat, hash: Hash, time: nat)

  /** The two tables: the checkpoint singleton and the transactions in insertion order. */
  datatype Db = Db(checkpoint: Option<Checkpoint>, rows: seq<Row>)

  // ----- node access (internal/bscinbound/node.go checks the number of every answer) -----

  function HeaderAt(node: Node, number: nat): Option<Header> {
    if number in node.headers && node.headers[number].number == number then Some(node.headers[number]) else None
  }

  function PreviousHeader(node: Node, number: nat): Option<Header> {
    if node.previous.Some? && node.previous.value.number == number then node.previous else None
  }

  function BlockAt(node: Node, number: nat): Option<Block> {
    if number in node.blocks && node.blocks[number].number == number then Some(node.blocks[number]) else None
  }

  /** The blocks start..end, if the node answers for each of them. */
  function Fetched(node: Node, start: nat, end: int): Option<seq<Block>>
    decreases end - start
  {
    if end < start then Some([])
    else match (Fetched(node, start, end - 1), BlockAt(node, end))
         case (Some(blocks), Some(block)) => Some(blocks + [block])
         case _ => None
  }

  method FetchBlocks(node: Node, start: nat, end: nat) returns (r: Option<seq<Block>>)
    requires start <= end
    ensures r == Fetched(node, start, end)
  {
    var blocks := new Option<Block>[end - start + 1](i => None);
    var number, failed := start, false;
    while number <= end
      invariant start <= number <= end + 1
      invariant failed ==> Fetched(node, start, number - 1).None?
      invariant !failed ==> forall k :: 0 <= k < number - start ==>
        blocks[k] == BlockAt(node, start + k) && blocks[k].Some?
    {
      var block := BlockAt(node, number);
      if block.None? {
        failed := true;
      }
      blocks[number - start] := block;
      number := number + 1;
    }
    if failed {
      return None;
    }
    var out: seq<Block> := [];
    for k := 0 to blocks.Length
      invariant Fetched(node, start, start + k - 1) == Some(out)
    {
      out := out + [blocks[k].value];
    }
    return Some(out);
  }

  /** The hash just before position `k` of a chain that follows `previous`. */
  function Tip(previous: Hash, blocks: seq<Block>, k: nat): Hash
    requires k <= |blocks|
  {
    if k == 0 then previous else blocks[k - 1].hash
  }

  /** Each block names its predecessor, the first one `previous`. */
  predicate Linked(previous: Hash, blocks: seq<Block>) {
    forall k :: 0 <= k < |blocks| ==> blocks[k].parent == Tip(previous, blocks, k)
  }

  method VerifyBlockContinuity(previous: Hash, blocks: seq<Block>) returns (ok: bool)
    ensures ok <==> Linked(previous, blocks)
  {
    var expected := previous;
    for k := 0 to |blocks|
      invariant forall i :: 0 <= i < k ==> blocks[i].parent == Tip(previous, blocks, i)
      invariant expected == Tip(previous, blocks, k)
    {
      if blocks[k].parent != expected {
        return false;
      }
      expected := blocks[k].hash;
    }
    return true;
  }

  // ----- collecting transactions -----

  datatype Candidate = Candidate(block: Block, tx: Tx, index: nat)

  function PlaceOf(c: Candidate): Place {
    Place(c.block.number, c.index)
  }

  predicate Eligible(tx: Tx) {
    tx.to.Some? && tx.value > MINIMUM_VALUE && tx.dataLength == 0
  }

  function BlockCandidates(block: Block, n: nat): seq<Candidate>
    requires n <= |block.txs|
  {
    if n == 0 then []
    else
      BlockCandidates(block, n - 1)
      + if Eligible(block.txs[n - 1]) then [Candidate(block, block.txs[n - 1], n - 1)] else []
  }

  function Candidates(blocks: seq<Block>): seq<Candidate> {
    if blocks == [] then []
    else var last := blocks[|blocks| - 1]; Candidates(blocks[..|blocks| - 1]) + BlockCandidates(last, |last.txs|)
  }

  /** A candidate the node can settle: a sender, a receipt, and a position that fits if it succeeded. */
  predicate Settles(node: Node, c: Candidate) {
    && Eligible(c.tx) && c.tx.sender.Some? && PlaceOf(c) in node.receipts
    && var receipt := node.receipts[PlaceOf(c)];
       receipt.successful ==> receipt.blockHash == c.block.hash && receipt.index == c.index
  }

  predicate AllSettle(node: Node, candidates: seq<Candidate>) {
    forall k :: 0 <= k < |candidates| ==> Settles(node, candidates[k])
  }

  function RowOf(c: Candidate): Row
    requires c.tx.sender.Some? && c.tx.to.Some?
  {
    Row(c.tx.hash, c.block.number, c.block.hash, c.block.time, c.index, c.tx.sender.value, c.tx.to.value, c.tx.value)
  }

  function Settled(node: Node, candidates: seq<Candidate>): seq<Row>
    requires AllSettle(node, candidates)
  {
    if candidates == [] then []
    else
      var last := candidates[|candidates| - 1];
      assert Settles(node, last);
      Settled(node, candidates[..|candidates| - 1])
      + if node.receipts[PlaceOf(last)].successful then [RowOf(last)] else []
  }

  /** The rows of `blocks` under the receipts of `node`, unless some candidate cannot be settled. */
  function Collected(node: Node, blocks: seq<Block>): Option<seq<Row>> {
    if AllSettle(node, Candidates(blocks)) then Some(Settled(node, Candidates(blocks))) else None
  }

  /** First loop of collectTransactions: the candidates, or None as soon as a sender cannot be derived. */
  method FindCandidates(blocks: seq<Block>) returns (r: Option<seq<Candidate>>)
    ensures r.Some? ==> r.value == Candidates(blocks)
    ensures r.Some? <==> forall k :: 0 <= k < |Candidates(blocks)| ==> Candidates(blocks)[k].tx.sender.Some?
  {
    var candidates: seq<Candidate> := [];
    for k := 0 to |blocks|
      invariant candidates == Candidates(blocks[..k])
      invariant forall i :: 0 <= i < |candidates| ==> candidates[i].tx.sender.Some?
    {
      var block := blocks[k];
      assert blocks[..k + 1][..k] == blocks[..k];
      for n := 0 to |block.txs|
        invariant candidates == Candidates(blocks[..k]) + BlockCandidates(block, n)
        invariant forall i :: 0 <= i < |candidates| ==> candidates[i].tx.sender.Some?
      {
        var tx := block.txs[n];
        if tx.to.None? || tx.value <= MINIMUM_VALUE || tx.dataLength != 0 {
          continue;
        }
        if tx.sender.None? {
          CandidatesAre(blocks);
          assert Candidate(block, tx, n) in Candidates(blocks);
          return None;
        }
        candidates := candidates + [Candidate(block, tx, n)];
      }
    }
    assert blocks[..|blocks|] == blocks;
    return Some(candidates);
  }

  /** Receipt lookup and last loop of collectTransactions. */
  method SettleCandidates(node: Node, candidates: seq<Candidate>) returns (r: Option<seq<Row>>)
    requires forall k :: 0 <= k < |candidates| ==> Eligible(candidates[k].tx) && candidates[k].tx.sender.Some?
    ensures r == if AllSettle(node, candidates) then Some(Settled(node, candidates)) else None
  {
    for k := 0 to |candidates|
      invariant forall i :: 0 <= i < k ==> PlaceOf(candidates[i]) in node.receipts
    {
      if PlaceOf(candidates[k]) !in node.receipts {
        assert !Settles(node, candidates[k]);
        return None;
      }
    }
    var rows: seq<Row> := [];
    for k := 0 to |candidates|
      invariant AllSettle(node, candidates[..k]) && rows == Settled(node, candidates[..k])
    {
      var c := candidates[k];
      var receipt := node.receipts[PlaceOf(c)];
      assert candidates[..k + 1][..k] == candidates[..k];
      if receipt.successful && (receipt.blockHash != c.block.hash || receipt.index != c.index) {
        assert !Settles(node, c);
        return None;
      }
      if receipt.successful {
        rows := rows + [RowOf(c)];
      }
    }
    assert candidates[..|candidates|] == candidates;
    return Some(rows);
  }

  lemma {:induction false} BlockCandidatesAre(block: Block, n: nat)
    requires n <= |block.txs|
    ensures forall c :: c in BlockCandidates(block, n) <==>
      c.block == block && c.index < n && c.tx == block.txs[c.index] && Eligible(c.tx)
  {
    if n != 0 {
      BlockCandidatesAre(block, n - 1);
    }
  }

  lemma {:induction false} CandidatesAre(blocks: seq<Block>)
    ensures forall c :: c in Candidates(blocks) <==>
      c.block in blocks && c.index < |c.block.txs| && c.tx == c.block.txs[c.index] && Eligible(c.tx)
  {
    if blocks != [] {
      var init, last := blocks[..|blocks| - 1], blocks[|blocks| - 1];
      CandidatesAre(init);
      BlockCandidatesAre(last, |last.txs|);
      assert forall b :: b in blocks <==> b in init || b == last;
    }
  }

  method CollectTransactions(node: Node, blocks: seq<Block>) returns (r: Option<seq<Row>>)
    ensures r == Collected(node, blocks)
  {
    var candidates := FindCandidates(blocks);
    if candidates.None? {
      return None;
    }
    CandidatesAre(blocks);
    assert forall k :: 0 <= k < |candidates.value| ==> candidates.value[k] in Candidates(blocks);
    r := SettleCandidates(node, candidates.value);
  }

  // ----- what the collected rows are -----

  predicate Before(n: nat, i: nat, m: nat, j: nat) {
    n < m || (n == m && i < j)
  }

  ghost predicate InOrder(cs: seq<Candidate>) {
    forall i, j :: 0 <= i < j < |cs| ==> Before(cs[i].block.number, cs[i].index, cs[j].block.number, cs[j].index)
  }

  ghost predicate Ascending(rows: seq<Row>) {
    forall i, j :: 0 <= i < j < |rows| ==> Before(rows[i].number, rows[i].index, rows[j].number, rows[j].index)
  }

  lemma {:induction false} SettledRows(node: Node, candidates: seq<Candidate>)
    requires AllSettle(node, candidates)
    ensures forall row :: row in Settled(node, candidates) <==>
      exists c :: c in candidates && node.receipts[PlaceOf(c)].successful && row == RowOf(c)
  {
    if candidates != [] {
      var init, last := candidates[..|candidates| - 1], candidates[|candidates| - 1];
      assert candidates == init + [last];
      SettledRows(node, init);
    }
  }

  /** Settling keeps an ascending list of positions ascending. */
  lemma {:induction false} SettledAscending(node: Node, candidates: seq<Candidate>)
    requires AllSettle(node, candidates)
    requires InOrder(candidates)
    ensures Ascending(Settled(node, candidates))
  {
    if candidates != [] {
      var init, last := candidates[..|candidates| - 1], candidates[|candidates| - 1];
      SettledAscending(node, init);
      SettledRows(node, init);
      var rows := Settled(node, init);
      forall i | 0 <= i < |rows| ensures Before(rows[i].number, rows[i].index, last.block.number, last.index) {
        assert rows[i] in rows;
        var c :| c in init && node.receipts[PlaceOf(c)].successful && rows[i] == RowOf(c);
        var k :| 0 <= k < |init| && init[k] == c;
        assert candidates[k] == c;
      }
    }
  }

  lemma {:induction false} BlockCandidatesAscending(block: Block, n: nat)
    requires n <= |block.txs|
    ensures forall i, j :: 0 <= i < j < |BlockCandidates(block, n)| ==>
      BlockCandidates(block, n)[i].index < BlockCandidates(block, n)[j].index
  {
    if n != 0 {
      BlockCandidatesAscending(block, n - 1);
      BlockCandidatesAre(block, n - 1);
      var init := BlockCandidates(block, n - 1);
      assert forall i :: 0 <= i < |init| ==> init[i] in init;
    }
  }

  lemma {:induction false} CandidatesAscending(blocks: seq<Block>)
    requires forall i, j :: 0 <= i < j < |blocks| ==> blocks[i].number < blocks[j].number
    ensures InOrder(Candidates(blocks))
  {
    if blocks != [] {
      var init, last := blocks[..|blocks| - 1], blocks[|blocks| - 1];
      CandidatesAscending(init);
      CandidatesAre(init);
      BlockCandidatesAre(last, |last.txs|);
      BlockCandidatesAscending(last, |last.txs|);
      var xs, ys := Candidates(init), BlockCandidates(last, |last.txs|);
      forall i | 0 <= i < |xs| ensures xs[i].block.number < last.number {
        assert xs[i] in xs;
        var k :| 0 <= k < |init| && init[k] == xs[i].block;
        assert blocks[k].number < blocks[|init|].number;
      }
      assert forall i :: 0 <= i < |ys| ==> ys[i] in ys;
    }
  }

  /** The transaction at `index` of `block` moves more than 0.01 BNB to some address and carries no data. */
  ghost predicate Inbound(block: Block, index: nat) {
    index < |block.txs|
    && var tx := block.txs[index]; tx.to.Some? && tx.value > 10_000_000_000_000_000 && tx.dataLength == 0
  }

  /** Its sender is known, and its receipt says that it succeeded at this very place or that it failed. */
  ghost predicate Answered(node: Node, block: Block, index: nat)
    requires index < |block.txs|
  {
    && block.txs[index].sender.Some? && Place(block.number, index) in node.receipts
    && var receipt := node.receipts[Place(block.number, index)];
       receipt.successful ==> receipt.blockHash == block.hash && receipt.index == index
  }

  /** `row` describes the inbound transaction at `index` of `block`, which succeeded. */
  ghost predicate Reports(row: Row, node: Node, block: Block, index: nat) {
    && Inbound(block, index) && Answered(node, block, index) && node.receipts[Place(block.number, index)].successful
    && var tx := block.txs[index];
       && row.hash == tx.hash && row.from == tx.sender.value && row.to == tx.to.value && row.value == tx.value
       && row.number == block.number && row.blockHash == block.hash && row.time == block.time && row.index == index
  }

  /** Collection succeeds exactly when every inbound transaction is answered. */
  lemma CollectsIff(node: Node, blocks: seq<Block>)
    ensures Collected(node, blocks).Some? <==>
      forall block, index :: block in blocks && Inbound(block, index) ==> Answered(node, block, index)
  {
    var cs := Candidates(blocks);
    CandidatesAre(blocks);
    forall block, index: nat | block in blocks && Inbound(block, index)
      ensures Collected(node, blocks).Some? ==> Answered(node, block, index)
    {
      var c := Candidate(block, block.txs[index], index);
      assert c in cs;
      var k :| 0 <= k < |cs| && cs[k] == c;
      assert AllSettle(node, cs) ==> Settles(node, cs[k]);
    }
    if Collected(node, blocks).None? {
      var k :| 0 <= k < |cs| && !Settles(node, cs[k]);
      assert cs[k] in cs && Inbound(cs[k].block, cs[k].index) && !Answered(node, cs[k].block, cs[k].index);
    }
  }

  lemma SettledReports(node: Node, blocks: seq<Block>, row: Row)
    requires Collected(node, blocks).Some? && row in Collected(node, blocks).value
    ensures exists block, index :: block in blocks && Reports(row, node, block, index)
  {
    var cs := Candidates(blocks);
    CandidatesAre(blocks);
    SettledRows(node, cs);
    var c :| c in cs && node.receipts[PlaceOf(c)].successful && row == RowOf(c);
    var k :| 0 <= k < |cs| && cs[k] == c;
    assert Settles(node, cs[k]);
    assert Reports(row, node, c.block, c.index);
  }

  lemma ReportsSettled(node: Node, blocks: seq<Block>, row: Row, block: Block, index: nat)
    requires Collected(node, blocks).Some? && block in blocks && Reports(row, node, block, index)
    ensures row in Collected(node, blocks).value
  {
    var c := Candidate(block, block.txs[index], index);
    CandidatesAre(blocks);
    SettledRows(node, Candidates(blocks));
    assert c in Candidates(blocks) && PlaceOf(c) == Place(block.number, index) && row == RowOf(c);
  }

  /** Collection yields exactly one row for each inbound transaction that succeeded, with its own data, in strictly
      ascending position. */
  lemma CollectedExactly(node: Node, blocks: seq<Block>)
    requires forall i, j :: 0 <= i < j < |blocks| ==> blocks[i].number < blocks[j].number
    requires Collected(node, blocks).Some?
    ensures Ascending(Collected(node, blocks).value)
    ensures forall row :: row in Collected(node, blocks).value <==>
      exists block, index :: block in blocks && Reports(row, node, block, index)
  {
    CandidatesAscending(blocks);
    SettledAscending(node, Candidates(blocks));
    forall row
      ensures row in Collected(node, blocks).value <==>
        exists block, index :: block in blocks && Reports(row, node, block, index)
    {
      if row in Collected(node, blocks).value {
        SettledReports(node, blocks, row);
      }
      if block, index: nat :| block in blocks && Reports(row, node, block, index) {
        ReportsSettled(node, blocks, row, block, index);
      }
    }
  }
}
