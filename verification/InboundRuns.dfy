/** Any number of scanner processes over one store, each with its own possibly outdated copy of the
    checkpoint, each facing a node that may answer differently every time. */
module InboundRuns {
  import opened Prelude
  import opened InboundScanner
  import opened InboundStore

  /** A committed batch, with the node that answered for it and the rows collected from it. */
  datatype Accepted = Accepted(blocks: seq<Block>, node: Node, rows: seq<Row>)

  datatype State = State(db: Db, copies: map<nat, Checkpoint>, origin: Hash, batches: seq<Accepted>)

  datatype Event =
    | Load(who: nat, node: Node)
    | Commit(who: nat, node: Node, size: nat)

  const START := State(Db(None, []), map[], 0, [])

  /** `Load` is GetCheckpoint or initializeCheckpoint; `Commit` is the rest of an iteration. */
  function Next(s: State, e: Event): State {
    match e
    case Load(who, node) =>
      var db := Initialized(s.db, node);
      if db.checkpoint.None? then s
      else
        s.(db := db, copies := s.copies[who := db.checkpoint.value],
           origin := if s.db.checkpoint.None? then db.checkpoint.value.hash else s.origin)
    case Commit(who, node, size) =>
      if who !in s.copies || size == 0 then s
      else
        var outcome := Iterate(s.copies[who], node, size);
        if !outcome.Batch? then s
        else match CommitSpec(s.db, s.copies[who].cursor, outcome.rows, outcome.next)
             case None => s
             case Some(db) => s.(db := db, batches := s.batches + [Accepted(outcome.blocks, node, outcome.rows)])
  }

  function Run(events: seq<Event>): State {
    if events == [] then START else Next(Run(events[..|events| - 1]), events[|events| - 1])
  }

  function Blocks(batches: seq<Accepted>): seq<Block> {
    if batches == [] then [] else Blocks(batches[..|batches| - 1]) + batches[|batches| - 1].blocks
  }

  function Rows(batches: seq<Accepted>): seq<Row> {
    if batches == [] then [] else Rows(batches[..|batches| - 1]) + batches[|batches| - 1].rows
  }

  // ----- one gap-free chain -----

  /** The accepted blocks run from the start block to the cursor without a gap, linked by hash. */
  ghost predicate Chained(s: State) {
    var blocks := Blocks(s.batches);
    match s.db.checkpoint
    case None => s.batches == [] && s.copies == map[] && s.db.rows == []
    case Some(cp) =>
      && cp.start >= 1 && cp.cursor == cp.start + |blocks| - 1
      && (forall k :: 0 <= k < |blocks| ==> blocks[k].number == cp.start + k)
      && Linked(s.origin, blocks) && cp.hash == Tip(s.origin, blocks, |blocks|)
  }

  /** A copy is never ahead of the store, and a copy with the stored cursor is the stored checkpoint. */
  ghost predicate CopiesLag(s: State) {
    forall who :: who in s.copies ==>
      s.db.checkpoint.Some? && s.copies[who].cursor <= s.db.checkpoint.value.cursor
      && (s.copies[who].cursor == s.db.checkpoint.value.cursor ==> s.copies[who] == s.db.checkpoint.value)
  }

  lemma LinkedAppend(previous: Hash, xs: seq<Block>, ys: seq<Block>)
    requires Linked(previous, xs) && Linked(Tip(previous, xs, |xs|), ys)
    ensures Linked(previous, xs + ys) && (ys != [] ==> Tip(previous, xs + ys, |xs + ys|) == ys[|ys| - 1].hash)
  {
    var all := xs + ys;
    forall k | 0 <= k < |all| ensures all[k].parent == Tip(previous, all, k) {
      if k < |xs| {
        assert all[k] == xs[k] && Tip(previous, all, k) == Tip(previous, xs, k);
      } else {
        assert all[k] == ys[k - |xs|] && Tip(previous, all, k) == Tip(Tip(previous, xs, |xs|), ys, k - |xs|);
      }
    }
  }

  /** The shape of a batch that an iteration is ready to commit. */
  lemma BatchShape(cp: Checkpoint, node: Node, size: nat)
    requires size > 0 && Iterate(cp, node, size).Batch?
    ensures var Batch(blocks, rows, next) := Iterate(cp, node, size);
      && 0 < |blocks| <= size && Linked(cp.hash, blocks) && Collected(node, blocks) == Some(rows)
      && (forall k :: 0 <= k < |blocks| ==> blocks[k].number == cp.cursor + 1 + k)
      && next == Checkpoint(cp.start, cp.cursor + |blocks|, blocks[|blocks| - 1].hash, blocks[|blocks| - 1].time)
      && node.finalized.Some? && next.cursor <= node.finalized.value.number
  {
    FetchedShape(node, cp.cursor + 1, BatchEnd(cp.cursor, node.finalized.value.number, size));
  }

  lemma ChainedCommit(s: State, e: Event)
    requires Chained(s) && CopiesLag(s) && e.Commit? && Next(s, e) != s
    ensures Chained(Next(s, e)) && CopiesLag(Next(s, e))
  {
    var t, cp := Next(s, e), s.copies[e.who];
    BatchShape(cp, e.node, e.size);
    var added := Iterate(cp, e.node, e.size).blocks;
    assert cp == s.db.checkpoint.value;
    assert t.batches[..|t.batches| - 1] == s.batches;
    assert Blocks(t.batches) == Blocks(s.batches) + added;
    LinkedAppend(s.origin, Blocks(s.batches), added);
  }

  lemma ChainedLoad(s: State, e: Event)
    requires Chained(s) && CopiesLag(s) && e.Load?
    ensures Chained(Next(s, e)) && CopiesLag(Next(s, e))
  {
  }

  lemma {:induction false} ChainedRun(events: seq<Event>)
    ensures Chained(Run(events)) && CopiesLag(Run(events))
  {
    if events != [] {
      var s, e := Run(events[..|events| - 1]), events[|events| - 1];
      ChainedRun(events[..|events| - 1]);
      if e.Load? {
        ChainedLoad(s, e);
      } else if Next(s, e) != s {
        ChainedCommit(s, e);
      }
    }
  }

  /** Whatever the node answers and wherever an iteration stops: the accepted blocks from the start
      block to the cursor form one gap-free chain of parent hashes, ending in the checkpoint's hash. */
  lemma AcceptedChain(events: seq<Event>)
    requires Run(events).db.checkpoint.Some?
    ensures var s, cp := Run(events), Run(events).db.checkpoint.value;
      var blocks := Blocks(s.batches);
      && |blocks| == cp.cursor + 1 - cp.start
      && (forall k :: 0 <= k < |blocks| ==>
            blocks[k].number == cp.start + k && blocks[k].parent == Tip(s.origin, blocks, k))
      && cp.hash == Tip(s.origin, blocks, |blocks|)
  {
    ChainedRun(events);
  }

  // ----- the stored rows -----

  lemma {:induction false} InsertAllSplits(rows: seq<Row>, xs: seq<Row>, ys: seq<Row>)
    requires InsertAll(rows, xs).Some?
    ensures InsertAll(rows, xs + ys) == InsertAll(InsertAll(rows, xs).value, ys)
    decreases |ys|
  {
    if ys == [] {
      assert xs + ys == xs;
    } else {
      assert (xs + ys)[..|xs + ys| - 1] == xs + ys[..|ys| - 1];
      InsertAllSplits(rows, xs, ys[..|ys| - 1]);
    }
  }

  /** Insertion only appends, loses no hash, and takes rows from the batch. */
  lemma {:induction false} InsertAllAppends(rows: seq<Row>, more: seq<Row>)
    requires InsertAll(rows, more).Some?
    ensures var stored := InsertAll(rows, more).value;
      && rows <= stored
      && (forall row :: row in stored ==> row in rows || row in more)
      && (forall row :: row in more ==> HasHash(stored, row.hash))
  {
    if more != [] {
      var init, last := more[..|more| - 1], more[|more| - 1];
      InsertAllAppends(rows, init);
      var before, stored := InsertAll(rows, init).value, InsertAll(rows, more).value;
      assert more == init + [last];
      forall row | row in more ensures HasHash(stored, row.hash) {
        if row == last {
          assert stored != before ==> stored[|before|] == last;
        } else {
          var k :| 0 <= k < |before| && before[k].hash == row.hash;
          assert stored[k] == before[k];
        }
      }
    }
  }

  lemma {:induction false} InsertAllAscending(rows: seq<Row>)
    requires InsertAll([], rows).Some? && Ascending(rows)
    ensures Ascending(InsertAll([], rows).value)
  {
    if rows != [] {
      var init, last := rows[..|rows| - 1], rows[|rows| - 1];
      InsertAllAscending(init);
      InsertAllAppends([], init);
      var stored := InsertAll([], init).value;
      forall i | 0 <= i < |stored| ensures Before(stored[i].number, stored[i].index, last.number, last.index) {
        assert stored[i] in stored;
        var k :| 0 <= k < |init| && init[k] == stored[i];
        assert Before(rows[k].number, rows[k].index, rows[|init|].number, rows[|init|].index);
      }
    }
  }

  lemma {:induction false} StoredAreStorable(rows: seq<Row>)
    requires InsertAll([], rows).Some?
    ensures forall k :: 0 <= k < |InsertAll([], rows).value| ==> Storable(InsertAll([], rows).value[k])
  {
    if rows != [] {
      StoredAreStorable(rows[..|rows| - 1]);
    }
  }

  ghost predicate DistinctHashes(rows: seq<Row>) {
    forall i, j :: 0 <= i < j < |rows| ==> rows[i].hash != rows[j].hash
  }

  /** Nothing is skipped exactly when no transaction hash occurs twice. */
  lemma {:induction false} NothingSkippedIff(rows: seq<Row>)
    requires InsertAll([], rows).Some?
    ensures InsertAll([], rows).value == rows <==> DistinctHashes(rows)
    ensures |InsertAll([], rows).value| <= |rows|
  {
    if rows != [] {
      var init, last := rows[..|rows| - 1], rows[|rows| - 1];
      NothingSkippedIff(init);
      var before, stored := InsertAll([], init).value, InsertAll([], rows).value;
      assert rows == init + [last];
      if stored == rows {
        assert before == init;
      }
      if DistinctHashes(rows) {
        assert forall k :: 0 <= k < |init| ==> init[k] == rows[k];
        assert before == init;
      }
    }
  }

  /** A batch in ascending block order whose rows are the ones its node settles. */
  ghost predicate Collectable(batch: Accepted) {
    && Collected(batch.node, batch.blocks) == Some(batch.rows)
    && forall i, j :: 0 <= i < j < |batch.blocks| ==> batch.blocks[i].number < batch.blocks[j].number
  }

  ghost predicate RowsTracked(s: State) {
    && InsertAll([], Rows(s.batches)) == Some(s.db.rows)
    && Ascending(Rows(s.batches))
    && (forall k :: 0 <= k < |s.batches| ==> Collectable(s.batches[k]))
    && (s.batches != [] ==> s.db.checkpoint.Some?)
    && (forall row :: row in Rows(s.batches) ==> row.number <= s.db.checkpoint.value.cursor)
  }

  lemma CollectedNumbers(node: Node, blocks: seq<Block>, first: nat)
    requires Collected(node, blocks).Some?
    requires forall k :: 0 <= k < |blocks| ==> blocks[k].number == first + k
    ensures Ascending(Collected(node, blocks).value)
    ensures forall row :: row in Collected(node, blocks).value ==> first <= row.number < first + |blocks|
  {
    CollectedExactly(node, blocks);
    forall row | row in Collected(node, blocks).value ensures first <= row.number < first + |blocks| {
      var block, index: nat :| block in blocks && Reports(row, node, block, index);
    }
  }

  lemma AscendingAppend(xs: seq<Row>, ys: seq<Row>)
    requires Ascending(xs) && Ascending(ys)
    requires forall x, y :: x in xs && y in ys ==> x.number < y.number
    ensures Ascending(xs + ys)
  {
    var all := xs + ys;
    forall i, j | 0 <= i < j < |all| ensures Before(all[i].number, all[i].index, all[j].number, all[j].index) {
      if i < |xs| && j >= |xs| {
        assert xs[i] in xs && ys[j - |xs|] in ys;
      }
    }
  }

  lemma RowsCommit(s: State, e: Event)
    requires Chained(s) && CopiesLag(s) && RowsTracked(s) && e.Commit? && Next(s, e) != s
    ensures RowsTracked(Next(s, e))
  {
    var t, cp := Next(s, e), s.copies[e.who];
    BatchShape(cp, e.node, e.size);
    var Batch(blocks, rows, next) := Iterate(cp, e.node, e.size);
    assert t.batches[..|t.batches| - 1] == s.batches;
    assert Rows(t.batches) == Rows(s.batches) + rows;
    CollectedNumbers(e.node, blocks, cp.cursor + 1);
    AscendingAppend(Rows(s.batches), rows);
    InsertAllSplits([], Rows(s.batches), rows);
  }

  lemma {:induction false} RowsRun(events: seq<Event>)
    ensures RowsTracked(Run(events))
  {
    if events != [] {
      var s, e := Run(events[..|events| - 1]), events[|events| - 1];
      RowsRun(events[..|events| - 1]);
      ChainedRun(events[..|events| - 1]);
      if e.Commit? && Next(s, e) != s {
        RowsCommit(s, e);
      }
    }
  }

  lemma {:induction false} StoredHashesDiffer(rows: seq<Row>)
    requires InsertAll([], rows).Some?
    ensures DistinctHashes(InsertAll([], rows).value)
  {
    if rows != [] {
      StoredHashesDiffer(rows[..|rows| - 1]);
    }
  }

  /** No transaction is ever stored twice. */
  lemma StoredOnce(events: seq<Event>)
    ensures DistinctHashes(Run(events).db.rows)
  {
    RowsRun(events);
    StoredHashesDiffer(Rows(Run(events).batches));
  }

  /** The stored transactions are in strictly ascending position, come from the collected ones, and
      cover every collected hash. They are exactly the collected ones, in order, if and only if no
      transaction hash was collected twice: insertion skips a hash it already has. */
  lemma StoredRows(events: seq<Event>)
    ensures var s := Run(events);
      && Ascending(s.db.rows) && Ascending(Rows(s.batches))
      && (forall row :: row in s.db.rows ==> row in Rows(s.batches))
      && (forall row :: row in Rows(s.batches) ==> HasHash(s.db.rows, row.hash))
      && (s.db.rows == Rows(s.batches) <==> DistinctHashes(Rows(s.batches)))
  {
    RowsRun(events);
    var s := Run(events);
    InsertAllAscending(Rows(s.batches));
    InsertAllAppends([], Rows(s.batches));
    NothingSkippedIff(Rows(s.batches));
  }

  /** `row` describes an inbound transaction of a block of `batch`. */
  ghost predicate QualifiedIn(batch: Accepted, row: Row) {
    exists block, index :: block in batch.blocks && Reports(row, batch.node, block, index)
  }

  lemma BatchMembers(batch: Accepted, row: Row)
    requires Collectable(batch)
    ensures row in batch.rows <==> QualifiedIn(batch, row)
  {
    CollectedExactly(batch.node, batch.blocks);
  }

  ghost predicate CollectedIn(batches: seq<Accepted>, k: int, row: Row) {
    0 <= k < |batches| && row in batches[k].rows
  }

  lemma {:induction false} RowsMembers(batches: seq<Accepted>, row: Row)
    ensures row in Rows(batches) <==> exists k :: CollectedIn(batches, k, row)
  {
    if batches != [] {
      var init, last := batches[..|batches| - 1], batches[|batches| - 1];
      RowsMembers(init, row);
      if row in Rows(init) {
        var k :| CollectedIn(init, k, row);
        assert CollectedIn(batches, k, row);
      }
      if row in last.rows {
        assert CollectedIn(batches, |init|, row);
      }
      if k :| CollectedIn(batches, k, row) && k < |init| {
        assert CollectedIn(init, k, row);
      }
    }
  }

  /** What was collected over a run is exactly the successful inbound transactions of the accepted blocks. */
  lemma CollectedAreQualifying(events: seq<Event>, row: Row)
    ensures var s := Run(events);
      row in Rows(s.batches) <==> exists k :: 0 <= k < |s.batches| && QualifiedIn(s.batches[k], row)
  {
    var s := Run(events);
    RowsRun(events);
    RowsMembers(s.batches, row);
    forall k | 0 <= k < |s.batches| ensures CollectedIn(s.batches, k, row) <==> QualifiedIn(s.batches[k], row) {
      BatchMembers(s.batches[k], row);
    }
  }

  /** Nothing is ever taken back: the start block stays, the cursor never decreases, accepted batches
      and stored rows only grow at the end. */
  lemma {:induction false} NeverRetreats(events: seq<Event>, more: seq<Event>)
    ensures var s, t := Run(events), Run(events + more);
      && s.batches <= t.batches && s.db.rows <= t.db.rows
      && (s.db.checkpoint.Some? ==>
            && t.db.checkpoint.Some? && s.origin == t.origin
            && s.db.checkpoint.value.start == t.db.checkpoint.value.start
            && s.db.checkpoint.value.cursor <= t.db.checkpoint.value.cursor)
    decreases |more|
  {
    if more == [] {
      assert events + more == events;
    } else {
      var init, e := more[..|more| - 1], more[|more| - 1];
      assert (events + more)[..|events + more| - 1] == events + init;
      NeverRetreats(events, init);
      var mid := Run(events + init);
      if e.Commit? && Next(mid, e) != mid {
        InsertAllAppends(mid.db.rows, Iterate(mid.copies[e.who], e.node, e.size).rows);
      }
    }
  }

  // ----- every accepted block was final, and scanning goes on -----

  ghost predicate Final(batch: Accepted) {
    batch.node.finalized.Some?
    && forall k :: 0 <= k < |batch.blocks| ==> batch.blocks[k].number <= batch.node.finalized.value.number
  }

  /** All accepted batches are final, and the checkpoint has the time of the last block. */
  ghost predicate Finals(s: State) {
    && (forall k :: 0 <= k < |s.batches| ==> Final(s.batches[k]))
    && (s.batches != [] ==>
          var blocks := s.batches[|s.batches| - 1].blocks;
          s.db.checkpoint.Some? && blocks != [] && s.db.checkpoint.value.time == blocks[|blocks| - 1].time)
  }

  lemma FinalCommit(s: State, e: Event)
    requires Finals(s) && e.Commit? && Next(s, e) != s
    ensures Finals(Next(s, e))
  {
    BatchShape(s.copies[e.who], e.node, e.size);
    var Batch(blocks, rows, next) := Iterate(s.copies[e.who], e.node, e.size);
    assert Final(Accepted(blocks, e.node, rows));
  }

  lemma FinalLoad(s: State, e: Event)
    requires Finals(s) && e.Load?
    ensures Finals(Next(s, e))
  {
  }

  /** The node that answered for a batch had reported all its blocks as finalized, and the checkpoint has the time of
      the last accepted block. */
  lemma {:induction false} AcceptedAreFinal(events: seq<Event>)
    ensures Finals(Run(events))
  {
    if events != [] {
      var s, e := Run(events[..|events| - 1]), events[|events| - 1];
      AcceptedAreFinal(events[..|events| - 1]);
      if e.Load? {
        FinalLoad(s, e);
      } else if Next(s, e) != s {
        FinalCommit(s, e);
      }
    }
  }

  /** The node has block `start + k`, and it is `blocks[k]`. */
  ghost predicate Has(node: Node, start: nat, blocks: seq<Block>, k: nat)
    requires k < |blocks|
  {
    start + k in node.blocks && node.blocks[start + k] == blocks[k] && blocks[k].number == start + k
  }

  ghost predicate HasAll(node: Node, start: nat, blocks: seq<Block>) {
    forall k :: 0 <= k < |blocks| ==> Has(node, start, blocks, k)
  }

  lemma {:induction false} FetchedIs(node: Node, start: nat, blocks: seq<Block>)
    requires HasAll(node, start, blocks)
    ensures Fetched(node, start, start + |blocks| - 1) == Some(blocks)
  {
    if blocks != [] {
      var init := blocks[..|blocks| - 1];
      forall k | 0 <= k < |init| ensures Has(node, start, init, k) {
        assert Has(node, start, blocks, k);
      }
      FetchedIs(node, start, init);
      assert Has(node, start, blocks, |init|);
      assert blocks == init + [blocks[|init|]];
    }
  }

  /** Rows above everything stored can all be inserted. */
  lemma {:induction false} InsertAllSucceeds(rows: seq<Row>, more: seq<Row>)
    requires Ascending(more) && (forall k :: 0 <= k < |more| ==> Storable(more[k]))
    requires forall x, y :: x in rows && y in more ==> x.number < y.number
    ensures InsertAll(rows, more).Some?
  {
    if more != [] {
      var init, last := more[..|more| - 1], more[|more| - 1];
      InsertAllSucceeds(rows, init);
      InsertAllAppends(rows, init);
      var stored := InsertAll(rows, init).value;
      forall k | 0 <= k < |stored| ensures stored[k].number != last.number || stored[k].index != last.index {
        assert stored[k] in stored && last in more;
        if stored[k] in init {
          var j :| 0 <= j < |init| && init[j] == stored[k];
          assert Before(more[j].number, more[j].index, more[|init|].number, more[|init|].index);
        }
      }
    }
  }

  /** The next blocks after `cp`, as many as fit into a batch below the finalized block, answered in full. */
  ghost predicate Served(cp: Checkpoint, node: Node, size: nat, blocks: seq<Block>) {
    && node.finalized.Some? && cp.cursor < node.finalized.value.number <= 0x7fff_ffff_ffff_ffff
    && |blocks| == (if size < node.finalized.value.number - cp.cursor then size
                    else node.finalized.value.number - cp.cursor)
    && HasAll(node, cp.cursor + 1, blocks) && Linked(cp.hash, blocks)
    && (forall k :: 0 <= k < |blocks| ==>
          blocks[k].time <= 0x7fff_ffff_ffff_ffff && |blocks[k].txs| <= 0x7fff_ffff_ffff_ffff)
    && forall block, index :: block in blocks && Inbound(block, index) ==> Answered(node, block, index)
  }

  lemma ServedBatch(cp: Checkpoint, node: Node, size: nat, blocks: seq<Block>)
    requires size > 0 && Served(cp, node, size, blocks)
    ensures var outcome := Iterate(cp, node, size); outcome.Batch? && outcome.blocks == blocks
  {
    assert Collected(node, blocks).Some? by {
      CollectsIff(node, blocks);
    }
    FetchedIs(node, cp.cursor + 1, blocks);
    assert cp.cursor + 1 + |blocks| - 1 == BatchEnd(cp.cursor, node.finalized.value.number, size);
  }

  lemma ServedAreStorable(cp: Checkpoint, node: Node, size: nat, blocks: seq<Block>, rows: seq<Row>)
    requires Served(cp, node, size, blocks) && Collected(node, blocks) == Some(rows)
    ensures Ascending(rows) && (forall k :: 0 <= k < |rows| ==> Storable(rows[k]))
    ensures forall row :: row in rows ==> cp.cursor < row.number
  {
    forall k | 0 <= k < |blocks| ensures blocks[k].number == cp.cursor + 1 + k {
      assert Has(node, cp.cursor + 1, blocks, k);
    }
    CollectedExactly(node, blocks);
    forall row | row in rows ensures Storable(row) && cp.cursor < row.number {
      var block, index: nat :| block in blocks && Reports(row, node, block, index);
      var k :| 0 <= k < |blocks| && blocks[k] == block;
    }
    assert forall k :: 0 <= k < |rows| ==> rows[k] in rows;
  }

  lemma ServedCommits(s: State, who: nat, node: Node, size: nat, blocks: seq<Block>)
    requires size > 0 && who in s.copies && s.db.checkpoint == Some(s.copies[who])
    requires Served(s.copies[who], node, size, blocks)
    requires forall row :: row in s.db.rows ==> row.number <= s.copies[who].cursor
    ensures var t := Next(s, Commit(who, node, size));
      && t.db.checkpoint.Some? && t.db.checkpoint.value.cursor == s.copies[who].cursor + |blocks|
      && |t.batches| == |s.batches| + 1 && t.batches[..|s.batches|] == s.batches
      && t.batches[|s.batches|].blocks == blocks
  {
    var cp := s.copies[who];
    ServedBatch(cp, node, size, blocks);
    BatchShape(cp, node, size);
    var outcome := Iterate(cp, node, size);
    ServedAreStorable(cp, node, size, blocks, outcome.rows);
    InsertAllSucceeds(s.db.rows, outcome.rows);
    Commits(s, who, node, size, outcome);
  }

  lemma Commits(s: State, who: nat, node: Node, size: nat, outcome: Outcome)
    requires size > 0 && who in s.copies && s.db.checkpoint == Some(s.copies[who])
    requires outcome == Iterate(s.copies[who], node, size) && outcome.Batch?
    requires s.copies[who].cursor < outcome.next.cursor <= MAX_INT64 && outcome.next.time <= MAX_INT64
    requires InsertAll(s.db.rows, outcome.rows).Some?
    ensures var t := Next(s, Commit(who, node, size));
      && t.db.checkpoint.Some? && t.db.checkpoint.value.cursor == outcome.next.cursor
      && t.batches == s.batches + [Accepted(outcome.blocks, node, outcome.rows)]
  {
  }

  /** A scanner with the current checkpoint moves it to the end of the next batch whenever the node serves that
      batch. */
  lemma ServedScannerAdvances(events: seq<Event>, who: nat, node: Node, size: nat, blocks: seq<Block>)
    requires size > 0 && who in Run(events).copies && Run(events).db.checkpoint == Some(Run(events).copies[who])
    requires Served(Run(events).copies[who], node, size, blocks)
    ensures var s, t := Run(events), Run(events + [Commit(who, node, size)]);
      && t.db.checkpoint.Some? && t.db.checkpoint.value.cursor == s.copies[who].cursor + |blocks|
      && Blocks(t.batches) == Blocks(s.batches) + blocks
  {
    var s := Run(events);
    Snoc(events, Commit(who, node, size));
    StoredRows(events);
    RowsRun(events);
    ServedCommits(s, who, node, size, blocks);
  }

  // ----- a run that skips a transaction -----

  /** A node whose chain, from the genesis block on, has `tx` as the only transaction of block `number`. */
  function OneBlockNode(number: nat, tx: Tx): Node {
    var genesis := Header(0, 0, 0);
    Node(Some(Header(1, 1, 0)), map[0 := genesis], Some(genesis), Some(Header(number, number, 0)),
         map[number := BlockWith(number, tx)], map[Place(number, 0) := Receipt(true, number, 0)])
  }

  /** Block hashes are the block numbers. */
  function BlockWith(number: nat, tx: Tx): Block {
    Block(number, number, if number == 0 then 0 else number - 1, 0, [tx])
  }

  lemma OneBlockCandidates(number: nat, tx: Tx)
    requires Eligible(tx)
    ensures Candidates([BlockWith(number, tx)]) == [Candidate(BlockWith(number, tx), tx, 0)]
  {
    var block := BlockWith(number, tx);
    var blocks := [block];
    var none: seq<Block> := [];
    assert blocks[..|blocks| - 1] == none && Candidates(none) == [];
    assert BlockCandidates(block, 0) == [];
    assert BlockCandidates(block, 1) == [Candidate(block, tx, 0)];
  }

  lemma OneBlockSettles(number: nat, tx: Tx)
    requires Eligible(tx) && tx.sender.Some?
    ensures Collected(OneBlockNode(number, tx), [BlockWith(number, tx)]) ==
      Some([RowOf(Candidate(BlockWith(number, tx), tx, 0))])
  {
    var node, c := OneBlockNode(number, tx), Candidate(BlockWith(number, tx), tx, 0);
    OneBlockCandidates(number, tx);
    var cs := [c];
    var none: seq<Candidate> := [];
    assert Settles(node, c) && AllSettle(node, cs);
    assert cs[..|cs| - 1] == none && Settled(node, none) == [];
    assert Settled(node, cs) == Settled(node, none) + [RowOf(c)] == [RowOf(c)];
  }

  lemma FetchedOne(node: Node, number: nat, block: Block)
    requires BlockAt(node, number) == Some(block)
    ensures Fetched(node, number, number) == Some([block])
  {
    var none: seq<Block> := [];
    assert Fetched(node, number, number - 1) == Some(none);
    assert none + [block] == [block];
  }

  lemma LinkedOne(previous: Hash, block: Block)
    requires block.parent == previous
    ensures Linked(previous, [block])
  {
  }

  lemma OneBlockBatch(number: nat, tx: Tx)
    requires Eligible(tx) && tx.sender.Some? && number >= 1
    ensures Iterate(Checkpoint(1, number - 1, number - 1, 0), OneBlockNode(number, tx), 1) ==
      Batch([BlockWith(number, tx)], [RowOf(Candidate(BlockWith(number, tx), tx, 0))], Checkpoint(1, number, number, 0))
  {
    var node, block := OneBlockNode(number, tx), BlockWith(number, tx);
    assert BatchEnd(number - 1, number, 1) == number && node.finalized == Some(Header(number, number, 0));
    FetchedOne(node, number, block);
    LinkedOne(number - 1, block);
    OneBlockSettles(number, tx);
  }

  lemma InsertOne(rows: seq<Row>, row: Row)
    ensures InsertAll(rows, [row]) == Insert(rows, row)
  {
    var none: seq<Row> := [];
    assert [row][..0] == none && InsertAll(rows, none) == Some(rows);
  }

  /** Committing block `number` on a store whose cursor stands just before it. */
  lemma OneBlockCommit(s: State, number: nat, tx: Tx)
    requires Eligible(tx) && tx.sender.Some? && 1 <= number <= 2
    requires s.db.checkpoint == Some(Checkpoint(1, number - 1, number - 1, 0)) && 0 in s.copies
    requires s.copies[0] == s.db.checkpoint.value
    requires var row := RowOf(Candidate(BlockWith(number, tx), tx, 0)); Insert(s.db.rows, row).Some?
    ensures var node, row := OneBlockNode(number, tx), RowOf(Candidate(BlockWith(number, tx), tx, 0));
      Next(s, Commit(0, node, 1)) ==
        s.(db := Db(Some(Checkpoint(1, number, number, 0)), Insert(s.db.rows, row).value),
           batches := s.batches + [Accepted([BlockWith(number, tx)], node, [row])])
  {
    OneBlockBatch(number, tx);
    InsertOne(s.db.rows, RowOf(Candidate(BlockWith(number, tx), tx, 0)));
  }

  lemma FirstLoad(tx: Tx)
    ensures Next(START, Load(0, OneBlockNode(1, tx))) ==
      State(Db(Some(Checkpoint(1, 0, 0, 0)), []), map[0 := Checkpoint(1, 0, 0, 0)], 0, [])
  {
    var one := OneBlockNode(1, tx);
    assert FindFirst(one, 0, 0, 0) == Some(0);
    assert HeaderAt(one, 0) == Some(Header(0, 0, 0)) && FindFirst(one, 0, 1, 0) == Some(0);
    assert InitialCheckpoint(one) == Some(Checkpoint(1, 0, 0, 0));
  }

  lemma RowsMore(batches: seq<Accepted>, batch: Accepted)
    ensures Rows(batches + [batch]) == Rows(batches) + batch.rows
  {
    assert (batches + [batch])[..|batches|] == batches;
  }

  lemma Snoc(events: seq<Event>, e: Event)
    ensures Run(events + [e]) == Next(Run(events), e)
  {
    assert (events + [e])[..|events|] == events;
  }

  function RowIn(number: nat, tx: Tx): Row
    requires Eligible(tx) && tx.sender.Some?
  {
    RowOf(Candidate(BlockWith(number, tx), tx, 0))
  }

  function BatchIn(number: nat, tx: Tx): Accepted
    requires Eligible(tx) && tx.sender.Some?
  {
    Accepted([BlockWith(number, tx)], OneBlockNode(number, tx), [RowIn(number, tx)])
  }

  lemma FirstCommit(tx: Tx)
    requires Eligible(tx) && tx.sender.Some?
    ensures var node := OneBlockNode(1, tx);
      Next(Next(START, Load(0, node)), Commit(0, node, 1)) ==
      State(Db(Some(Checkpoint(1, 1, 1, 0)), [RowIn(1, tx)]), map[0 := Checkpoint(1, 0, 0, 0)], 0, [BatchIn(1, tx)])
  {
    FirstLoad(tx);
    OneBlockCommit(Next(START, Load(0, OneBlockNode(1, tx))), 1, tx);
  }

  lemma AfterFirst(tx: Tx) returns (events: seq<Event>)
    requires Eligible(tx) && tx.sender.Some?
    ensures events == [Load(0, OneBlockNode(1, tx)), Commit(0, OneBlockNode(1, tx), 1)]
    ensures Run(events) ==
      State(Db(Some(Checkpoint(1, 1, 1, 0)), [RowIn(1, tx)]), map[0 := Checkpoint(1, 0, 0, 0)], 0, [BatchIn(1, tx)])
  {
    var none: seq<Event> := [];
    var load, commit := Load(0, OneBlockNode(1, tx)), Commit(0, OneBlockNode(1, tx), 1);
    FirstCommit(tx);
    Snoc(none, load);
    Snoc(none + [load], commit);
    events := none + [load] + [commit];
  }

  lemma SecondLoad(s: State, node: Node)
    requires s.db.checkpoint.Some?
    ensures Next(s, Load(0, node)) == s.(copies := s.copies[0 := s.db.checkpoint.value])
  {
  }

  lemma SecondCommit(s: State, tx: Tx)
    requires Eligible(tx) && tx.sender.Some?
    requires s == State(Db(Some(Checkpoint(1, 1, 1, 0)), [RowIn(1, tx)]), map[0 := Checkpoint(1, 0, 0, 0)], 0,
                        [BatchIn(1, tx)])
    ensures var node := OneBlockNode(2, tx);
      var t := Next(Next(s, Load(0, node)), Commit(0, node, 1));
      t.db.rows == [RowIn(1, tx)] && t.batches == [BatchIn(1, tx)] + [BatchIn(2, tx)]
  {
    SecondLoad(s, OneBlockNode(2, tx));
    assert s.db.rows[0].hash == RowIn(2, tx).hash;
    OneBlockCommit(Next(s, Load(0, OneBlockNode(2, tx))), 2, tx);
  }

  lemma AfterSecond(tx: Tx) returns (events: seq<Event>)
    requires Eligible(tx) && tx.sender.Some?
    ensures var one, two := OneBlockNode(1, tx), OneBlockNode(2, tx);
      events == [Load(0, one), Commit(0, one, 1), Load(0, two), Commit(0, two, 1)]
    ensures Run(events).db.rows == [RowIn(1, tx)] && Run(events).batches == [BatchIn(1, tx)] + [BatchIn(2, tx)]
  {
    var first := AfterFirst(tx);
    var load, commit := Load(0, OneBlockNode(2, tx)), Commit(0, OneBlockNode(2, tx), 1);
    SecondCommit(Run(first), tx);
    Snoc(first, load);
    Snoc(first + [load], commit);
    events := first + [load] + [commit];
  }

  /** A run of two batches that both contain the same transaction, each settled by its node: both rows are
      collected, and only the first one is stored. */
  lemma RepeatedHashIsSkipped(tx: Tx)
    requires Eligible(tx) && tx.sender.Some?
    ensures var one, two := OneBlockNode(1, tx), OneBlockNode(2, tx);
      var s := Run([Load(0, one), Commit(0, one, 1), Load(0, two), Commit(0, two, 1)]);
      Rows(s.batches) == [RowIn(1, tx), RowIn(2, tx)] && s.db.rows == [RowIn(1, tx)] != Rows(s.batches)
  {
    var events := AfterSecond(tx);
    var s := Run(events);
    var none: seq<Accepted> := [];
    RowsMore(none, BatchIn(1, tx));
    RowsMore([BatchIn(1, tx)], BatchIn(2, tx));
    assert none + [BatchIn(1, tx)] == [BatchIn(1, tx)];
    assert Rows(s.batches) == [RowIn(1, tx), RowIn(2, tx)];
  }
}
