/** internal/bscinbound/scanner.go and store/store.go: choosing the start block, committing a batch
    and one whole scanner iteration. */
module InboundStore {
  import opened Prelude
  import opened InboundScanner

  // ----- the first block at or after a timestamp -----

  function FindFirst(node: Node, low: nat, high: nat, target: nat): Option<nat>
    decreases high - low
  {
    if low >= high then Some(low)
    else
      var mid := low + (high - low) / 2;
      match HeaderAt(node, mid)
      case None => None
      case Some(header) =>
        if header.time < target then FindFirst(node, mid + 1, high, target) else FindFirst(node, low, mid, target)
  }

  method FindFirstBlockAtOrAfter(node: Node, high: nat, target: nat) returns (r: Option<nat>)
    ensures r == FindFirst(node, 0, high, target)
  {
    var low: nat, top: nat := 0, high;
    while low < top
      invariant low <= top <= high
      invariant FindFirst(node, 0, high, target) == FindFirst(node, low, top, target)
    {
      var mid := low + (top - low) / 2;
      var header := HeaderAt(node, mid);
      if header.None? {
        return None;
      }
      if header.value.time < target {
        low := mid + 1;
      } else {
        top := mid;
      }
    }
    return Some(low);
  }

  predicate Early(node: Node, number: nat, target: nat) {
    number in node.headers && node.headers[number].number == number && node.headers[number].time < target
  }

  predicate Late(node: Node, number: nat, target: nat) {
    number in node.headers && node.headers[number].number == number && node.headers[number].time >= target
  }

  /** Whatever the node answers, the result sits on a boundary: the block before it was seen to be
      early, and the block itself was seen to be late unless it is the upper end. */
  lemma {:induction false} FindFirstBoundary(node: Node, low: nat, high: nat, top: nat, target: nat)
    requires low <= high <= top
    requires low == 0 || Early(node, low - 1, target)
    requires high == top || Late(node, high, target)
    requires FindFirst(node, low, high, target).Some?
    ensures var r := FindFirst(node, low, high, target).value;
      low <= r <= high && (r == 0 || Early(node, r - 1, target)) && (r == top || Late(node, r, target))
    decreases high - low
  {
    if low < high {
      var mid := low + (high - low) / 2;
      if HeaderAt(node, mid).value.time < target {
        FindFirstBoundary(node, mid + 1, high, top, target);
      } else {
        FindFirstBoundary(node, low, mid, top, target);
      }
    }
  }

  function Target(finalized: Header): nat {
    if finalized.time > LOOKBACK_SECONDS then finalized.time - LOOKBACK_SECONDS else 0
  }

  /** The checkpoint that initializeCheckpoint proposes: the cursor stands just before the start block. */
  function InitialCheckpoint(node: Node): Option<Checkpoint> {
    if node.lookback.None? || node.lookback.value.number == 0 then None
    else
      var finalized := node.lookback.value;
      match FindFirst(node, 0, finalized.number, Target(finalized))
      case None => None
      case Some(found) =>
        var start := if found == 0 then 1 else found;
        match PreviousHeader(node, start - 1)
        case None => None
        case Some(previous) => Some(Checkpoint(start, start - 1, previous.hash, previous.time))
  }

  /** Under block times that never fall, the start block is the least block no older than thirty days before the
      finalized one (block 1 when that is the genesis block), and the cursor stands on the block before it. */
  lemma StartIsLeast(node: Node, times: seq<nat>)
    requires InitialCheckpoint(node).Some?
    requires var top := node.lookback.value.number;
      && |times| == top + 1 && times[top] == node.lookback.value.time
      && (forall n :: 0 <= n < top && HeaderAt(node, n).Some? ==> HeaderAt(node, n).value.time == times[n])
    requires forall i, j :: 0 <= i <= j < |times| ==> times[i] <= times[j]
    ensures var cp, target := InitialCheckpoint(node).value, node.lookback.value.time - 30 * 24 * 3600;
      && 1 <= cp.start <= node.lookback.value.number && cp.cursor == cp.start - 1
      && times[cp.start] >= target
      && (forall n :: 1 <= n < cp.start ==> times[n] < target)
      && (cp.start > 1 ==> times[0] < target)
      && node.previous == Some(Header(cp.cursor, cp.hash, cp.time))
  {
    var top, target := node.lookback.value.number, Target(node.lookback.value);
    FindFirstBoundary(node, 0, top, top, target);
    var found := FindFirst(node, 0, top, target).value;
    assert found > 0 ==> times[found - 1] < target;
    assert times[found] >= target;
  }

  // ----- the store -----

  predicate HasHash(rows: seq<Row>, hash: Hash) {
    exists k :: 0 <= k < |rows| && rows[k].hash == hash
  }

  predicate HasPosition(rows: seq<Row>, number: nat, index: nat) {
    exists k :: 0 <= k < |rows| && rows[k].number == number && rows[k].index == index
  }

  predicate Storable(row: Row) {
    row.number <= MAX_INT64 && row.time <= MAX_INT64 && row.index <= MAX_INT64 && row.value > 0
  }

  /** INSERT ... ON CONFLICT (transaction_hash) DO NOTHING; a taken position violates its own constraint. */
  function Insert(rows: seq<Row>, row: Row): Option<seq<Row>> {
    if !Storable(row) then None
    else if HasHash(rows, row.hash) then Some(rows)
    else if HasPosition(rows, row.number, row.index) then None
    else Some(rows + [row])
  }

  /** A row is refused if it does not fit its columns, or if its position but not its hash is taken; it is skipped if
      its hash is stored, and appended otherwise. */
  lemma InsertIff(rows: seq<Row>, row: Row)
    ensures var r := Insert(rows, row);
      var fits := row.number <= 0x7fff_ffff_ffff_ffff && row.time <= 0x7fff_ffff_ffff_ffff
                  && row.index <= 0x7fff_ffff_ffff_ffff && row.value > 0;
      var known := exists x :: x in rows && x.hash == row.hash;
      var taken := exists x :: x in rows && x.number == row.number && x.index == row.index;
      && (r.None? <==> !fits || (!known && taken))
      && (r.Some? ==> r.value == if known then rows else rows + [row])
  {
    if x :| x in rows && x.hash == row.hash {
      var k :| 0 <= k < |rows| && rows[k] == x;
    }
    if x :| x in rows && x.number == row.number && x.index == row.index {
      var k :| 0 <= k < |rows| && rows[k] == x;
    }
  }

  function InsertAll(rows: seq<Row>, more: seq<Row>): Option<seq<Row>> {
    if more == [] then Some(rows)
    else match InsertAll(rows, more[..|more| - 1])
         case None => None
         case Some(done) => Insert(done, more[|more| - 1])
  }

  function InitializeSpec(db: Db, proposed: Checkpoint): Option<Db> {
    if proposed.start > MAX_INT64 || proposed.cursor > MAX_INT64 || proposed.time > MAX_INT64 then None
    else if db.checkpoint.Some? then Some(db)
    else Some(db.(checkpoint := Some(proposed)))
  }

  /** One database transaction: it takes effect only if the stored cursor is still the expected one. */
  function CommitSpec(db: Db, expected: nat, rows: seq<Row>, next: Checkpoint): Option<Db> {
    if next.cursor <= expected || next.cursor > MAX_INT64 || next.time > MAX_INT64 then None
    else match InsertAll(db.rows, rows)
         case None => None
         case Some(stored) =>
           if db.checkpoint.None? || db.checkpoint.value.cursor != expected then None
           else Some(Db(Some(next.(start := db.checkpoint.value.start)), stored))
  }

  class Store {
    var checkpoint: Option<Checkpoint>
    var rows: seq<Row>

    function View(): Db
      reads this
    {
      Db(checkpoint, rows)
    }

    constructor ()
      ensures View() == Db(None, [])
    {
      checkpoint, rows := None, [];
    }

    method InitializeCheckpoint(proposed: Checkpoint) returns (stored: Option<Checkpoint>)
      modifies this
      ensures stored.Some? <==>
        proposed.start <= MAX_INT64 && proposed.cursor <= MAX_INT64 && proposed.time <= MAX_INT64
      ensures stored.Some? ==> stored == checkpoint
      ensures stored.Some? ==> stored == if old(checkpoint).Some? then old(checkpoint) else Some(proposed)
      ensures stored.None? ==> checkpoint == old(checkpoint)
      ensures rows == old(rows)
      ensures var r := InitializeSpec(old(View()), proposed); stored.Some? == r.Some? && (r.Some? ==> View() == r.value)
    {
      if proposed.start > MAX_INT64 || proposed.cursor > MAX_INT64 || proposed.time > MAX_INT64 {
        return None;
      }
      if checkpoint.None? {
        checkpoint := Some(proposed);
      }
      return checkpoint;
    }

    method CommitBatch(expected: nat, batch: seq<Row>, next: Checkpoint) returns (ok: bool)
      modifies this
      ensures var r := CommitSpec(old(View()), expected, batch, next);
        ok == r.Some? && View() == if ok then r.value else old(View())
    {
      if next.cursor <= expected || next.cursor > MAX_INT64 || next.time > MAX_INT64 {
        return false;
      }
      var written := rows;
      for k := 0 to |batch|
        invariant InsertAll(rows, batch[..k]) == Some(written)
      {
        assert batch[..k + 1][..k] == batch[..k];
        var inserted := Insert(written, batch[k]);
        if inserted.None? {
          InsertAllStops(rows, batch, k + 1);
          return false;
        }
        written := inserted.value;
      }
      assert batch[..|batch|] == batch;
      if checkpoint.None? || checkpoint.value.cursor != expected {
        return false;
      }
      checkpoint, rows := Some(next.(start := checkpoint.value.start)), written;
      return true;
    }
  }

  lemma {:induction false} InsertAllStops(rows: seq<Row>, more: seq<Row>, k: nat)
    requires k <= |more| && InsertAll(rows, more[..k]).None?
    ensures InsertAll(rows, more).None?
    decreases |more|
  {
    if k < |more| {
      var init := more[..|more| - 1];
      assert init[..k] == more[..k];
      InsertAllStops(rows, init, k);
    } else {
      assert more[..k] == more;
    }
  }

  // ----- one iteration -----

  datatype Outcome = Failed | Idle | Batch(blocks: seq<Block>, rows: seq<Row>, next: Checkpoint)

  function BatchEnd(cursor: nat, finalized: nat, size: nat): nat
    requires cursor < finalized && size > 0
  {
    if finalized - cursor > size then cursor + size else finalized
  }

  /** What an iteration does after reading checkpoint `cp`, up to the commit. */
  function Iterate(cp: Checkpoint, node: Node, size: nat): Outcome
    requires size > 0
  {
    if node.finalized.None? then Failed
    else if cp.cursor >= node.finalized.value.number then Idle
    else
      match Fetched(node, cp.cursor + 1, BatchEnd(cp.cursor, node.finalized.value.number, size))
      case None => Failed
      case Some(blocks) =>
        if blocks == [] || !Linked(cp.hash, blocks) then Failed
        else match Collected(node, blocks)
             case None => Failed
             case Some(rows) =>
               var last := blocks[|blocks| - 1];
               Batch(blocks, rows, Checkpoint(cp.start, last.number, last.hash, last.time))
  }

  lemma {:induction false} FetchedShape(node: Node, start: nat, end: int)
    requires Fetched(node, start, end).Some?
    ensures var blocks := Fetched(node, start, end).value;
      && |blocks| == (if end < start then 0 else end - start + 1)
      && forall k :: 0 <= k < |blocks| ==> blocks[k].number == start + k && BlockAt(node, start + k) == Some(blocks[k])
    decreases end - start
  {
    if start <= end {
      FetchedShape(node, start, end - 1);
    }
  }

  /** The database after checkpoint initialization, if one was needed and possible. */
  function Initialized(db: Db, node: Node): Db {
    if db.checkpoint.Some? then db
    else match InitialCheckpoint(node)
         case None => db
         case Some(proposed) => if InitializeSpec(db, proposed).Some? then InitializeSpec(db, proposed).value else db
  }

  ghost predicate Committed(db: Db, node: Node, size: nat)
    requires size > 0
  {
    var ready := Initialized(db, node);
    ready.checkpoint.Some?
    && var outcome := Iterate(ready.checkpoint.value, node, size);
       outcome.Batch? && CommitSpec(ready, ready.checkpoint.value.cursor, outcome.rows, outcome.next).Some?
  }

  ghost function AfterIteration(db: Db, node: Node, size: nat): Db
    requires size > 0
  {
    var ready := Initialized(db, node);
    if Committed(db, node, size) then
      var outcome := Iterate(ready.checkpoint.value, node, size);
      CommitSpec(ready, ready.checkpoint.value.cursor, outcome.rows, outcome.next).value
    else ready
  }

  /** initializeCheckpoint, when the store has no checkpoint yet. */
  method EnsureCheckpoint(store: Store, node: Node) returns (cp: Option<Checkpoint>)
    modifies store
    ensures store.View() == Initialized(old(store.View()), node)
    ensures cp == store.checkpoint
  {
    if store.checkpoint.Some? {
      return store.checkpoint;
    }
    if node.lookback.None? || node.lookback.value.number == 0 {
      return None;
    }
    var found := FindFirstBlockAtOrAfter(node, node.lookback.value.number, Target(node.lookback.value));
    if found.None? {
      return None;
    }
    var start := if found.value == 0 then 1 else found.value;
    var previous := PreviousHeader(node, start - 1);
    if previous.None? {
      return None;
    }
    cp := store.InitializeCheckpoint(Checkpoint(start, start - 1, previous.value.hash, previous.value.time));
  }

  /** The body of runOnce between reading the checkpoint and the commit. */
  method ScanBatch(cp: Checkpoint, node: Node, size: nat) returns (outcome: Outcome)
    requires size > 0
    ensures outcome == Iterate(cp, node, size)
  {
    if node.finalized.None? {
      return Failed;
    }
    if cp.cursor >= node.finalized.value.number {
      return Idle;
    }
    var end := BatchEnd(cp.cursor, node.finalized.value.number, size);
    var blocks := FetchBlocks(node, cp.cursor + 1, end);
    if blocks.None? {
      return Failed;
    }
    FetchedShape(node, cp.cursor + 1, end);
    var linked := VerifyBlockContinuity(cp.hash, blocks.value);
    if !linked {
      return Failed;
    }
    var rows := CollectTransactions(node, blocks.value);
    if rows.None? {
      return Failed;
    }
    var last := blocks.value[|blocks.value| - 1];
    return Batch(blocks.value, rows.value, Checkpoint(cp.start, last.number, last.hash, last.time));
  }

  /** runOnce: read or initialize the checkpoint, scan one batch, commit it. */
  method RunOnce(store: Store, node: Node, size: nat) returns (processed: bool)
    requires size > 0
    modifies store
    ensures store.View() == AfterIteration(old(store.View()), node, size)
    ensures processed <==> Committed(old(store.View()), node, size)
  {
    var cp := EnsureCheckpoint(store, node);
    if cp.None? {
      return false;
    }
    var outcome := ScanBatch(cp.value, node, size);
    if !outcome.Batch? {
      return false;
    }
    processed := store.CommitBatch(cp.value.cursor, outcome.rows, outcome.next);
  }
}
