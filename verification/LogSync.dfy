/** internal/managedoo/log_sync.go: fetching contract logs in chunks of blocks and advancing the cursor.
    The proposal and the dispute synchronisation are the same code over different logs. */
module LogSync {
  import opened Prelude

  const MAX_RANGE := 2000
  const TWO_TO_64 := 0x1_0000_0000_0000_0000
  const TWO_TO_63 := 0x8000_0000_0000_0000

  /** A queried range, both ends included. */
  datatype Piece = Piece(first: nat, last: nat)

  /** The range cut into pieces of 2000 blocks, the last one possibly shorter. */
  function Pieces(from: nat, end: nat): seq<Piece>
    decreases end - from
  {
    if from > end then []
    else if end - from < MAX_RANGE then [Piece(from, end)]
    else [Piece(from, from + MAX_RANGE - 1)] + Pieces(from + MAX_RANGE, end)
  }

  lemma {:induction false} PiecesPartition(from: nat, end: nat)
    requires from <= end
    ensures var p := Pieces(from, end);
      && p != [] && p[0].first == from && p[|p| - 1].last == end
      && (forall k :: 0 <= k < |p| ==> p[k].first <= p[k].last < p[k].first + 2000)
      && (forall k, next :: 0 <= k && next == k + 1 < |p| ==>
            p[next].first == p[k].last + 1 == p[k].first + 2000)
    decreases end - from
  {
    if end - from >= MAX_RANGE {
      PiecesPartition(from + MAX_RANGE, end);
      var p, tail := Pieces(from, end), Pieces(from + MAX_RANGE, end);
      assert p == [p[0]] + tail;
      forall k, next | 0 <= k && next == k + 1 < |p| ensures p[next].first == p[k].last + 1 == p[k].first + 2000 {
        assert p[next] == tail[k];
        assert k > 0 ==> p[k] == tail[k - 1];
      }
    }
  }

  /** The logs of a range of blocks. */
  function RangeLogs<L>(chain: nat -> seq<L>, from: nat, end: int): seq<L>
    decreases end - from
  {
    if from > end then [] else chain(from) + RangeLogs(chain, from + 1, end)
  }

  lemma {:induction false} RangeSplit<L>(chain: nat -> seq<L>, from: nat, middle: int, end: int)
    requires from <= middle + 1 && middle <= end
    ensures RangeLogs(chain, from, end) == RangeLogs(chain, from, middle) + RangeLogs(chain, middle + 1, end)
    decreases middle - from
  {
    if from <= middle {
      RangeSplit(chain, from + 1, middle, end);
    }
  }

  /** All logs decoded, or None if one of them cannot be. */
  function ParseAll<L, P>(parse: L -> Option<P>, logs: seq<L>): Option<seq<P>> {
    if logs == [] then Some([])
    else
      var before, last := ParseAll(parse, logs[..|logs| - 1]), parse(logs[|logs| - 1]);
      if before.None? || last.None? then None else Some(before.value + [last.value])
  }

  lemma {:induction false} ParseAllConcat<L, P>(parse: L -> Option<P>, a: seq<L>, b: seq<L>)
    ensures var x, y := ParseAll(parse, a), ParseAll(parse, b);
      ParseAll(parse, a + b) == if x.None? || y.None? then None else Some(x.value + y.value)
  {
    if b == [] {
      assert a + b == a;
      var x := ParseAll(parse, a);
      assert x.Some? ==> x.value + [] == x.value;
    } else {
      var init := b[..|b| - 1];
      ParseAllConcat(parse, a, init);
      assert (a + b)[..|a + b| - 1] == a + init;
      var x, y, last := ParseAll(parse, a), ParseAll(parse, init), parse(b[|b| - 1]);
      if x.Some? && y.Some? && last.Some? {
        assert x.value + y.value + [last.value] == x.value + (y.value + [last.value]);
      }
    }
  }

  /** A node answers a query with the logs of the range, or with an error; it refuses inverted ranges. */
  ghost predicate Truthful<L(!new)>(node: (nat, nat) -> Option<seq<L>>, chain: nat -> seq<L>) {
    forall first: nat, last: nat :: node(first, last).Some? ==>
      first <= last && node(first, last).value == RangeLogs(chain, first, last)
  }

  ghost predicate Answered<L>(node: (nat, nat) -> Option<seq<L>>, pieces: seq<Piece>) {
    forall k :: 0 <= k < |pieces| ==> node(pieces[k].first, pieces[k].last).Some?
  }

  /** The end of the last piece, before it is cut off, does not fit into 64 bits. */
  predicate Wraps(from: nat, end: nat)
    decreases end - from
  {
    from <= end && if end - from < MAX_RANGE then from + MAX_RANGE - 1 >= TWO_TO_64 else Wraps(from + MAX_RANGE, end)
  }

  /** The condition in closed form: the last piece starts at a multiple of 2000 after the first block. */
  lemma {:induction false} WrapsIff(from: nat, end: nat)
    requires from <= end
    ensures Wraps(from, end) <==> from + (end - from) / 2000 * 2000 + 1999 >= 0x1_0000_0000_0000_0000
    decreases end - from
  {
    if end - from >= MAX_RANGE {
      WrapsIff(from + MAX_RANGE, end);
    }
  }

  /** What one unchunked query would give. */
  function Fetched<L, P>(chain: nat -> seq<L>, parse: L -> Option<P>, from: nat, end: nat,
          answered: bool): Option<seq<P>> {
    if Wraps(from, end) || !answered then None else ParseAll(parse, RangeLogs(chain, from, end))
  }

  /** Every range that ends at 2^64 - 2000 or below is safe, and so is every empty one. */
  lemma {:induction false} LowRangesDoNotWrap(from: nat, end: nat)
    requires end <= TWO_TO_64 - MAX_RANGE
    ensures !Wraps(from, end)
    decreases end - from
  {
    if end - from >= MAX_RANGE {
      LowRangesDoNotWrap(from + MAX_RANGE, end);
    }
  }

  // ----- the code -----

  /** Where the loop stands: the pieces before `start` are queried and their logs decoded. */
  ghost predicate Stands<L, P>(chain: nat -> seq<L>, parse: L -> Option<P>, node: (nat, nat) -> Option<seq<L>>,
                               from: nat, start: nat, end: nat, queried: seq<Piece>, out: seq<P>)
  {
    && from <= start <= end && Pieces(from, end) == queried + Pieces(start, end) && Answered(node, queried)
    && ParseAll(parse, RangeLogs(chain, from, start - 1)) == Some(out) && (Wraps(from, end) <==> Wraps(start, end))
  }

  lemma StandsAtStart<L, P>(chain: nat -> seq<L>, parse: L -> Option<P>, node: (nat, nat) -> Option<seq<L>>,
          from: nat, end: nat)
    requires from <= end
    ensures Stands(chain, parse, node, from, from, end, [], [])
  {
    assert [] + Pieces(from, end) == Pieces(from, end);
  }

  /** The piece in work is the first one of the rest. */
  lemma PieceInWork(from: nat, start: nat, end: nat, queried: seq<Piece>, last: nat)
    requires from <= start <= end && Pieces(from, end) == queried + Pieces(start, end)
    requires last == if start + MAX_RANGE - 1 > end then end else start + MAX_RANGE - 1
    ensures |queried| < |Pieces(from, end)| && Pieces(from, end)[|queried|] == Piece(start, last)
    ensures Pieces(from, end) == queried + [Piece(start, last)] + Pieces(last + 1, end)
  {
    FirstPiece(start, end, last);
    var rest := Pieces(last + 1, end);
    assert queried + ([Piece(start, last)] + rest) == queried + [Piece(start, last)] + rest;
  }

  lemma FirstPiece(start: nat, end: nat, last: nat)
    requires start <= end && last == if start + MAX_RANGE - 1 > end then end else start + MAX_RANGE - 1
    ensures Pieces(start, end) == [Piece(start, last)] + Pieces(last + 1, end)
  {
  }

  lemma LogsFail<L, P>(chain: nat -> seq<L>, parse: L -> Option<P>, from: nat, start: nat, last: nat, end: nat)
    requires from <= start <= last <= end && ParseAll(parse, RangeLogs(chain, start, last)).None?
    ensures ParseAll(parse, RangeLogs(chain, from, end)).None?
  {
    RangeSplit(chain, from, last, end);
    RangeSplit(chain, from, start - 1, last);
    ParseAllConcat(parse, RangeLogs(chain, from, start - 1), RangeLogs(chain, start, last));
    ParseAllConcat(parse, RangeLogs(chain, from, last), RangeLogs(chain, last + 1, end));
  }

  lemma LogsGrow<L, P>(chain: nat -> seq<L>, parse: L -> Option<P>, from: nat, start: nat, last: nat)
    requires from <= start <= last
    ensures var x, y :=
      ParseAll(parse, RangeLogs(chain, from, start - 1)), ParseAll(parse, RangeLogs(chain, start, last));
      x.Some? && y.Some? ==> ParseAll(parse, RangeLogs(chain, from, last)) == Some(x.value + y.value)
  {
    RangeSplit(chain, from, start - 1, last);
    ParseAllConcat(parse, RangeLogs(chain, from, start - 1), RangeLogs(chain, start, last));
  }

  /** The inner loop over the logs of one answer */
  method DecodeAll<L, P>(parse: L -> Option<P>, logs: seq<L>) returns (r: Option<seq<P>>)
    ensures r == ParseAll(parse, logs)
  {
    var out: seq<P> := [];
    for i := 0 to |logs|
      invariant ParseAll(parse, logs[..i]) == Some(out)
    {
      assert logs[..i + 1][..i] == logs[..i];
      var parsed := parse(logs[i]);
      if parsed.None? {
        ParseAllConcat(parse, logs[..i + 1], logs[i + 1..]);
        assert logs == logs[..i + 1] + logs[i + 1..];
        return None;
      }
      out := out + [parsed.value];
    }
    assert logs[..|logs|] == logs;
    r := Some(out);
  }

  /** The end of the piece at `start`, in 64-bit arithmetic. */
  function PieceEnd(start: nat, end: nat): nat {
    var last := (start + MAX_RANGE - 1) % TWO_TO_64;
    if last > end then end else last
  }

  /** A refused query means that the end wrapped or that the node failed. */
  lemma RefusedFails<L(!new), P>(chain: nat -> seq<L>, parse: L -> Option<P>, node: (nat, nat) -> Option<seq<L>>,
                                 from: nat, start: nat, end: nat, queried: seq<Piece>, out: seq<P>)
    requires Stands(chain, parse, node, from, start, end, queried, out) && end < TWO_TO_64
    requires node(start, PieceEnd(start, end)).None?
    ensures Wraps(from, end) || !Answered(node, Pieces(from, end))
  {
    if start + MAX_RANGE - 1 < TWO_TO_64 {
      PieceInWork(from, start, end, queried, PieceEnd(start, end));
    }
  }

  /** An answer comes only for a range that did not wrap. */
  lemma AnswerIsInOrder<L(!new)>(chain: nat -> seq<L>, node: (nat, nat) -> Option<seq<L>>, start: nat, end: nat)
    requires Truthful(node, chain) && start <= end < TWO_TO_64 && node(start, PieceEnd(start, end)).Some?
    ensures var last := PieceEnd(start, end);
      && start <= last <= end && last == (if start + MAX_RANGE - 1 > end then end else start + MAX_RANGE - 1)
      && node(start, last).value == RangeLogs(chain, start, last) && start + MAX_RANGE - 1 < TWO_TO_64
  {
  }

  lemma StandsNext<L(!new), P>(chain: nat -> seq<L>, parse: L -> Option<P>, node: (nat, nat) -> Option<seq<L>>,
                               from: nat, start: nat, end: nat, queried: seq<Piece>, out: seq<P>)
    requires Truthful(node, chain) && Stands(chain, parse, node, from, start, end, queried, out) && end < TWO_TO_64
    requires node(start, PieceEnd(start, end)).Some? && ParseAll(parse, node(start, PieceEnd(start, end)).value).Some?
    ensures var last := PieceEnd(start, end);
      var more, all := queried + [Piece(start, last)], out + ParseAll(parse, node(start, last).value).value;
      if last == end
      then
        && !Wraps(from, end) && Answered(node, Pieces(from, end)) && more == Pieces(from, end)
        && ParseAll(parse, RangeLogs(chain, from, end)) == Some(all)
      else last < end && Stands(chain, parse, node, from, last + 1, end, more, all)
  {
    var last := PieceEnd(start, end);
    AnswerIsInOrder(chain, node, start, end);
    PieceInWork(from, start, end, queried, last);
    LogsGrow(chain, parse, from, start, last);
    var more := queried + [Piece(start, last)];
    assert Answered(node, more);
    if last == end {
      assert Pieces(last + 1, end) == [] && more + [] == more;
    }
  }

  /** One turn of the loop: the end of the piece and the logs so far. */
  method FetchPiece<L(!new), P>(node: (nat, nat) -> Option<seq<L>>, parse: L -> Option<P>, start: nat, end: nat,
          out: seq<P>, ghost chain: nat -> seq<L>, ghost from: nat, ghost queried: seq<Piece>)
    returns (last: nat, more: Option<seq<P>>)
    requires Truthful(node, chain) && end < TWO_TO_64 && Stands(chain, parse, node, from, start, end, queried, out)
    ensures more.None? ==> Fetched(chain, parse, from, end, Answered(node, Pieces(from, end))).None?
    ensures more.Some? ==> start <= last <= end
    ensures more.Some? && last == end ==>
      Fetched(chain, parse, from, end, Answered(node, Pieces(from, end))) == more
        && queried + [Piece(start, last)] == Pieces(from, end)
    ensures more.Some? && last < end ==>
      Stands(chain, parse, node, from, last + 1, end, queried + [Piece(start, last)], more.value)
  {
    last := (start + MAX_RANGE - 1) % TWO_TO_64;
    if last > end {
      last := end;
    }
    var logs := node(start, last);
    if logs.None? {
      RefusedFails(chain, parse, node, from, start, end, queried, out);
      return last, None;
    }
    AnswerIsInOrder(chain, node, start, end);
    var parsed := DecodeAll(parse, logs.value);
    if parsed.None? {
      LogsFail(chain, parse, from, start, last, end);
      return last, None;
    }
    StandsNext(chain, parse, node, from, start, end, queried, out);
    more := Some(out + parsed.value);
  }

  /** fetchManagedOOProposePriceLogs: on success the queried ranges are the pieces of the range, and the
      result is that of one query for the whole range. It succeeds exactly when no end wraps, the node
      answers, and the logs can be decoded. */
  method Fetch<L(!new), P>(node: (nat, nat) -> Option<seq<L>>, parse: L -> Option<P>, from: nat, end: nat,
          ghost chain: nat -> seq<L>)
    returns (r: Option<seq<P>>, ghost queried: seq<Piece>)
    requires Truthful(node, chain) && from < TWO_TO_64 && end < TWO_TO_64
    ensures r == Fetched(chain, parse, from, end, Answered(node, Pieces(from, end)))
    ensures r.Some? ==> queried == Pieces(from, end)
  {
    queried := [];
    var start, out := from, [];
    if from <= end {
      StandsAtStart(chain, parse, node, from, end);
    } else {
      EmptyRange(chain, parse, from, end, Answered(node, Pieces(from, end)));
    }
    while start <= end
      invariant from <= end ==> start <= end && Stands(chain, parse, node, from, start, end, queried, out)
      invariant from > end ==> start == from && queried == Pieces(from, end)
      invariant from > end ==> Fetched(chain, parse, from, end, Answered(node, Pieces(from, end))) == Some(out)
      decreases end - start
    {
      var last, more := FetchPiece(node, parse, start, end, out, chain, from, queried);
      if more.None? {
        return None, queried;
      }
      queried := queried + [Piece(start, last)];
      if last == end {
        return more, queried;
      }
      assert (last + 1) % TWO_TO_64 == last + 1;
      out, start := more.value, (last + 1) % TWO_TO_64;
    }
    r := Some(out);
  }

  lemma EmptyRange<L, P>(chain: nat -> seq<L>, parse: L -> Option<P>, from: nat, end: nat, answered: bool)
    requires from > end
    ensures Pieces(from, end) == [] && (answered ==> Fetched(chain, parse, from, end, answered) == Some([]))
  {
  }

  /** Near the top of the 64-bit numbers even a range of one block is lost. */
  lemma TopBlockWraps(from: nat)
    requires TWO_TO_64 - MAX_RANGE < from < TWO_TO_64
    ensures Wraps(from, from)
  {
  }
}

/** The cursor over whole runs of synchronisations. */
module LogSyncRuns {
  import opened Prelude
  import opened LogSync

  /** `first` is the block at which the cursor was initialised. */
  datatype State<P> = State(cursor: Option<nat>, first: nat, ingested: seq<P>)

  /** The head the node reports, whether it answers the log queries, and how the write to the store ends. */
  datatype Event = Sync(head: Option<nat>, answered: bool, delivery: Delivery)

  /** The store keeps block numbers in signed 64-bit columns. */
  predicate Storable(block: nat) {
    block < TWO_TO_63
  }

  function Next<L, P>(chain: nat -> seq<L>, parse: L -> Option<P>, s: State<P>, e: Event): State<P> {
    if e.head.None? || e.head.value >= TWO_TO_64 || e.delivery.NotReached? then s
    else
      var head := e.head.value;
      if s.cursor.None? then (if Storable(head) then State(Some(head), head, s.ingested) else s)
      else if head <= s.cursor.value then s
      else
        var logs := Fetched(chain, parse, s.cursor.value + 1, head, e.answered);
        if logs.None? || !Storable(head) then s else s.(cursor := Some(head), ingested := s.ingested + logs.value)
  }

  function Run<L, P>(chain: nat -> seq<L>, parse: L -> Option<P>, events: seq<Event>): State<P> {
    if events == [] then State(None, 0, [])
    else Next(chain, parse, Run(chain, parse, events[..|events| - 1]), events[|events| - 1])
  }

  class Syncer<P> {
    var cursor: Option<nat>
    var ingested: seq<P>

    /** syncManagedOOProposePriceLogs. The transaction commits unless the store is not reached; the caller
        sees an error also when the reply is lost. */
    method Sync<L(!new)>(head: Option<nat>, node: (nat, nat) -> Option<seq<L>>, parse: L -> Option<P>,
            delivery: Delivery, ghost chain: nat -> seq<L>, ghost first: nat)
      requires Truthful(node, chain) && (cursor.Some? ==> Storable(cursor.value))
      requires head.Some? ==> head.value < TWO_TO_64
      modifies this
      ensures cursor.Some? ==> Storable(cursor.value)
      ensures
        var s := State(old(cursor), first, old(ingested));
        var answered := old(cursor).Some? && head.Some? && Answered(node, Pieces(old(cursor).value + 1, head.value));
        var t := Next(chain, parse, s, Event.Sync(head, answered, delivery));
        cursor == t.cursor && ingested == t.ingested
    {
      if head.None? {
        return;
      }
      var latest := head.value;
      if cursor.None? {
        if Storable(latest) && !delivery.NotReached? {
          cursor := Some(latest);
        }
        return;
      }
      if latest <= cursor.value {
        return;
      }
      var logs, queried := Fetch(node, parse, cursor.value + 1, latest, chain);
      if logs.Some? && Storable(latest) && !delivery.NotReached? {
        cursor, ingested := Some(latest), ingested + logs.value;
      }
    }
  }

  /** Exactly the logs after the initial block up to the cursor have been ingested, in order. */
  ghost predicate Exact<L, P>(chain: nat -> seq<L>, parse: L -> Option<P>, s: State<P>) {
    if s.cursor.None? then s.ingested == []
    else
      && s.first <= s.cursor.value && Storable(s.cursor.value)
      && ParseAll(parse, RangeLogs(chain, s.first + 1, s.cursor.value)) == Some(s.ingested)
  }

  lemma ExactNext<L, P>(chain: nat -> seq<L>, parse: L -> Option<P>, s: State<P>, e: Event)
    requires Exact(chain, parse, s)
    ensures Exact(chain, parse, Next(chain, parse, s, e))
  {
    if s.cursor.Some? && e.head.Some? && e.head.value > s.cursor.value {
      LogsGrow(chain, parse, s.first + 1, s.cursor.value + 1, e.head.value);
    }
  }

  lemma {:induction false} IngestedExactly<L, P>(chain: nat -> seq<L>, parse: L -> Option<P>, events: seq<Event>)
    ensures Exact(chain, parse, Run(chain, parse, events))
  {
    if events != [] {
      IngestedExactly(chain, parse, events[..|events| - 1]);
      ExactNext(chain, parse, Run(chain, parse, events[..|events| - 1]), events[|events| - 1]);
    }
  }

  /** A synchronisation that learns a head the store can keep, and reaches the store. */
  ghost predicate Reaches(e: Event) {
    e.head.Some? && e.head.value < 0x8000_0000_0000_0000 && !e.delivery.NotReached?
  }

  /** Before the first such synchronisation there is no cursor. */
  lemma {:induction false} NoCursorYet<L, P>(chain: nat -> seq<L>, parse: L -> Option<P>, events: seq<Event>)
    requires forall k :: 0 <= k < |events| ==> !Reaches(events[k])
    ensures Run(chain, parse, events) == State(None, 0, [])
  {
    if events != [] {
      NoCursorYet(chain, parse, events[..|events| - 1]);
    }
  }

  /** The first one puts the cursor at the reported head and ingests nothing; that block stays the first. */
  lemma FirstHeadIsTheStart<L, P>(chain: nat -> seq<L>, parse: L -> Option<P>, events: seq<Event>, k: nat)
    requires k < |events| && Reaches(events[k]) && forall j :: 0 <= j < k ==> !Reaches(events[j])
    ensures var head := events[k].head.value;
      Run(chain, parse, events[..k + 1]) == State(Some(head), head, []) && Run(chain, parse, events).first == head
  {
    NoCursorYet(chain, parse, events[..k]);
    assert events[..k + 1][..k] == events[..k];
    CursorNeverRegresses(chain, parse, events[..k + 1], events[k + 1..]);
    assert events[..k + 1] + events[k + 1..] == events;
  }

  /** The cursor never goes back, whatever heads the node reports, and its first block stays. */
  lemma {:induction false} CursorNeverRegresses<L, P>(chain: nat -> seq<L>, parse: L -> Option<P>,
          events: seq<Event>, more: seq<Event>)
    requires Run(chain, parse, events).cursor.Some?
    ensures var s, t := Run(chain, parse, events), Run(chain, parse, events + more);
      t.cursor.Some? && s.cursor.value <= t.cursor.value && s.first == t.first && s.ingested <= t.ingested
    decreases |more|
  {
    if more == [] {
      assert events + more == events;
    } else {
      var init := more[..|more| - 1];
      assert (events + more)[..|events + more| - 1] == events + init;
      CursorNeverRegresses(chain, parse, events, init);
    }
  }

  /** A synchronisation that reaches the store catches up with a newer head whenever its logs can be
      fetched: the 64-bit arithmetic never stands in the way of a head the store can keep. */
  lemma CatchesUp<L, P>(chain: nat -> seq<L>, parse: L -> Option<P>, s: State<P>, head: nat)
    requires s.cursor.Some? && s.cursor.value < head && Storable(head)
    ensures var logs := ParseAll(parse, RangeLogs(chain, s.cursor.value + 1, head));
      Next(chain, parse, s, Sync(Some(head), true, Delivered)) ==
        if logs.None? then s else s.(cursor := Some(head), ingested := s.ingested + logs.value)
  {
    LowRangesDoNotWrap(s.cursor.value + 1, head);
  }
}
