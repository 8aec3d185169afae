/** internal/notification/poller.go: the Telegram update loop over a durable offset. */
module Poller {
  import opened Prelude

  /** What one call of the loop experiences: the context was cancelled before it, or it ends as
      `delivery` says; `batch` is what a poll returns. */
  datatype Answer = Answer(cancelled: bool, delivery: Delivery, batch: seq<int>)

  /** Which call comes next. `index` points to the update in work. */
  datatype Stage =
    | Stopped
    | Polling(next: int)
    | Recording(next: int, batch: seq<int>)
    | Handling(next: int, batch: seq<int>, index: nat)
    | Advancing(next: int, batch: seq<int>, index: nat)

  /** An update that was handled successfully, and the durable offset at that moment. */
  datatype Handled = Handled(id: int, offset: int)

  datatype State = State(stage: Stage, durable: int, handled: seq<Handled>)

  /** Updates below the next identifier are passed over; after the last update comes a poll. */
  function From(next: int, batch: seq<int>, index: nat): Stage
    requires index <= |batch|
    decreases |batch| - index
  {
    if index == |batch| then Polling(next)
    else if batch[index] < next then From(next, batch, index + 1)
    else Handling(next, batch, index)
  }

  function Max(a: int, b: int): int {
    if a < b then b else a
  }

  /** A stage whose index, if any, points into its batch. */
  predicate Proper(stage: Stage) {
    (stage.Handling? || stage.Advancing?) ==> stage.index < |stage.batch|
  }

  function Call(s: State, a: Answer): State
    requires Proper(s.stage)
  {
    if s.stage.Stopped? || a.cancelled then s.(stage := Stopped)
    else
      match s.stage
      case Polling(next) => if a.delivery.Delivered? then s.(stage := Recording(next, a.batch)) else s
      case Recording(next, batch) => s.(stage := if a.delivery.Delivered? then From(next, batch, 0) else Polling(next))
      case Handling(next, batch, index) =>
        if !a.delivery.Delivered? then s
        else
          s.(stage := Advancing(next, batch, index), handled := s.handled + [Handled(batch[index], s.durable)])
      case Advancing(next, batch, index) =>
        var committed := s.(durable := Max(s.durable, batch[index] + 1));
        if a.delivery.NotReached? then s
        else if a.delivery.ReplyLost? then committed
        else committed.(stage := From(batch[index] + 1, batch, index + 1))
      case Stopped => s
  }

  lemma {:induction false} FromIsProper(next: int, batch: seq<int>, index: nat)
    requires index <= |batch|
    ensures Proper(From(next, batch, index))
    decreases |batch| - index
  {
    if index < |batch| && batch[index] < next {
      FromIsProper(next, batch, index + 1);
    }
  }

  lemma CallIsProper(s: State, a: Answer)
    requires Proper(s.stage)
    ensures Proper(Call(s, a).stage)
  {
    if s.stage.Recording? {
      FromIsProper(s.stage.next, s.stage.batch, 0);
    } else if s.stage.Advancing? {
      FromIsProper(s.stage.batch[s.stage.index] + 1, s.stage.batch, s.stage.index + 1);
    }
  }

  function Calls(s: State, answers: seq<Answer>): (t: State)
    requires Proper(s.stage)
    ensures Proper(t.stage)
  {
    if answers == [] then s
    else
      var before := Calls(s, answers[..|answers| - 1]);
      CallIsProper(before, answers[|answers| - 1]);
      Call(before, answers[|answers| - 1])
  }

  lemma {:induction false} StoppedStays(s: State, answers: seq<Answer>, k: nat)
    requires Proper(s.stage) && k <= |answers| && Calls(s, answers[..k]).stage.Stopped?
    ensures Calls(s, answers) == Calls(s, answers[..k])
    decreases |answers|
  {
    if k == |answers| {
      assert answers[..k] == answers;
    } else {
      assert answers[..|answers| - 1][..k] == answers[..k];
      StoppedStays(s, answers[..|answers| - 1], k);
    }
  }

  /** The loop, run against the answers of its surroundings until they end or it stops. */
  class TelegramPoller {
    var durable: int
    var handled: seq<Handled>

    method Run(nextUpdateId: int, answers: seq<Answer>)
      modifies this
      ensures var t := Calls(State(Polling(nextUpdateId), old(durable), old(handled)), answers);
        durable == t.durable && handled == t.handled
    {
      ghost var start := State(Polling(nextUpdateId), durable, handled);
      var next, k := nextUpdateId, 0;
      while k < |answers|
        invariant 0 <= k <= |answers| && Calls(start, answers[..k]) == State(Polling(next), durable, handled)
      {
        assert answers[..k + 1][..k] == answers[..k];
        var polled := answers[k];
        k := k + 1;
        if polled.cancelled {
          StoppedStays(start, answers, k);
          return;
        }
        if !polled.delivery.Delivered? {
          continue;
        }
        if k == |answers| {
          break;
        }
        assert answers[..k + 1][..k] == answers[..k];
        var recorded := answers[k];
        k := k + 1;
        if recorded.cancelled {
          StoppedStays(start, answers, k);
          return;
        }
        if !recorded.delivery.Delivered? {
          continue;
        }
        var stopped;
        next, k, stopped := Updates(start, next, polled.batch, answers, k);
        if stopped {
          return;
        }
      }
      assert answers[..k] == answers;
    }

    /** The loop over one batch; `stopped` also when the answers end inside it. */
    method Updates(ghost start: State, nextUpdateId: int, updates: seq<int>, answers: seq<Answer>, from: nat)
      returns (next: int, k: nat, stopped: bool)
      requires Proper(start.stage) && from <= |answers|
      requires Calls(start, answers[..from]) == State(From(nextUpdateId, updates, 0), durable, handled)
      modifies this
      ensures from <= k <= |answers|
      ensures !stopped ==> Calls(start, answers[..k]) == State(Polling(next), durable, handled)
      ensures stopped ==> var t := Calls(start, answers); durable == t.durable && handled == t.handled
    {
      next, k, stopped := nextUpdateId, from, false;
      for i := 0 to |updates|
        invariant from <= k <= |answers|
        invariant Calls(start, answers[..k]) == State(From(next, updates, i), durable, handled)
      {
        if updates[i] < next {
          continue;
        }
        k, stopped := Handle(start, next, updates, i, answers, k);
        if stopped {
          return;
        }
        k, stopped := Advance(start, next, updates, i, answers, k);
        if stopped {
          return;
        }
        next := updates[i] + 1;
      }
    }

    method Handle(ghost start: State, ghost next: int, updates: seq<int>, i: nat, answers: seq<Answer>,
            from: nat)
      returns (k: nat, stopped: bool)
      requires Proper(start.stage) && from <= |answers| && i < |updates|
      requires Calls(start, answers[..from]) == State(Handling(next, updates, i), durable, handled)
      modifies this`handled
      ensures from <= k <= |answers|
      ensures !stopped ==> Calls(start, answers[..k]) == State(Advancing(next, updates, i), durable, handled)
      ensures stopped ==> var t := Calls(start, answers); durable == t.durable && handled == t.handled
    {
      k := from;
      while k < |answers|
        invariant from <= k <= |answers|
        invariant Calls(start, answers[..k]) == State(Handling(next, updates, i), durable, handled)
      {
        assert answers[..k + 1][..k] == answers[..k];
        var a := answers[k];
        k := k + 1;
        if a.cancelled {
          StoppedStays(start, answers, k);
          return k, true;
        }
        if a.delivery.Delivered? {
          handled := handled + [Handled(updates[i], durable)];
          return k, false;
        }
      }
      assert answers[..k] == answers;
      stopped := true;
    }

    method Advance(ghost start: State, ghost next: int, updates: seq<int>, i: nat, answers: seq<Answer>,
            from: nat)
      returns (k: nat, stopped: bool)
      requires Proper(start.stage) && from <= |answers| && i < |updates|
      requires Calls(start, answers[..from]) == State(Advancing(next, updates, i), durable, handled)
      modifies this`durable
      ensures from <= k <= |answers|
      ensures !stopped ==> Calls(start, answers[..k]) == State(From(updates[i] + 1, updates, i + 1), durable, handled)
      ensures stopped ==> var t := Calls(start, answers); durable == t.durable && handled == t.handled
    {
      k := from;
      while k < |answers|
        invariant from <= k <= |answers|
        invariant Calls(start, answers[..k]) == State(Advancing(next, updates, i), durable, handled)
      {
        assert answers[..k + 1][..k] == answers[..k];
        var a := answers[k];
        k := k + 1;
        if a.cancelled {
          StoppedStays(start, answers, k);
          return k, true;
        }
        if !a.delivery.NotReached? {
          durable := Max(durable, updates[i] + 1);
        }
        if a.delivery.Delivered? {
          return k, false;
        }
      }
      assert answers[..k] == answers;
      stopped := true;
    }
  }
}

/** Runs of the poller with arriving updates, failures, crashes and restarts. */
module PollerRuns {
  import opened Prelude
  import opened Poller

  /** `log` are the updates that have arrived at Telegram. */
  datatype World = World(log: set<int>, poller: State)

  datatype Event = Arrive(id: int) | Start | Step(answer: Answer)

  function Next(w: World, e: Event): (t: World)
    requires Proper(w.poller.stage)
    ensures Proper(t.poller.stage)
  {
    match e
    case Arrive(id) => if forall x :: x in w.log ==> x < id then w.(log := w.log + {id}) else w
    case Start => if w.poller.stage.Stopped? then w.(poller := w.poller.(stage := Polling(w.poller.durable))) else w
    case Step(answer) =>
      CallIsProper(w.poller, answer);
      w.(poller := Call(w.poller, answer))
  }

  function Run(first: int, log: set<int>, events: seq<Event>): (w: World)
    ensures Proper(w.poller.stage)
  {
    if events == [] then World(log, State(Stopped, first, []))
    else Next(Run(first, log, events[..|events| - 1]), events[|events| - 1])
  }

  ghost predicate Ascending(batch: seq<int>) {
    forall i, j :: 0 <= i < j < |batch| ==> batch[i] <= batch[j]
  }

  /** What the poll call promises: arrived updates in ascending order that leave none out from the
      requested offset to the last one. */
  ghost predicate Deliverable(log: set<int>, next: int, batch: seq<int>) {
    && Ascending(batch) && (forall i :: 0 <= i < |batch| ==> batch[i] in log)
    && forall id, i :: id in log && 0 <= i < |batch| && next <= id <= batch[i] ==> id in batch
  }

  ghost predicate HonestStep(w: World, e: Event) {
    e.Step? && w.poller.stage.Polling? && e.answer.delivery.Delivered? ==>
      Deliverable(w.log, w.poller.stage.next, e.answer.batch)
  }

  ghost predicate Honest(first: int, log: set<int>, events: seq<Event>) {
    forall k :: 0 <= k < |events| ==> HonestStep(Run(first, log, events[..k]), events[k])
  }

  // ----- invariants -----

  ghost predicate Has(handled: seq<Handled>, id: int) {
    exists k :: 0 <= k < |handled| && handled[k].id == id
  }

  /** Every update from `first` to below `end` has been handled. */
  ghost predicate Covered(log: set<int>, handled: seq<Handled>, first: int, end: int) {
    forall id :: id in log && first <= id < end ==> Has(handled, id)
  }

  /** The updates still to come in the batch, from `index` on, leave none out from `next`. */
  ghost predicate Pending(log: set<int>, next: int, batch: seq<int>, index: nat) {
    && index <= |batch| && Ascending(batch) && (forall i :: 0 <= i < |batch| ==> batch[i] in log)
    && forall id, i :: id in log && index <= i < |batch| && next <= id <= batch[i] ==> id in batch[index..]
  }

  ghost predicate Staged(w: World) {
    var s := w.poller;
    match s.stage
    case Stopped => true
    case Polling(next) => next == s.durable
    case Recording(next, batch) => next == s.durable && Pending(w.log, next, batch, 0)
    case Handling(next, batch, index) =>
      && next == s.durable && index < |batch| && batch[index] >= next
      && Pending(w.log, next, batch, index)
    case Advancing(next, batch, index) =>
      && index < |batch| && batch[index] >= next && Pending(w.log, next, batch, index) && Has(s.handled, batch[index])
      && (s.durable == next || s.durable == batch[index] + 1)
  }

  ghost predicate Safe(w: World, first: int) {
    && (w.poller.durable == first || (first < w.poller.durable && w.poller.durable - 1 in w.log))
    && Covered(w.log, w.poller.handled, first, w.poller.durable)
    && (forall k :: 0 <= k < |w.poller.handled| ==>
          w.poller.handled[k].id in w.log && w.poller.handled[k].offset <= w.poller.handled[k].id)
    && (forall k :: 0 <= k < |w.poller.handled| ==> Covered(w.log, w.poller.handled, first, w.poller.handled[k].id))
  }

  /** Passing over updates below the next identifier loses nothing. */
  lemma {:induction false} FromIsPending(log: set<int>, next: int, batch: seq<int>, index: nat)
    requires Pending(log, next, batch, index)
    ensures var stage := From(next, batch, index);
      stage.Polling? || stage.Handling?
    ensures From(next, batch, index).next == next
    ensures var stage := From(next, batch, index);
      stage.Handling? ==>
        && stage.batch == batch && stage.index < |batch| && batch[stage.index] >= next
        && Pending(log, next, batch, stage.index)
    decreases |batch| - index
  {
    if index < |batch| && batch[index] < next {
      PendingSkip(log, next, batch, index);
      FromIsPending(log, next, batch, index + 1);
    }
  }

  lemma PendingSkip(log: set<int>, next: int, batch: seq<int>, index: nat)
    requires Pending(log, next, batch, index) && index < |batch| && batch[index] < next
    ensures Pending(log, next, batch, index + 1)
  {
    forall id, i | id in log && index + 1 <= i < |batch| && next <= id <= batch[i] ensures id in batch[index + 1..] {
      assert id in batch[index..];
      assert batch[index..] == [batch[index]] + batch[index + 1..];
    }
  }

  lemma PendingAdvance(log: set<int>, next: int, batch: seq<int>, index: nat)
    requires Pending(log, next, batch, index) && index < |batch| && batch[index] >= next
    ensures Pending(log, batch[index] + 1, batch, index + 1)
  {
    forall id, i | id in log && index + 1 <= i < |batch| && batch[index] + 1 <= id <= batch[i]
      ensures id in batch[index + 1..]
    {
      assert id in batch[index..];
      assert batch[index..] == [batch[index]] + batch[index + 1..];
    }
  }

  /** No update lies between the next identifier and the update in work. */
  lemma FirstPending(log: set<int>, next: int, batch: seq<int>, index: nat, id: int)
    requires Pending(log, next, batch, index) && index < |batch| && id in log && next <= id <= batch[index]
    ensures id == batch[index]
  {
    var k :| 0 <= k < |batch[index..]| && batch[index..][k] == id;
    assert batch[index + k] == id && batch[index] <= batch[index + k];
  }

  lemma PendingArrive(log: set<int>, next: int, batch: seq<int>, index: nat, id: int)
    requires Pending(log, next, batch, index) && forall x :: x in log ==> x < id
    ensures Pending(log + {id}, next, batch, index)
  {
  }

  lemma HasMore(handled: seq<Handled>, h: Handled, id: int)
    ensures Has(handled + [h], id) <==> Has(handled, id) || h.id == id
  {
    var more := handled + [h];
    assert more[|handled|] == h;
    if k :| 0 <= k < |handled| && handled[k].id == id {
      assert more[k].id == id;
    }
  }

  lemma StagedRecord(w: World)
    requires Staged(w) && w.poller.stage.Recording?
    ensures Staged(w.(poller := w.poller.(stage := From(w.poller.stage.next, w.poller.stage.batch, 0))))
  {
    FromIsPending(w.log, w.poller.stage.next, w.poller.stage.batch, 0);
  }

  lemma StagedAdvance(w: World)
    requires Staged(w) && w.poller.stage.Advancing?
    ensures var Advancing(next, batch, index) := w.poller.stage;
      Staged(w.(poller := w.poller.(
        durable := Max(w.poller.durable, batch[index] + 1), stage := From(batch[index] + 1, batch, index + 1))))
  {
    var Advancing(next, batch, index) := w.poller.stage;
    PendingAdvance(w.log, next, batch, index);
    FromIsPending(w.log, batch[index] + 1, batch, index + 1);
  }

  lemma StagedCall(w: World, a: Answer)
    requires Proper(w.poller.stage) && Staged(w)
    requires w.poller.stage.Polling? && a.delivery.Delivered? ==> Deliverable(w.log, w.poller.stage.next, a.batch)
    ensures Staged(w.(poller := Call(w.poller, a)))
  {
    var s := w.poller;
    if s.stage.Polling? {
      assert a.batch[0..] == a.batch;
    } else if s.stage.Recording? {
      StagedRecord(w);
    } else if s.stage.Handling? {
      var id := s.stage.batch[s.stage.index];
      HasMore(s.handled, Handled(id, s.durable), id);
    } else if s.stage.Advancing? {
      StagedAdvance(w);
    }
  }

  lemma StagedNext(w: World, e: Event)
    requires Proper(w.poller.stage) && Staged(w) && HonestStep(w, e)
    ensures Staged(Next(w, e))
  {
    if e.Step? {
      StagedCall(w, e.answer);
    } else if e.Arrive? && forall x :: x in w.log ==> x < e.id {
      var stage := w.poller.stage;
      if stage.Recording? {
        PendingArrive(w.log, stage.next, stage.batch, 0, e.id);
      } else if stage.Handling? || stage.Advancing? {
        PendingArrive(w.log, stage.next, stage.batch, stage.index, e.id);
      }
    }
  }

  /** With everything below the durable offset handled, so is everything below the update in work. */
  lemma CoveredToWork(w: World, first: int)
    requires Staged(w) && Safe(w, first) && (w.poller.stage.Handling? || w.poller.stage.Advancing?)
    ensures Covered(w.log, w.poller.handled, first, w.poller.stage.batch[w.poller.stage.index])
    ensures w.poller.stage.batch[w.poller.stage.index] >= w.poller.stage.next
  {
    var stage := w.poller.stage;
    var id := stage.batch[stage.index];
    forall x | x in w.log && first <= x < id ensures Has(w.poller.handled, x) {
      if x >= stage.next {
        FirstPending(w.log, stage.next, stage.batch, stage.index, x);
      }
    }
  }

  lemma CoveredMore(log: set<int>, handled: seq<Handled>, h: Handled, first: int, end: int)
    requires Covered(log, handled, first, end)
    ensures Covered(log, handled + [h], first, end)
  {
    forall id | id in log && first <= id < end ensures Has(handled + [h], id) {
      HasMore(handled, h, id);
    }
  }

  lemma SafeHandle(w: World, first: int)
    requires Staged(w) && Safe(w, first) && w.poller.stage.Handling?
    ensures var s := w.poller;
      Safe(w.(poller := s.(handled := s.handled + [Handled(s.stage.batch[s.stage.index], s.durable)])), first)
  {
    var s := w.poller;
    var h := Handled(s.stage.batch[s.stage.index], s.durable);
    var more := s.handled + [h];
    CoveredToWork(w, first);
    CoveredMore(w.log, s.handled, h, first, s.durable);
    forall k | 0 <= k < |more| ensures Covered(w.log, more, first, more[k].id) {
      CoveredMore(w.log, s.handled, h, first, more[k].id);
    }
  }

  lemma SafeCall(w: World, a: Answer, first: int)
    requires Proper(w.poller.stage) && Staged(w) && Safe(w, first)
    ensures Safe(w.(poller := Call(w.poller, a)), first)
  {
    var s := w.poller;
    if s.stage.Handling? {
      SafeHandle(w, first);
    } else if s.stage.Advancing? {
      CoveredToWork(w, first);
    }
  }

  lemma SafeNext(w: World, e: Event, first: int)
    requires Proper(w.poller.stage) && Staged(w) && Safe(w, first)
    ensures Safe(Next(w, e), first)
  {
    if e.Step? {
      SafeCall(w, e.answer, first);
    }
  }

  lemma {:induction false} InvRun(first: int, log: set<int>, events: seq<Event>)
    requires Honest(first, log, events)
    ensures Staged(Run(first, log, events)) && Safe(Run(first, log, events), first)
  {
    if events != [] {
      var init := events[..|events| - 1];
      assert forall k :: 0 <= k < |init| ==> init[..k] == events[..k];
      InvRun(first, log, init);
      assert HonestStep(Run(first, log, events[..|events| - 1]), events[|events| - 1]);
      StagedNext(Run(first, log, init), events[|events| - 1]);
      SafeNext(Run(first, log, init), events[|events| - 1], first);
    }
  }

  // ----- what the loop guarantees -----

  /** Every update that arrived at or after the first offset and lies below the durable one was handled. */
  lemma BelowOffsetIsHandled(first: int, log: set<int>, events: seq<Event>, id: int)
    requires Honest(first, log, events)
    ensures var w := Run(first, log, events);
      id in w.log && first <= id < w.poller.durable ==> Has(w.poller.handled, id)
  {
    InvRun(first, log, events);
  }

  lemma HandledGrows(w: World, e: Event)
    requires Proper(w.poller.stage) && Staged(w)
    ensures var t := Next(w, e);
      && w.poller.durable <= t.poller.durable && w.poller.handled <= t.poller.handled
      && (forall k :: |w.poller.handled| <= k < |t.poller.handled| ==> t.poller.handled[k].offset == w.poller.durable)
  {
  }

  /** The offset never goes back, and an update below it is never handled again. */
  lemma {:induction false} CommittedIsFinal(first: int, log: set<int>, events: seq<Event>, more: seq<Event>)
    requires Honest(first, log, events + more)
    ensures var s, t := Run(first, log, events).poller, Run(first, log, events + more).poller;
      && s.durable <= t.durable && s.handled <= t.handled
      && (forall k :: |s.handled| <= k < |t.handled| ==> s.durable <= t.handled[k].offset <= t.handled[k].id)
    decreases |more|
  {
    if more == [] {
      assert events + more == events;
    } else {
      var init, all := more[..|more| - 1], events + more;
      assert all[..|all| - 1] == events + init;
      HonestPrefix(first, log, all);
      CommittedIsFinal(first, log, events, init);
      assert Staged(Run(first, log, events + init)) by {
        InvRun(first, log, events + init);
      }
      HandledGrows(Run(first, log, events + init), more[|more| - 1]);
      var t := Run(first, log, all).poller;
      assert forall k :: 0 <= k < |t.handled| ==> t.handled[k].offset <= t.handled[k].id by {
        InvRun(first, log, all);
      }
    }
  }

  lemma HonestPrefix(first: int, log: set<int>, events: seq<Event>)
    requires Honest(first, log, events) && events != []
    ensures Honest(first, log, events[..|events| - 1])
  {
    var init := events[..|events| - 1];
    forall k | 0 <= k < |init| ensures HonestStep(Run(first, log, init[..k]), init[k]) {
      assert init[..k] == events[..k] && init[k] == events[k];
      assert HonestStep(Run(first, log, events[..k]), events[k]);
    }
  }

  /** An update handled for the first time is above everything handled before it. */
  lemma {:induction false} FirstHandledInOrder(first: int, log: set<int>, events: seq<Event>, i: nat, j: nat)
    requires Honest(first, log, events) && i < j < |Run(first, log, events).poller.handled|
    requires var handled := Run(first, log, events).poller.handled; !Has(handled[..j], handled[j].id)
    ensures var handled := Run(first, log, events).poller.handled; handled[i].id < handled[j].id
    decreases |events|
  {
    var init, e := events[..|events| - 1], events[|events| - 1];
    HonestPrefix(first, log, events);
    InvRun(first, log, init);
    var w, t := Run(first, log, init), Run(first, log, events);
    var before, handled := w.poller.handled, t.poller.handled;
    HandledGrows(w, e);
    if j < |before| {
      assert before[..j] == handled[..j];
      FirstHandledInOrder(first, log, init, i, j);
    } else {
      var id := handled[j].id;
      assert handled == before + [Handled(id, w.poller.durable)] && handled[..j] == before;
      CoveredToWork(w, first);
      assert Covered(w.log, before, first, before[i].id) && !Has(before, id);
    }
  }

  // ----- progress -----

  lemma {:induction false} FromSkips(next: int, batch: seq<int>, index: nat)
    requires index <= |batch|
    ensures var stage := From(next, batch, index);
      && (stage.Polling? ==> stage == Polling(next) && forall i :: index <= i < |batch| ==> batch[i] < next)
      && (stage.Handling? ==>
            && stage.next == next && stage.batch == batch && index <= stage.index < |batch|
            && forall i :: index <= i < stage.index ==> batch[i] < next)
      && (stage.Polling? || stage.Handling?)
    decreases |batch| - index
  {
    if index < |batch| && batch[index] < next {
      FromSkips(next, batch, index + 1);
    }
  }

  const GOOD := Step(Answer(false, Delivered, []))

  /** The world after `n` more calls that succeed; a poll among them finds nothing new. */
  function After(w: World, n: nat): (t: World)
    requires Proper(w.poller.stage)
    ensures Proper(t.poller.stage)
  {
    if n == 0 then w else Next(After(w, n - 1), GOOD)
  }

  lemma {:induction false} AfterMore(w: World, n: nat, m: nat)
    requires Proper(w.poller.stage)
    ensures After(w, n + m) == After(After(w, n), m)
  {
    if m > 0 {
      AfterMore(w, n, m - 1);
    }
  }

  /** One update is handled and committed by two calls. */
  lemma TwoCalls(w: World)
    requires w.poller.stage.Handling? && Proper(w.poller.stage) && Staged(w)
    ensures var Handling(next, batch, index) := w.poller.stage;
      var t := After(w, 2);
      && t.log == w.log && w.poller.durable <= t.poller.durable == batch[index] + 1
      && t.poller.stage == From(batch[index] + 1, batch, index + 1) && Staged(t)
  {
    var Handling(next, batch, index) := w.poller.stage;
    assert After(w, 0) == w && After(w, 1) == Next(w, GOOD);
    assert After(w, 1).poller.stage == Advancing(next, batch, index);
    StagedNext(w, GOOD);
    StagedNext(After(w, 1), GOOD);
  }

  /** From here on the calls finish the batch. */
  ghost predicate Finishes(w: World, batch: seq<int>, index: nat, n: nat)
    requires Proper(w.poller.stage)
  {
    var t := After(w, n);
    && t.log == w.log && t.poller.stage == Polling(t.poller.durable)
    && forall i :: index <= i < |batch| ==> batch[i] < t.poller.durable
  }

  lemma {:induction false} RestGoesThrough(w: World, batch: seq<int>, index: nat) returns (n: nat)
    requires Proper(w.poller.stage) && Staged(w) && index <= |batch|
    requires w.poller.stage == From(w.poller.durable, batch, index)
    ensures Finishes(w, batch, index, n)
    decreases |batch| - index
  {
    FromSkips(w.poller.durable, batch, index);
    if w.poller.stage.Polling? {
      n := 0;
    } else {
      var k := w.poller.stage.index;
      TwoCalls(w);
      var m := RestGoesThrough(After(w, 2), batch, k + 1);
      n := 2 + m;
      AfterMore(w, 2, m);
      AfterIsLater(After(w, 2), m);
    }
  }

  lemma {:induction false} AfterIsLater(w: World, n: nat)
    requires Proper(w.poller.stage) && Staged(w)
    ensures Staged(After(w, n)) && w.poller.durable <= After(w, n).poller.durable
  {
    if n > 0 {
      AfterIsLater(w, n - 1);
      StagedNext(After(w, n - 1), GOOD);
      HandledGrows(After(w, n - 1), GOOD);
    }
  }

  /** A stopped poller that is started and a polling one are handed a batch. */
  lemma Handed(w: World, batch: seq<int>) returns (t: World)
    requires Proper(w.poller.stage) && Staged(w) && (w.poller.stage.Stopped? || w.poller.stage.Polling?)
    requires Deliverable(w.log, w.poller.durable, batch)
    ensures t == Next(Next(Next(w, Start), Step(Answer(false, Delivered, batch))), GOOD)
    ensures t == w.(poller := w.poller.(stage := From(w.poller.durable, batch, 0))) && Staged(t)
  {
    var poll := Step(Answer(false, Delivered, batch));
    var a := Next(w, Start);
    assert a == w.(poller := w.poller.(stage := Polling(w.poller.durable)));
    StagedNext(w, Start);
    var b := Next(a, poll);
    assert b == w.(poller := w.poller.(stage := Recording(w.poller.durable, batch)));
    StagedNext(a, poll);
    StagedNext(b, GOOD);
    t := Next(b, GOOD);
  }

  function Goods(n: nat): seq<Event> {
    if n == 0 then [] else Goods(n - 1) + [GOOD]
  }

  lemma {:induction false} GoodsRun(first: int, log: set<int>, events: seq<Event>, n: nat)
    ensures Run(first, log, events + Goods(n)) == After(Run(first, log, events), n)
  {
    if n == 0 {
      assert events + Goods(n) == events;
    } else {
      GoodsRun(first, log, events, n - 1);
      assert (events + Goods(n))[..|events + Goods(n)| - 1] == events + Goods(n - 1);
    }
  }

  lemma OneMore(first: int, log: set<int>, events: seq<Event>, e: Event)
    ensures Run(first, log, events + [e]) == Next(Run(first, log, events), e)
  {
    assert (events + [e])[..|events|] == events;
  }

  /** Whatever happened before, a poller that is stopped or polling, is started, is handed a batch and then meets no
      failure commits all of it and polls again behind it. */
  lemma DeliveredGoesThrough(first: int, log: set<int>, events: seq<Event>, batch: seq<int>) returns (n: nat)
    requires Honest(first, log, events)
    requires var w := Run(first, log, events);
      (w.poller.stage.Stopped? || w.poller.stage.Polling?) && Deliverable(w.log, w.poller.durable, batch)
    ensures var w := Run(first, log, events);
      var t := Run(first, log, events + [Start] + [Step(Answer(false, Delivered, batch))] + [GOOD] + Goods(n));
      && t.log == w.log && t.poller.stage == Polling(t.poller.durable)
      && forall i :: 0 <= i < |batch| ==> batch[i] < t.poller.durable
  {
    var poll := Step(Answer(false, Delivered, batch));
    InvRun(first, log, events);
    var t := Handed(Run(first, log, events), batch);
    OneMore(first, log, events, Start);
    OneMore(first, log, events + [Start], poll);
    OneMore(first, log, events + [Start] + [poll], GOOD);
    n := RestGoesThrough(t, batch, 0);
    GoodsRun(first, log, events + [Start] + [poll] + [GOOD], n);
  }
}
