/** The bounded accounting recorder: submitters that never block, a FIFO queue, worker
    goroutines that drain it, and Close.  Records are numbered in the order they are
    submitted. */
module Recorder {
  import opened Counting

  datatype Worker = Idle | Busy(id: nat) | Exited

  /** What became of a record. */
  datatype Fate = Dropped | Queued | Flying(w: nat) | Persisted | Failed

  /** The recorder's fields, and in `fates` what became of every record submitted. */
  datatype State = State(
    capacity: nat,
    queue: seq<nat>,
    closed: bool,
    workers: seq<Worker>,
    dropped: nat,
    persisted: nat,
    failures: nat,
    submitted: nat,
    fates: map<nat, Fate>)

  datatype Event = Submit | Take(w: nat) | Settle(w: nat, ok: bool) | Exit(w: nat) | Close

  /** New replaces a capacity or a number of workers below one by its default. */
  function New(capacity: int, workers: int): (s: State)
    ensures s.capacity >= 1 && |s.workers| >= 1
    ensures capacity >= 1 ==> s.capacity == capacity
    ensures workers >= 1 ==> |s.workers| == workers
  {
    var size: nat := if capacity < 1 then 4096 else capacity;
    var count: nat := if workers < 1 then 2 else workers;
    State(size, [], false, seq(count, _ => Idle), 0, 0, 0, 0, map[])
  }

  /** Submitting after Close panics and is not an event; a second Close panics too. */
  predicate Enabled(s: State, e: Event) {
    match e
    case Submit => !s.closed
    case Take(w) => w < |s.workers| && s.workers[w].Idle? && s.queue != []
    case Settle(w, _) => w < |s.workers| && s.workers[w].Busy?
    case Exit(w) => w < |s.workers| && s.workers[w].Idle? && s.queue == [] && s.closed
    case Close => !s.closed
  }

  function Step(s: State, e: Event): State
    requires Enabled(s, e)
  {
    match e
    case Submit =>
      var id := s.submitted;
      if |s.queue| < s.capacity then s.(queue := s.queue + [id], submitted := id + 1, fates := s.fates[id := Queued])
      else s.(dropped := s.dropped + 1, submitted := id + 1, fates := s.fates[id := Dropped])
    case Take(w) =>
      var id := s.queue[0];
      s.(queue := s.queue[1..], workers := s.workers[w := Busy(id)], fates := s.fates[id := Flying(w)])
    case Settle(w, ok) =>
      var id, workers := s.workers[w].id, s.workers[w := Idle];
      if ok then s.(workers := workers, persisted := s.persisted + 1, fates := s.fates[id := Persisted])
      else s.(workers := workers, failures := s.failures + 1, fates := s.fates[id := Failed])
    case Exit(w) => s.(workers := s.workers[w := Exited])
    case Close => s.(closed := true)
  }

  /** The recorder object.  The ghost field only follows what happens to the records. */
  class Recorder {
    const capacity: nat
    var queue: seq<nat>
    var closed: bool
    var workers: seq<Worker>
    var dropped: nat
    var persisted: nat
    var failures: nat
    var submitted: nat
    ghost var fates: map<nat, Fate>

    ghost function Contents(): State
      reads this
    {
      State(capacity, queue, closed, workers, dropped, persisted, failures, submitted, fates)
    }

    constructor (capacity: int, workers: int)
      ensures Contents() == New(capacity, workers)
    {
      this.capacity := if capacity < 1 then 4096 else capacity;
      var count: nat := if workers < 1 then 2 else workers;
      this.workers := seq(count, _ => Idle);
      queue, closed, dropped, persisted, failures, submitted, fates := [], false, 0, 0, 0, 0, map[];
    }

    /** Never blocks: a full queue drops the record. */
    method RecordRequest()
      requires Enabled(Contents(), Submit)
      modifies this
      ensures Contents() == Step(old(Contents()), Submit)
    {
      fates := Step(Contents(), Submit).fates;
      if |queue| < capacity {
        queue := queue + [submitted];
      } else {
        dropped := dropped + 1;
      }
      submitted := submitted + 1;
    }

    method TakeNext(w: nat) returns (id: nat)
      requires Enabled(Contents(), Take(w))
      modifies this
      ensures Contents() == Step(old(Contents()), Take(w)) && id == old(queue)[0]
    {
      id := queue[0];
      queue := queue[1..];
      workers := workers[w := Busy(id)];
      fates := fates[id := Flying(w)];
    }

    method Finish(w: nat, ok: bool)
      requires Enabled(Contents(), Settle(w, ok))
      modifies this
      ensures Contents() == Step(old(Contents()), Settle(w, ok))
    {
      fates := Step(Contents(), Settle(w, ok)).fates;
      workers := workers[w := Idle];
      if ok {
        persisted := persisted + 1;
      } else {
        failures := failures + 1;
      }
    }
  }

  ghost predicate Follows(s: State, e: Event, t: State) {
    Enabled(s, e) && t == Step(s, e)
  }

  ghost predicate IsRun(states: seq<State>, events: seq<Event>, capacity: int, workers: int) {
    && |states| == |events| + 1
    && states[0] == New(capacity, workers)
    && forall i {:trigger events[i]} :: 0 <= i < |events| ==> Follows(states[i], events[i], states[i + 1])
  }

  // ----- Conservation

  datatype Kind = WasDropped | IsQueued | IsFlying | WasPersisted | HasFailed

  ghost predicate Of(f: Fate, k: Kind) {
    match k
    case WasDropped => f.Dropped?
    case IsQueued => f.Queued?
    case IsFlying => f.Flying?
    case WasPersisted => f.Persisted?
    case HasFailed => f.Failed?
  }

  ghost function OfKind(k: Kind): Fate -> bool {
    f => Of(f, k)
  }

  ghost function Tally(s: State, k: Kind): nat {
    Count(s.fates, OfKind(k))
  }

  /** The counters count the records they name, and the five fates cover every record. */
  ghost predicate Counted(s: State) {
    && s.dropped == Tally(s, WasDropped) && |s.queue| == Tally(s, IsQueued)
    && s.persisted == Tally(s, WasPersisted) && s.failures == Tally(s, HasFailed)
    && s.submitted == s.dropped + |s.queue| + Tally(s, IsFlying) + s.persisted + s.failures
  }

  ghost predicate Left(f: Fate) {
    f.Flying? || f.Persisted? || f.Failed?
  }

  /** The queue holds the queued records in the order they were submitted, after every record
      that already left it; a worker is busy with exactly the records that fly with it. */
  ghost predicate Ordered(s: State) {
    && (forall id :: id in s.fates <==> 0 <= id < s.submitted)
    && (forall i :: 0 <= i < |s.queue| ==> s.queue[i] in s.fates && s.fates[s.queue[i]] == Queued)
    && (forall i, j :: 0 <= i < j < |s.queue| ==> s.queue[i] < s.queue[j])
    && (forall id, i :: id in s.fates && Left(s.fates[id]) && 0 <= i < |s.queue| ==> id < s.queue[i])
    && (forall id :: id in s.fates && s.fates[id].Flying? ==>
          s.fates[id].w < |s.workers| && s.workers[s.fates[id].w] == Busy(id))
    && (forall w :: 0 <= w < |s.workers| && s.workers[w].Busy? ==>
          s.workers[w].id in s.fates && s.fates[s.workers[w].id] == Flying(w))
  }

  ghost predicate Bounded(s: State) {
    && s.capacity >= 1 && |s.queue| <= s.capacity && |s.workers| >= 1
    && (forall w :: 0 <= w < |s.workers| && s.workers[w].Exited? ==> s.closed && s.queue == [])
  }

  ghost predicate Inv(s: State) {
    Counted(s) && Ordered(s) && Bounded(s)
  }

  /** A record changes fate, and the tallies with it. */
  lemma Recount(s: State, t: State, id: nat, f: Fate, k: Kind)
    requires t.fates == s.fates[id := f]
    ensures Tally(t, k) == Tally(s, k) - One(id in s.fates && Of(s.fates[id], k)) + One(Of(f, k))
  {
    CountUpdate(s.fates, id, f, OfKind(k));
  }

  lemma RecountAll(s: State, t: State, id: nat, f: Fate)
    requires t.fates == s.fates[id := f]
    ensures var was := if id in s.fates then [s.fates[id]] else [];
            && Tally(t, WasDropped) == Tally(s, WasDropped) - One(was != [] && was[0].Dropped?) + One(f.Dropped?)
            && Tally(t, IsQueued) == Tally(s, IsQueued) - One(was != [] && was[0].Queued?) + One(f.Queued?)
            && Tally(t, IsFlying) == Tally(s, IsFlying) - One(was != [] && was[0].Flying?) + One(f.Flying?)
            && Tally(t, WasPersisted)
               == Tally(s, WasPersisted) - One(was != [] && was[0].Persisted?) + One(f.Persisted?)
            && Tally(t, HasFailed) == Tally(s, HasFailed) - One(was != [] && was[0].Failed?) + One(f.Failed?)
  {
    Recount(s, t, id, f, WasDropped);
    Recount(s, t, id, f, IsQueued);
    Recount(s, t, id, f, IsFlying);
    Recount(s, t, id, f, WasPersisted);
    Recount(s, t, id, f, HasFailed);
  }

  lemma SubmitCounted(s: State)
    requires Counted(s) && Enabled(s, Submit) && s.submitted !in s.fates
    ensures Counted(Step(s, Submit))
  {
    RecountAll(s, Step(s, Submit), s.submitted, Step(s, Submit).fates[s.submitted]);
  }

  lemma TakeCounted(s: State, w: nat)
    requires Counted(s) && Enabled(s, Take(w)) && s.queue[0] in s.fates && s.fates[s.queue[0]] == Queued
    ensures Counted(Step(s, Take(w)))
  {
    RecountAll(s, Step(s, Take(w)), s.queue[0], Flying(w));
  }

  lemma SettleCounted(s: State, w: nat, ok: bool)
    requires Counted(s) && Enabled(s, Settle(w, ok))
    requires s.workers[w].id in s.fates && s.fates[s.workers[w].id] == Flying(w)
    ensures Counted(Step(s, Settle(w, ok)))
  {
    RecountAll(s, Step(s, Settle(w, ok)), s.workers[w].id, if ok then Persisted else Failed);
  }

  lemma SubmitOrdered(s: State)
    requires Ordered(s) && Enabled(s, Submit)
    ensures Ordered(Step(s, Submit))
  {
  }

  lemma TakeOrdered(s: State, w: nat)
    requires Ordered(s) && Enabled(s, Take(w))
    ensures Ordered(Step(s, Take(w)))
  {
    var id, t := s.queue[0], Step(s, Take(w));
    assert forall i :: 0 <= i < |t.queue| ==> t.queue[i] == s.queue[i + 1] && id < t.queue[i];
  }

  lemma SettleOrdered(s: State, w: nat, ok: bool)
    requires Ordered(s) && Enabled(s, Settle(w, ok))
    ensures Ordered(Step(s, Settle(w, ok)))
  {
    var t := Step(s, Settle(w, ok));
    assert t.queue == s.queue;
    forall id | id in t.fates && t.fates[id].Flying?
      ensures t.fates[id].w < |t.workers| && t.workers[t.fates[id].w] == Busy(id)
    {
      assert s.workers[s.fates[id].w] == Busy(id);
    }
  }

  lemma StepBounded(s: State, e: Event)
    requires Bounded(s) && Enabled(s, e)
    ensures Bounded(Step(s, e))
  {
  }

  lemma {:induction false} StepInv(s: State, e: Event)
    requires Inv(s) && Enabled(s, e)
    ensures Inv(Step(s, e))
  {
    StepBounded(s, e);
    match e
    case Submit =>
      SubmitCounted(s);
      SubmitOrdered(s);
    case Take(w) =>
      TakeCounted(s, w);
      TakeOrdered(s, w);
    case Settle(w, ok) =>
      SettleCounted(s, w, ok);
      SettleOrdered(s, w, ok);
    case Exit(_) =>
    case Close =>
  }

  lemma {:induction false} RunInv(states: seq<State>, events: seq<Event>, capacity: int, workers: int, i: nat)
    requires IsRun(states, events, capacity, workers) && i < |states|
    ensures Inv(states[i])
  {
    if i > 0 {
      RunInv(states, events, capacity, workers, i - 1);
      assert Follows(states[i - 1], events[i - 1], states[i - 1 + 1]);
      StepInv(states[i - 1], events[i - 1]);
    }
  }

  /** In every state of every run the records submitted are those dropped, queued, in flight,
      persisted and failed, each exactly once, and the exported counters count them. */
  lemma Conservation(states: seq<State>, events: seq<Event>, capacity: int, workers: int, i: nat)
    requires IsRun(states, events, capacity, workers) && i < |states|
    ensures var s := states[i];
            && s.submitted == s.dropped + |s.queue| + Tally(s, IsFlying) + s.persisted + s.failures
            && s.dropped == Tally(s, WasDropped) && |s.queue| == Tally(s, IsQueued)
            && s.persisted == Tally(s, WasPersisted) && s.failures == Tally(s, HasFailed)
  {
    RunInv(states, events, capacity, workers, i);
  }

  /** A submission is dropped exactly when the queue is full. */
  lemma DropOnlyWhenFull(states: seq<State>, events: seq<Event>, capacity: int, workers: int, i: nat)
    requires IsRun(states, events, capacity, workers) && i < |events|
    ensures states[i + 1].dropped != states[i].dropped <==>
            events[i].Submit? && |states[i].queue| == states[i].capacity
  {
    RunInv(states, events, capacity, workers, i);
    assert Follows(states[i], events[i], states[i + 1]);
  }

  lemma QueuedStays(s: State, e: Event, t: State, a: nat)
    requires Ordered(s) && Follows(s, e, t)
    requires a in s.fates && s.fates[a] == Queued ==> a in s.queue
    ensures a in t.fates && t.fates[a] == Queued ==> a in t.queue
  {
    if e.Take? {
      assert s.queue == [s.queue[0]] + s.queue[1..];
    }
  }

  lemma {:induction false} QueuedIsInQueue(states: seq<State>, events: seq<Event>, capacity: int, workers: int,
                                           i: nat, a: nat)
    requires IsRun(states, events, capacity, workers) && i < |states|
    ensures a in states[i].fates && states[i].fates[a] == Queued ==> a in states[i].queue
  {
    if i > 0 {
      QueuedIsInQueue(states, events, capacity, workers, i - 1, a);
      RunInv(states, events, capacity, workers, i - 1);
      QueuedStays(states[i - 1], events[i - 1], states[i - 1 + 1], a);
    }
  }

  /** First in, first out: of two records that were not dropped, the one submitted first is
      never still queued when the other has left the queue. */
  lemma FirstInFirstOut(states: seq<State>, events: seq<Event>, capacity: int, workers: int, i: nat, a: nat, b: nat)
    requires IsRun(states, events, capacity, workers) && i < |states|
    requires a < b < states[i].submitted && a in states[i].fates && b in states[i].fates
    ensures states[i].fates[a] == Queued ==> !Left(states[i].fates[b])
  {
    RunInv(states, events, capacity, workers, i);
    if states[i].fates[a] == Queued {
      QueuedIsInQueue(states, events, capacity, workers, i, a);
    }
  }

  // ----- What became of a record, and why

  /** The event that gives record `id` this fate. */
  ghost predicate Decides(s: State, e: Event, id: nat, fate: Fate) {
    match fate
    case Dropped => e == Submit && id == s.submitted && |s.queue| >= s.capacity
    case Queued => e == Submit && id == s.submitted && |s.queue| < s.capacity
    case Flying(w) => e == Take(w) && s.queue != [] && s.queue[0] == id
    case Persisted => e.Settle? && e.ok && e.w < |s.workers| && s.workers[e.w] == Busy(id)
    case Failed => e.Settle? && !e.ok && e.w < |s.workers| && s.workers[e.w] == Busy(id)
  }

  lemma FateHere(s: State, e: Event, t: State, id: nat)
    requires Follows(s, e, t) && id in t.fates
    ensures Decides(s, e, id, t.fates[id]) || (id in s.fates && s.fates[id] == t.fates[id])
  {
  }

  /** In every run a record is dropped because it met a full queue, persisted because the sink
      took it and failed because the sink refused it; the event is exhibited. */
  lemma {:induction false} FateCause(states: seq<State>, events: seq<Event>, capacity: int, workers: int, i: nat,
                                     id: nat)
    returns (m: nat)
    requires IsRun(states, events, capacity, workers) && i < |states| && id in states[i].fates
    ensures m < i && Decides(states[m], events[m], id, states[i].fates[id])
    decreases i
  {
    if i == 0 {
      assert false;
    }
    FateHere(states[i - 1], events[i - 1], states[i - 1 + 1], id);
    if Decides(states[i - 1], events[i - 1], id, states[i].fates[id]) {
      m := i - 1;
    } else {
      m := FateCause(states, events, capacity, workers, i - 1, id);
    }
  }

  // ----- Close

  ghost predicate AllExited(s: State) {
    forall w :: 0 <= w < |s.workers| ==> s.workers[w].Exited?
  }

  /** Close returns nil once every worker has exited: then nothing is queued or in flight, and
      every record submitted was dropped, persisted or failed. */
  lemma CloseDrains(states: seq<State>, events: seq<Event>, capacity: int, workers: int, i: nat)
    requires IsRun(states, events, capacity, workers) && i < |states| && AllExited(states[i])
    ensures var s := states[i];
            && s.closed && s.queue == []
            && (forall id :: 0 <= id < s.submitted ==> id in s.fates && s.fates[id] in {Dropped, Persisted, Failed})
            && s.submitted == s.dropped + s.persisted + s.failures
  {
    RunInv(states, events, capacity, workers, i);
    var s := states[i];
    assert s.workers[0].Exited?;
    CountPositive(s.fates, OfKind(IsFlying));
    CountPositive(s.fates, OfKind(IsQueued));
    assert forall id :: id in s.fates ==> !OfKind(IsQueued)(s.fates[id]);
  }

  // ----- After Close

  ghost function Weight(w: Worker): nat {
    match w
    case Busy(_) => 2
    case Idle => 1
    case Exited => 0
  }

  ghost function Active(workers: seq<Worker>): nat {
    if workers == [] then 0 else Weight(workers[0]) + Active(workers[1..])
  }

  /** Two actions per queued record, two per busy worker and one per idle one. */
  ghost function Backlog(s: State): nat {
    2 * |s.queue| + Active(s.workers)
  }

  lemma {:induction false} ActiveUpdate(workers: seq<Worker>, w: nat, now: Worker)
    requires w < |workers|
    ensures Active(workers[w := now]) == Active(workers) - Weight(workers[w]) + Weight(now)
  {
    if w == 0 {
      assert workers[w := now][1..] == workers[1..];
    } else {
      ActiveUpdate(workers[1..], w - 1, now);
      assert workers[w := now][1..] == workers[1..][w - 1 := now];
    }
  }

  /** After Close every event uses up some of the backlog, and none reopens the recorder. */
  lemma ClosedStep(s: State, e: Event, t: State)
    requires s.closed && Follows(s, e, t)
    ensures t.closed && Backlog(t) < Backlog(s)
  {
    match e
    case Take(w) => ActiveUpdate(s.workers, w, Busy(s.queue[0]));
    case Settle(w, _) => ActiveUpdate(s.workers, w, Idle);
    case Exit(w) => ActiveUpdate(s.workers, w, Exited);
  }

  /** After Close a worker can act as long as one has not exited. */
  lemma SomeWorkerCanAct(s: State) returns (e: Event)
    requires s.closed && !AllExited(s)
    ensures Enabled(s, e)
  {
    var w :| 0 <= w < |s.workers| && !s.workers[w].Exited?;
    if s.workers[w].Busy? {
      e := Settle(w, true);
    } else if s.queue != [] {
      e := Take(w);
    } else {
      e := Exit(w);
    }
  }

  lemma {:induction false} ClosedBounded(states: seq<State>, events: seq<Event>, capacity: int, workers: int, i: nat,
                                         k: nat)
    requires IsRun(states, events, capacity, workers) && i <= k < |states| && states[i].closed
    ensures states[k].closed && k - i + Backlog(states[k]) <= Backlog(states[i])
    decreases k
  {
    if i < k {
      ClosedBounded(states, events, capacity, workers, i, k - 1);
      ClosedStep(states[k - 1], events[k - 1], states[k - 1 + 1]);
    }
  }

  /** Close terminates in every run: no run goes on for more than the backlog at Close, and
      one that cannot go on is one in which all workers have exited. */
  lemma CloseTerminates(states: seq<State>, events: seq<Event>, capacity: int, workers: int, i: nat)
    requires IsRun(states, events, capacity, workers) && i < |states| && states[i].closed
    ensures |events| - i <= Backlog(states[i])
    ensures AllExited(states[|events|]) <==> forall e :: !Enabled(states[|events|], e)
  {
    ClosedBounded(states, events, capacity, workers, i, |events|);
    var last := states[|events|];
    if !AllExited(last) {
      var e := SomeWorkerCanAct(last);
    }
  }
}
