/** Every interleaving of POST requests on one handler.  A job is one ServeHTTP call;
    an event is one atomic action of a job. */
module WorkerRuns {
  import opened WorkerHandler
  import opened Counting

  datatype Reply = Ok(response: string, replayed: bool) | Conflict | Error

  /** Where a job stands, with the lock it was registered on.  `Answered` has written its
      reply and still runs its deferred calls, first the slot, then the key lock. */
  datatype Phase =
    | Registered(id: nat)
    | Locked(id: nat)
    | AwaitSlot(id: nat)
    | Running(id: nat)
    | Produced(id: nat, output: string)
    | Answered(id: nat, reply: Reply, slot: bool)
    | Leaving(id: nat, reply: Reply)
    | Finished(reply: Reply)

  datatype Job = Job(key: string, digest: string, phase: Phase)

  datatype System = System(handler: View, jobs: map<nat, Job>)

  datatype Event =
    | Arrive(j: nat, key: string, digest: string)
    | Lock(j: nat)
    | Find(j: nat)
    | TakeSlot(j: nat)
    | Execute(j: nat, output: string)
    | Store(j: nat)
    | Fail(j: nat)
    | ReturnSlot(j: nat)
    | Unlock(j: nat)
    | Leave(j: nat)

  ghost function Initial(maxConcurrent: int): System {
    System(View(maxConcurrent, map[], [], 0, map[]), map[])
  }

  ghost predicate WellFormed(s: System) {
    && InRange(s.handler)
    && forall j :: j in s.jobs && !s.jobs[j].phase.Finished? ==> s.jobs[j].phase.id < |s.handler.locks|
  }

  ghost predicate Enabled(s: System, e: Event)
    requires WellFormed(s)
  {
    if e.Arrive? then e.j !in s.jobs else
      && e.j in s.jobs
      && var p := s.jobs[e.j].phase;
         match e
         case Arrive(_, _, _) => false
         case Lock(_) => p.Registered? && !s.handler.locks[p.id].locked
         case Find(_) => p.Locked?
         case TakeSlot(_) => p.AwaitSlot? && s.handler.slots < Limit(s.handler.maxConcurrent)
         case Execute(_, _) => p.Running?
         case Store(_) => p.Produced?
         case Fail(_) => p.Locked? || p.AwaitSlot? || p.Running? || p.Produced?
         case ReturnSlot(_) => p.Answered? && p.slot && s.handler.slots > 0
         case Unlock(_) => p.Answered? && !p.slot
         case Leave(_) => p.Leaving?
  }

  /** The reply a job gets from the receipt found under its key, if it gets one. */
  function Found(job: Job, r: Receipt): Reply {
    if r.digest != job.digest then Conflict else Ok(r.response, true)
  }

  function Moved(s: System, j: nat, h: View, phase: Phase): System
    requires j in s.jobs
  {
    System(h, s.jobs[j := s.jobs[j].(phase := phase)])
  }

  ghost function Step(s: System, e: Event): System
    requires WellFormed(s) && Enabled(s, e)
  {
    if e.Arrive? then
      var (h, id) := Register(s.handler, e.key);
      System(h, s.jobs[e.j := Job(e.key, e.digest, Registered(id))])
    else
      var job, h := s.jobs[e.j], s.handler;
      var p := job.phase;
      match e
      case Lock(j) => Moved(s, j, SetLocked(h, p.id, true), Locked(p.id))
      case Find(j) =>
        var r := Lookup(h, job.key);
        Moved(s, j, h, if r.None? then AwaitSlot(p.id) else Answered(p.id, Found(job, r.value), false))
      case TakeSlot(j) => Moved(s, j, h.(slots := h.slots + 1), Running(p.id))
      case Execute(j, output) => Moved(s, j, h, Produced(p.id, output))
      case Store(j) =>
        var (stored, ok) := Commit(h, job.key, Receipt(job.digest, p.output));
        Moved(s, j, stored, Answered(p.id, if ok then Ok(p.output, false) else Conflict, true))
      case Fail(j) => Moved(s, j, h, Answered(p.id, Error, p.Running? || p.Produced?))
      case ReturnSlot(j) => Moved(s, j, h.(slots := h.slots - 1), p.(slot := false))
      case Unlock(j) => Moved(s, j, SetLocked(h, p.id, false), Leaving(p.id, p.reply))
      case Leave(j) => Moved(s, j, Deregister(h, job.key, p.id), Finished(p.reply))
  }

  ghost predicate Follows(s: System, e: Event, t: System) {
    WellFormed(s) && Enabled(s, e) && t == Step(s, e)
  }

  ghost predicate IsRun(states: seq<System>, events: seq<Event>) {
    && |states| == |events| + 1
    && states[0] == Initial(states[0].handler.maxConcurrent)
    && forall i {:trigger events[i]} :: 0 <= i < |events| ==> Follows(states[i], events[i], states[i + 1])
  }

  // ----- The invariant

  ghost predicate RegisteredOn(job: Job, id: nat) {
    !job.phase.Finished? && job.phase.id == id
  }

  /** Between lock.mu.Lock and lock.mu.Unlock. */
  ghost predicate Guarded(job: Job) {
    !job.phase.Finished? && !job.phase.Registered? && !job.phase.Leaving?
  }

  ghost predicate GuardedBy(job: Job, id: nat) {
    Guarded(job) && job.phase.id == id
  }

  ghost predicate HasSlot(job: Job) {
    job.phase.Running? || job.phase.Produced? || (job.phase.Answered? && job.phase.slot)
  }

  ghost function IsRegisteredOn(id: nat): Job -> bool {
    job => RegisteredOn(job, id)
  }

  ghost function IsGuardedBy(id: nat): Job -> bool {
    job => GuardedBy(job, id)
  }

  ghost function IsSlotted(): Job -> bool {
    job => HasSlot(job)
  }

  ghost predicate LocksBalanced(s: System) {
    forall id :: 0 <= id < |s.handler.locks| ==>
      && s.handler.locks[id].refs == Count(s.jobs, IsRegisteredOn(id))
      && One(s.handler.locks[id].locked) == Count(s.jobs, IsGuardedBy(id))
  }

  /** All jobs of a key share the lock the map holds for it, and no key shares it. */
  ghost predicate KeysMapped(s: System) {
    && (forall k :: k in s.handler.keyLocks ==>
          s.handler.keyLocks[k] < |s.handler.locks| && s.handler.locks[s.handler.keyLocks[k]].refs > 0)
    && (forall k, l ::
          k in s.handler.keyLocks && l in s.handler.keyLocks && s.handler.keyLocks[k] == s.handler.keyLocks[l] ==>
            k == l)
    && (forall j :: j in s.jobs && !s.jobs[j].phase.Finished? ==>
          s.jobs[j].key in s.handler.keyLocks && s.jobs[j].phase.id == s.handler.keyLocks[s.jobs[j].key])
  }

  ghost predicate SlotsBalanced(s: System) {
    s.handler.slots == Count(s.jobs, IsSlotted()) && s.handler.slots <= Limit(s.handler.maxConcurrent)
  }

  ghost predicate HasReply(job: Job) {
    job.phase.Answered? || job.phase.Leaving? || job.phase.Finished?
  }

  /** The job has passed the lookup without finding a receipt and has not answered yet. */
  ghost predicate Working(job: Job) {
    job.phase.AwaitSlot? || job.phase.Running? || job.phase.Produced?
  }

  ghost predicate ReplyHonest(receipts: map<string, Receipt>, job: Job) {
    && (Working(job) ==> job.key !in receipts)
    && (HasReply(job) ==>
          match job.phase.reply
          case Ok(response, replayed) =>
            && job.key in receipts && receipts[job.key] == Receipt(job.digest, response)
            && (replayed ==> !HasSlot(job))
          case Conflict => job.key in receipts && receipts[job.key].digest != job.digest
          case Error => true)
  }

  ghost predicate RepliesHonest(s: System) {
    forall j :: j in s.jobs ==> ReplyHonest(s.handler.receipts, s.jobs[j])
  }

  /** Locks, map and semaphore agree with the jobs, whatever the receipts are. */
  ghost predicate Balanced(s: System) {
    LocksBalanced(s) && KeysMapped(s) && SlotsBalanced(s)
  }

  ghost predicate Inv(s: System) {
    Balanced(s) && RepliesHonest(s)
  }

  lemma TwoAtLeast(jobs: map<nat, Job>, f: Job -> bool, a: nat, b: nat)
    requires a != b && a in jobs && b in jobs && f(jobs[a]) && f(jobs[b])
    ensures Count(jobs, f) >= 2
  {
    SubsetSize({a, b}, Members(jobs, f));
  }

  /** Two jobs with one key are never both inside the guarded section. */
  lemma Exclusion(s: System, a: nat, b: nat)
    requires Balanced(s) && a in s.jobs && b in s.jobs && s.jobs[a].key == s.jobs[b].key
    requires Guarded(s.jobs[a]) && Guarded(s.jobs[b])
    ensures a == b
  {
    if a != b {
      TwoAtLeast(s.jobs, IsGuardedBy(s.jobs[a].phase.id), a, b);
    }
  }

  lemma ArriveCounts(s: System, e: Event)
    requires Balanced(s) && e.Arrive? && Enabled(s, e)
    ensures LocksBalanced(Step(s, e)) && SlotsBalanced(Step(s, e))
  {
    var t := Step(s, e);
    CountUpdate(s.jobs, e.j, t.jobs[e.j], IsSlotted());
    forall id | 0 <= id < |t.handler.locks|
      ensures t.handler.locks[id].refs == Count(t.jobs, IsRegisteredOn(id))
      ensures One(t.handler.locks[id].locked) == Count(t.jobs, IsGuardedBy(id))
    {
      CountUpdate(s.jobs, e.j, t.jobs[e.j], IsRegisteredOn(id));
      CountUpdate(s.jobs, e.j, t.jobs[e.j], IsGuardedBy(id));
      if id == |s.handler.locks| {
        CountPositive(s.jobs, IsRegisteredOn(id));
        CountPositive(s.jobs, IsGuardedBy(id));
      }
    }
  }

  lemma ArriveKeys(s: System, e: Event)
    requires WellFormed(s) && KeysMapped(s) && e.Arrive? && Enabled(s, e)
    requires forall id :: 0 <= id < |s.handler.locks| ==> s.handler.locks[id].refs >= 0
    ensures KeysMapped(Step(s, e))
  {
  }

  /** What one action of job `j` may do to the locks, the lock map and the semaphore. */
  ghost predicate Delta(s: System, t: System, j: nat) {
    && j in s.jobs && j in t.jobs && !s.jobs[j].phase.Finished?
    && var was, now, id := s.jobs[j], t.jobs[j], s.jobs[j].phase.id;
       && t.jobs == s.jobs[j := now]
       && now.key == was.key
       && (!now.phase.Finished? ==> now.phase.id == id)
       && id < |s.handler.locks| == |t.handler.locks|
       && (forall k :: 0 <= k < |s.handler.locks| && k != id ==> t.handler.locks[k] == s.handler.locks[k])
       && t.handler.locks[id].refs == s.handler.locks[id].refs - 1 + One(!now.phase.Finished?)
       && One(t.handler.locks[id].locked) == One(s.handler.locks[id].locked) - One(Guarded(was)) + One(Guarded(now))
       && t.handler.keyLocks == (if t.handler.locks[id].refs == 0 then s.handler.keyLocks - {was.key}
                                 else s.handler.keyLocks)
       && t.handler.maxConcurrent == s.handler.maxConcurrent
       && t.handler.slots == s.handler.slots - One(HasSlot(was)) + One(HasSlot(now))
       && t.handler.slots <= Limit(t.handler.maxConcurrent)
  }

  /** The facts about a job's own lock that its next action relies on. */
  ghost predicate Grounded(s: System, j: nat) {
    && j in s.jobs && !s.jobs[j].phase.Finished? && s.jobs[j].phase.id < |s.handler.locks|
    && s.handler.locks[s.jobs[j].phase.id].refs > 0
    && (Guarded(s.jobs[j]) ==> s.handler.locks[s.jobs[j].phase.id].locked)
    && (HasSlot(s.jobs[j]) ==> s.handler.slots > 0)
    && s.handler.slots <= Limit(s.handler.maxConcurrent)
  }

  lemma BalancedGrounds(s: System, j: nat)
    requires Balanced(s) && j in s.jobs && !s.jobs[j].phase.Finished?
    ensures Grounded(s, j)
  {
    var job := s.jobs[j];
    var id := job.phase.id;
    CountPositive(s.jobs, IsGuardedBy(id));
    CountPositive(s.jobs, IsSlotted());
    if Guarded(job) {
      assert IsGuardedBy(id)(job);
    }
    if HasSlot(job) {
      assert IsSlotted()(job);
    }
  }

  lemma StepDelta(s: System, e: Event)
    requires WellFormed(s) && !e.Arrive? && Enabled(s, e) && Grounded(s, e.j)
    ensures Delta(s, Step(s, e), e.j)
  {
  }

  lemma DeltaCounts(s: System, t: System, j: nat)
    requires LocksBalanced(s) && SlotsBalanced(s) && Delta(s, t, j)
    ensures LocksBalanced(t) && SlotsBalanced(t)
  {
    CountUpdate(s.jobs, j, t.jobs[j], IsSlotted());
    forall id | 0 <= id < |t.handler.locks|
      ensures t.handler.locks[id].refs == Count(t.jobs, IsRegisteredOn(id))
      ensures One(t.handler.locks[id].locked) == Count(t.jobs, IsGuardedBy(id))
    {
      CountUpdate(s.jobs, j, t.jobs[j], IsRegisteredOn(id));
      CountUpdate(s.jobs, j, t.jobs[j], IsGuardedBy(id));
    }
  }

  lemma DeltaKeys(s: System, t: System, j: nat)
    requires KeysMapped(s) && LocksBalanced(t) && Delta(s, t, j)
    ensures KeysMapped(t)
  {
    var id := s.jobs[j].phase.id;
    CountPositive(t.jobs, IsRegisteredOn(id));
    forall i | i in t.jobs && !t.jobs[i].phase.Finished?
      ensures t.jobs[i].key in t.handler.keyLocks && t.jobs[i].phase.id == t.handler.keyLocks[t.jobs[i].key]
    {
      if t.jobs[i].key == s.jobs[j].key {
        assert IsRegisteredOn(id)(t.jobs[i]);
      }
    }
  }

  /** Every action keeps locks, map and semaphore in step with the jobs. */
  lemma StepBalanced(s: System, e: Event)
    requires Balanced(s) && Enabled(s, e)
    ensures Balanced(Step(s, e))
  {
    if e.Arrive? {
      ArriveCounts(s, e);
      ArriveKeys(s, e);
    } else {
      BalancedGrounds(s, e.j);
      StepDelta(s, e);
      DeltaCounts(s, Step(s, e), e.j);
      DeltaKeys(s, Step(s, e), e.j);
    }
  }

  lemma ArriveHonest(s: System, e: Event)
    requires WellFormed(s) && RepliesHonest(s) && e.Arrive? && Enabled(s, e)
    ensures RepliesHonest(Step(s, e))
  {
  }

  /** Only storing a receipt touches the store, and only under a key that had none. */
  lemma ActorHonest(s: System, e: Event)
    requires WellFormed(s) && !e.Arrive? && Enabled(s, e) && ReplyHonest(s.handler.receipts, s.jobs[e.j])
    ensures var t, job := Step(s, e), s.jobs[e.j];
            && ReplyHonest(t.handler.receipts, t.jobs[e.j])
            && (if e.Store? then
                  job.key !in s.handler.receipts
                  && t.handler.receipts == s.handler.receipts[job.key := Receipt(job.digest, job.phase.output)]
                else t.handler.receipts == s.handler.receipts)
  {
  }

  lemma OthersHonest(s: System, t: System, j: nat, stored: bool, r: Receipt)
    requires Inv(s) && j in s.jobs && j in t.jobs && t.jobs == s.jobs[j := t.jobs[j]]
    requires ReplyHonest(t.handler.receipts, t.jobs[j])
    requires stored ==> Working(s.jobs[j]) && s.jobs[j].key !in s.handler.receipts
    requires t.handler.receipts == if stored then s.handler.receipts[s.jobs[j].key := r] else s.handler.receipts
    ensures RepliesHonest(t)
  {
    forall i | i in t.jobs && i != j ensures ReplyHonest(t.handler.receipts, t.jobs[i]) {
      assert ReplyHonest(s.handler.receipts, s.jobs[i]);
      if stored && s.jobs[i].key == s.jobs[j].key && Working(s.jobs[i]) {
        Exclusion(s, i, j);
      }
    }
  }

  lemma {:induction false} StepInv(s: System, e: Event)
    requires Inv(s) && Enabled(s, e)
    ensures Inv(Step(s, e))
  {
    StepBalanced(s, e);
    if e.Arrive? {
      ArriveHonest(s, e);
    } else {
      var job := s.jobs[e.j];
      ActorHonest(s, e);
      OthersHonest(s, Step(s, e), e.j, e.Store?,
                   Receipt(job.digest, if job.phase.Produced? then job.phase.output else ""));
    }
  }

  lemma {:induction false} RunInv(states: seq<System>, events: seq<Event>, i: nat)
    requires IsRun(states, events) && i < |states|
    ensures Inv(states[i])
  {
    if i > 0 {
      RunInv(states, events, i - 1);
      assert Follows(states[i - 1], events[i - 1], states[i - 1 + 1]);
      StepInv(states[i - 1], events[i - 1]);
    }
  }

  // ----- Per-key locks and slots, over whole runs

  /** Jobs between registration and deregistration under a key. */
  ghost function Present(s: System, key: string): set<nat> {
    set j | j in s.jobs && !s.jobs[j].phase.Finished? && s.jobs[j].key == key
  }

  ghost function Inside(s: System, key: string): set<nat> {
    set j | j in s.jobs && Guarded(s.jobs[j]) && s.jobs[j].key == key
  }

  /** A key has a lock object exactly while some job is present, its reference count is the
      number of those jobs, they all use that object, and at most one is inside. */
  lemma KeyLockExact(states: seq<System>, events: seq<Event>, i: nat, key: string)
    requires IsRun(states, events) && i < |states|
    ensures var s := states[i];
            && (key in s.handler.keyLocks <==> Present(s, key) != {})
            && (key in s.handler.keyLocks ==>
                  var id := s.handler.keyLocks[key];
                  && id < |s.handler.locks|
                  && s.handler.locks[id].refs == |Present(s, key)|
                  && forall j :: j in Present(s, key) ==> s.jobs[j].phase.id == id)
            && |Inside(s, key)| <= 1
  {
    RunInv(states, events, i);
    var s := states[i];
    if key in s.handler.keyLocks {
      var id := s.handler.keyLocks[key];
      assert Members(s.jobs, IsRegisteredOn(id)) == Present(s, key);
      assert Members(s.jobs, IsGuardedBy(id)) == Inside(s, key);
    } else {
      assert Present(s, key) == {} && Inside(s, key) == {};
    }
  }

  ghost function SlotHolders(s: System): set<nat> {
    set j | j in s.jobs && HasSlot(s.jobs[j])
  }

  ghost predicate Replayed(job: Job) {
    HasReply(job) && job.phase.reply.Ok? && job.phase.reply.replayed
  }

  /** A step keeps every committed receipt, and a receipt appears only by the Store of a job. */
  lemma StepReceipts(s: System, e: Event)
    requires Inv(s) && Enabled(s, e)
    ensures var before, after := s.handler.receipts, Step(s, e).handler.receipts;
            if e.Store? then
              var job := s.jobs[e.j];
              job.key !in before && after == before[job.key := Receipt(job.digest, job.phase.output)]
            else after == before
  {
    if !e.Arrive? {
      assert ReplyHonest(s.handler.receipts, s.jobs[e.j]);
      ActorHonest(s, e);
    }
  }

  /** No step changes the concurrency limit or a committed receipt. */
  lemma FollowsKeeps(s: System, e: Event, t: System)
    requires Inv(s) && Follows(s, e, t)
    ensures t.handler.maxConcurrent == s.handler.maxConcurrent
    ensures forall key :: key in s.handler.receipts ==>
              key in t.handler.receipts && t.handler.receipts[key] == s.handler.receipts[key]
  {
    if !e.Arrive? {
      BalancedGrounds(s, e.j);
      StepDelta(s, e);
    }
    StepReceipts(s, e);
  }

  lemma RunKeeps(states: seq<System>, events: seq<Event>, i: nat)
    requires IsRun(states, events) && i < |events|
    ensures states[i + 1].handler.maxConcurrent == states[i].handler.maxConcurrent
    ensures forall key :: key in states[i].handler.receipts ==>
              key in states[i + 1].handler.receipts
                && states[i + 1].handler.receipts[key] == states[i].handler.receipts[key]
  {
    RunInv(states, events, i);
    FollowsKeeps(states[i], events[i], states[i + 1]);
  }

  lemma {:induction false} LimitFixed(states: seq<System>, events: seq<Event>, i: nat)
    requires IsRun(states, events) && i < |states|
    ensures states[i].handler.maxConcurrent == states[0].handler.maxConcurrent
  {
    if i > 0 {
      LimitFixed(states, events, i - 1);
      RunKeeps(states, events, i - 1);
    }
  }

  /** The semaphore is exactly the jobs that took a slot and have not returned it, never more
      than max(1, MaxConcurrent), and no replayed answer ever holds one. */
  lemma SlotsExact(states: seq<System>, events: seq<Event>, i: nat)
    requires IsRun(states, events) && i < |states|
    ensures states[i].handler.slots == |SlotHolders(states[i])| <= Limit(states[0].handler.maxConcurrent)
    ensures forall j :: j in states[i].jobs && Replayed(states[i].jobs[j]) ==> j !in SlotHolders(states[i])
  {
    RunInv(states, events, i);
    LimitFixed(states, events, i);
    assert Members(states[i].jobs, IsSlotted()) == SlotHolders(states[i]);
    forall j | j in states[i].jobs ensures ReplyHonest(states[i].handler.receipts, states[i].jobs[j]) {
    }
  }

  // ----- Replay safety, over whole runs

  /** A committed receipt never changes and never goes away. */
  lemma {:induction false} ReceiptsPermanent(states: seq<System>, events: seq<Event>, i: nat, k: nat, key: string)
    requires IsRun(states, events) && i <= k < |states| && key in states[i].handler.receipts
    ensures key in states[k].handler.receipts && states[k].handler.receipts[key] == states[i].handler.receipts[key]
    decreases k
  {
    if i < k {
      ReceiptsPermanent(states, events, i, k - 1, key);
      RunKeeps(states, events, k - 1);
    }
  }

  ghost predicate StoresUnder(s: System, e: Event, key: string) {
    e.Store? && e.j in s.jobs && s.jobs[e.j].key == key
  }

  lemma StoreCommits(states: seq<System>, events: seq<Event>, i: nat, key: string)
    requires IsRun(states, events) && i < |events| && StoresUnder(states[i], events[i], key)
    ensures key !in states[i].handler.receipts && key in states[i + 1].handler.receipts
  {
    RunInv(states, events, i);
    assert Follows(states[i], events[i], states[i + 1]);
    StepReceipts(states[i], events[i]);
  }

  /** A key is committed at most once in a run. */
  lemma CommitOnce(states: seq<System>, events: seq<Event>, i: nat, k: nat, key: string)
    requires IsRun(states, events) && i < |events| && k < |events|
    requires StoresUnder(states[i], events[i], key) && StoresUnder(states[k], events[k], key)
    ensures i == k
  {
    StoreCommits(states, events, i, key);
    StoreCommits(states, events, k, key);
    if i < k {
      ReceiptsPermanent(states, events, i + 1, k, key);
    } else if k < i {
      ReceiptsPermanent(states, events, k + 1, i, key);
    }
  }

  /** The operation runs only while its key has no receipt; every 200 carries the committed
      bytes under the caller's own digest; every conflict is one. */
  lemma RepliesMatchReceipts(states: seq<System>, events: seq<Event>, i: nat, j: nat)
    requires IsRun(states, events) && i < |states| && j in states[i].jobs
    ensures var job, receipts := states[i].jobs[j], states[i].handler.receipts;
            && (i < |events| && events[i].Execute? && events[i].j == j ==> job.key !in receipts)
            && (HasReply(job) && job.phase.reply.Ok? ==>
                  job.key in receipts && receipts[job.key] == Receipt(job.digest, job.phase.reply.response))
            && (HasReply(job) && job.phase.reply.Conflict? ==>
                  job.key in receipts && receipts[job.key].digest != job.digest)
  {
    RunInv(states, events, i);
    assert ReplyHonest(states[i].handler.receipts, states[i].jobs[j]);
    if i < |events| {
      assert Follows(states[i], events[i], states[i + 1]);
    }
  }

  /** A job under a key already committed at time `i` is never executed afterwards, and any
      answer it has is the committed bytes, a conflict, or an error, decided by its digest. */
  lemma AfterCommit(states: seq<System>, events: seq<Event>, i: nat, k: nat, j: nat)
    requires IsRun(states, events) && i <= k < |states| && j in states[k].jobs
    requires states[k].jobs[j].key in states[i].handler.receipts
    ensures var job := states[k].jobs[j];
            var r := states[i].handler.receipts[job.key];
            && !Working(job)
            && (HasReply(job) ==>
                  match job.phase.reply
                  case Ok(response, _) => job.digest == r.digest && response == r.response
                  case Conflict => job.digest != r.digest
                  case Error => true)
  {
    ReceiptsPermanent(states, events, i, k, states[k].jobs[j].key);
    RunInv(states, events, k);
    assert ReplyHonest(states[k].handler.receipts, states[k].jobs[j]);
  }

  // ----- What is answered when nothing fails

  /** Where the reply of a job comes from: it had it, found it, got it from Put, or failed. */
  ghost predicate Replies(receipts: map<string, Receipt>, was: Job, e: Event, now: Job) {
    && now.key == was.key && now.digest == was.digest
    && (HasReply(was) ==> HasReply(now) && now.phase.reply == was.phase.reply)
    && (!HasReply(was) && HasReply(now) ==>
          match e
          case Find(_) =>
            && was.phase.Locked? && was.key in receipts
            && now.phase.reply == (if receipts[was.key].digest == was.digest
                                   then Ok(receipts[was.key].response, true) else Conflict)
          case Store(_) =>
            && was.phase.Produced?
            && now.phase.reply == (if was.key !in receipts || receipts[was.key].digest == was.digest
                                   then Ok(was.phase.output, false) else Conflict)
          case Fail(_) => now.phase.reply == Error
          case _ => false)
    && (was.phase.Locked? && e.Find? && was.key in receipts ==> HasReply(now))
    && (!HasReply(now) && !Working(now) ==> !HasReply(was) && !Working(was))
    && (Working(now) ==> Working(was) || (was.phase.Locked? && was.key !in receipts))
    && (now.phase.Produced? ==> now.phase == was.phase || (e.Execute? && e.output == now.phase.output))
  }

  lemma StepReplies(s: System, e: Event)
    requires WellFormed(s) && Enabled(s, e) && !e.Arrive?
    ensures var t := Step(s, e);
            e.j in t.jobs && t.jobs == s.jobs[e.j := t.jobs[e.j]]
            && Replies(s.handler.receipts, s.jobs[e.j], e, t.jobs[e.j])
  {
  }

  lemma ArriveReplies(s: System, e: Event)
    requires WellFormed(s) && Enabled(s, e) && e.Arrive?
    ensures var t := Step(s, e);
            && e.j in t.jobs && t.jobs == s.jobs[e.j := t.jobs[e.j]]
            && t.jobs[e.j].phase.Registered? && t.jobs[e.j].key == e.key && t.jobs[e.j].digest == e.digest
  {
  }

  lemma FollowsReplies(s: System, e: Event, t: System, j: nat)
    requires Follows(s, e, t) && j in t.jobs
    ensures e.j != j ==> j in s.jobs && t.jobs[j] == s.jobs[j]
    ensures e.j == j && e.Arrive? ==>
              t.jobs[j].phase.Registered? && t.jobs[j].key == e.key && t.jobs[j].digest == e.digest
    ensures e.j == j && !e.Arrive? ==> j in s.jobs && Replies(s.handler.receipts, s.jobs[j], e, t.jobs[j])
  {
    if e.Arrive? {
      ArriveReplies(s, e);
    } else {
      StepReplies(s, e);
    }
  }

  /** A job keeps the key and the digest it arrived with. */
  lemma {:induction false} JobOrigin(states: seq<System>, events: seq<Event>, i: nat, j: nat) returns (m: nat)
    requires IsRun(states, events) && i < |states| && j in states[i].jobs
    ensures m < i && events[m] == Arrive(j, states[i].jobs[j].key, states[i].jobs[j].digest)
    decreases i
  {
    if i == 0 {
      assert false;
    }
    FollowsReplies(states[i - 1], events[i - 1], states[i - 1 + 1], j);
    if events[i - 1].Arrive? && events[i - 1].j == j {
      m := i - 1;
    } else {
      m := JobOrigin(states, events, i - 1, j);
    }
  }

  lemma {:induction false} OutputOrigin(states: seq<System>, events: seq<Event>, i: nat, j: nat) returns (m: nat)
    requires IsRun(states, events) && i < |states| && j in states[i].jobs && states[i].jobs[j].phase.Produced?
    ensures m < i && events[m] == Execute(j, states[i].jobs[j].phase.output)
    decreases i
  {
    if i == 0 {
      assert false;
    }
    FollowsReplies(states[i - 1], events[i - 1], states[i - 1 + 1], j);
    if events[i - 1].Execute? && events[i - 1].j == j {
      m := i - 1;
    } else {
      m := OutputOrigin(states, events, i - 1, j);
    }
  }

  /** Every committed receipt is what an execution returned, for a job that arrived with that
      key and digest; both events are exhibited. */
  lemma {:induction false} ReceiptOrigin(states: seq<System>, events: seq<Event>, i: nat, key: string)
    returns (j: nat, m: nat, k: nat)
    requires IsRun(states, events) && i < |states| && key in states[i].handler.receipts
    ensures m < i && events[m] == Execute(j, states[i].handler.receipts[key].response)
    ensures k < i && events[k] == Arrive(j, key, states[i].handler.receipts[key].digest)
    decreases i
  {
    if i == 0 {
      assert false;
    }
    RunInv(states, events, i - 1);
    assert Follows(states[i - 1], events[i - 1], states[i - 1 + 1]);
    StepReceipts(states[i - 1], events[i - 1]);
    if StoresUnder(states[i - 1], events[i - 1], key) {
      j := events[i - 1].j;
      m := OutputOrigin(states, events, i - 1, j);
      k := JobOrigin(states, events, i - 1, j);
    } else {
      j, m, k := ReceiptOrigin(states, events, i - 1, key);
    }
  }

  /** A job answers with an error only if it failed; the event is exhibited. */
  lemma {:induction false} ErrorCause(states: seq<System>, events: seq<Event>, i: nat, j: nat) returns (m: nat)
    requires IsRun(states, events) && i < |states| && j in states[i].jobs
    requires HasReply(states[i].jobs[j]) && states[i].jobs[j].phase.reply == Error
    ensures m < i && events[m] == Fail(j)
    decreases i
  {
    if i == 0 {
      assert false;
    }
    FollowsReplies(states[i - 1], events[i - 1], states[i - 1 + 1], j);
    if events[i - 1] == Fail(j) {
      m := i - 1;
    } else {
      m := ErrorCause(states, events, i - 1, j);
    }
  }

  /** What a job that did not fail is answered: the committed bytes for the committed digest,
      and a conflict for any other. */
  lemma AnsweredByDigest(states: seq<System>, events: seq<Event>, i: nat, j: nat)
    requires IsRun(states, events) && i < |states| && j in states[i].jobs && HasReply(states[i].jobs[j])
    requires forall m :: 0 <= m < i ==> events[m] != Fail(j)
    ensures var job, receipts := states[i].jobs[j], states[i].handler.receipts;
            && job.key in receipts
            && (job.phase.reply.Ok? <==> receipts[job.key].digest == job.digest)
            && (job.phase.reply == Conflict <==> receipts[job.key].digest != job.digest)
            && (job.phase.reply.Ok? ==> job.phase.reply.response == receipts[job.key].response)
  {
    if states[i].jobs[j].phase.reply == Error {
      var m := ErrorCause(states, events, i, j);
    }
    RunInv(states, events, i);
    assert ReplyHonest(states[i].handler.receipts, states[i].jobs[j]);
  }

  /** The job has not looked its key up yet. */
  ghost predicate Early(s: System, j: nat) {
    j !in s.jobs || s.jobs[j].phase.Registered? || s.jobs[j].phase.Locked?
  }

  /** The key holds `r`, and job `j` has not looked it up yet or was answered by it. */
  ghost predicate ByReplay(s: System, j: nat, key: string, r: Receipt) {
    && key in s.handler.receipts && s.handler.receipts[key] == r
    && (Early(s, j) || s.jobs[j].key != key
        || (HasReply(s.jobs[j]) && s.jobs[j].phase.reply
              == if s.jobs[j].digest == r.digest then Ok(r.response, true) else Conflict))
  }

  lemma ReplayStep(s: System, e: Event, t: System, j: nat, key: string, r: Receipt)
    requires Inv(s) && Follows(s, e, t) && e != Fail(j) && ByReplay(s, j, key, r)
    ensures ByReplay(t, j, key, r)
  {
    FollowsKeeps(s, e, t);
    if j in t.jobs {
      FollowsReplies(s, e, t, j);
    }
  }

  lemma ReplayAt(states: seq<System>, events: seq<Event>, i: nat, j: nat, key: string, r: Receipt)
    requires IsRun(states, events) && i < |events| && events[i] != Fail(j) && ByReplay(states[i], j, key, r)
    ensures ByReplay(states[i + 1], j, key, r)
  {
    RunInv(states, events, i);
    ReplayStep(states[i], events[i], states[i + 1], j, key, r);
  }

  /** Replay: a job that looks up a committed key and does not fail is answered with the
      committed bytes, marked as replayed, exactly if its digest is the committed one, and
      with a conflict otherwise. */
  lemma {:induction false} ReplayExact(states: seq<System>, events: seq<Event>, i: nat, k: nat, j: nat, key: string)
    requires IsRun(states, events) && i <= k < |states| && key in states[i].handler.receipts && Early(states[i], j)
    requires forall m :: i <= m < k ==> events[m] != Fail(j)
    ensures ByReplay(states[k], j, key, states[i].handler.receipts[key])
    decreases k
  {
    if i < k {
      ReplayExact(states, events, i, k - 1, j, key);
      ReplayAt(states, events, k - 1, j, key, states[i].handler.receipts[key]);
    }
  }

  // ----- Progress

  ghost predicate AllFinished(s: System) {
    forall j :: j in s.jobs ==> s.jobs[j].phase.Finished?
  }

  lemma HolderCanAct(s: System, j: nat) returns (e: Event)
    requires Inv(s) && j in s.jobs && HasSlot(s.jobs[j])
    ensures WellFormed(s) && Enabled(s, e) && !e.Arrive? && !e.Fail?
  {
    match s.jobs[j].phase
    case Running(_) => e := Execute(j, "");
    case Produced(_, _) => e := Store(j);
    case Answered(_, _, _) =>
      BalancedGrounds(s, j);
      e := ReturnSlot(j);
  }

  /** A job inside the guarded section can act itself, or waits for a slot whose holder can. */
  lemma InsiderCanAct(s: System, j: nat) returns (e: Event)
    requires Inv(s) && j in s.jobs && Guarded(s.jobs[j])
    ensures WellFormed(s) && Enabled(s, e) && !e.Arrive? && !e.Fail?
  {
    if s.jobs[j].phase.AwaitSlot? && s.handler.slots >= Limit(s.handler.maxConcurrent) {
      CountPositive(s.jobs, IsSlotted());
      var h :| h in s.jobs && IsSlotted()(s.jobs[h]);
      e := HolderCanAct(s, h);
    } else if HasSlot(s.jobs[j]) {
      e := HolderCanAct(s, j);
    } else {
      match s.jobs[j].phase
      case Locked(_) => e := Find(j);
      case AwaitSlot(_) => e := TakeSlot(j);
      case Answered(_, _, _) => e := Unlock(j);
    }
  }

  /** Deadlock freedom: while a job is unfinished some job can act, without an arrival and
      without any operation failing or being cancelled. */
  lemma SomeJobCanAct(s: System) returns (e: Event)
    requires Inv(s) && !AllFinished(s)
    ensures WellFormed(s) && Enabled(s, e) && !e.Arrive? && !e.Fail?
  {
    var j :| j in s.jobs && !s.jobs[j].phase.Finished?;
    if s.jobs[j].phase.Registered? && s.handler.locks[s.jobs[j].phase.id].locked {
      var id := s.jobs[j].phase.id;
      CountPositive(s.jobs, IsGuardedBy(id));
      var h :| h in s.jobs && IsGuardedBy(id)(s.jobs[h]);
      e := InsiderCanAct(s, h);
    } else if s.jobs[j].phase.Registered? {
      e := Lock(j);
    } else if s.jobs[j].phase.Leaving? {
      e := Leave(j);
    } else {
      e := InsiderCanAct(s, j);
    }
  }

  /** How many actions a job may still take. */
  ghost function Rank(job: Job): nat
    ensures Rank(job) <= 8
  {
    match job.phase
    case Registered(_) => 8
    case Locked(_) => 7
    case AwaitSlot(_) => 6
    case Running(_) => 5
    case Produced(_, _) => 4
    case Answered(_, _, slot) => if slot then 3 else 2
    case Leaving(_, _) => 1
    case Finished(_) => 0
  }

  ghost function RankAtLeast(r: nat): Job -> bool {
    job => Rank(job) >= r
  }

  ghost function Min(a: nat, b: nat): nat {
    if a <= b then a else b
  }

  /** The total rank of all jobs, each counted up to `r`. */
  ghost function Work(jobs: map<nat, Job>, r: nat): nat {
    if r == 0 then 0 else Work(jobs, r - 1) + Count(jobs, RankAtLeast(r))
  }

  lemma {:induction false} WorkUpdate(jobs: map<nat, Job>, j: nat, job: Job, r: nat)
    requires j in jobs
    ensures Work(jobs[j := job], r) == Work(jobs, r) - Min(Rank(jobs[j]), r) + Min(Rank(job), r)
  {
    if r > 0 {
      WorkUpdate(jobs, j, job, r - 1);
      CountUpdate(jobs, j, job, RankAtLeast(r));
    }
  }

  lemma RankFalls(s: System, e: Event)
    requires WellFormed(s) && Enabled(s, e) && !e.Arrive?
    ensures var t := Step(s, e);
            e.j in t.jobs && t.jobs == s.jobs[e.j := t.jobs[e.j]] && Rank(t.jobs[e.j]) < Rank(s.jobs[e.j])
  {
  }

  /** Every action other than an arrival uses up work, so without arrivals every schedule ends. */
  lemma ActionUsesWork(s: System, e: Event, t: System)
    requires Follows(s, e, t) && !e.Arrive?
    ensures Work(t.jobs, 8) < Work(s.jobs, 8)
  {
    RankFalls(s, e);
    WorkUpdate(s.jobs, e.j, t.jobs[e.j], 8);
  }

  /** Without arrivals no schedule takes more than `Work` actions, whatever order it picks. */
  lemma {:induction false} ScheduleBounded(states: seq<System>, events: seq<Event>, i: nat, k: nat)
    requires IsRun(states, events) && i <= k < |states|
    requires forall m :: i <= m < k ==> !events[m].Arrive?
    ensures k - i + Work(states[k].jobs, 8) <= Work(states[i].jobs, 8)
    decreases k
  {
    if i < k {
      ScheduleBounded(states, events, i, k - 1);
      ActionUsesWork(states[k - 1], events[k - 1], states[k - 1 + 1]);
    }
  }

  ghost predicate Acts(s: System, e: Event, t: System) {
    Follows(s, e, t) && !e.Arrive? && !e.Fail?
  }

  /** A schedule from `s` without arrivals, failures or cancellations. */
  ghost predicate Schedule(s: System, states: seq<System>, events: seq<Event>) {
    && |states| == |events| + 1 && states[0] == s
    && forall i {:trigger events[i]} :: 0 <= i < |events| ==> Acts(states[i], events[i], states[i + 1])
  }

  lemma SchedulePrepend(s: System, e: Event, t: System, states: seq<System>, events: seq<Event>)
    requires Acts(s, e, t) && Schedule(t, states, events)
    ensures Schedule(s, [s] + states, [e] + events)
  {
    var ss, es := [s] + states, [e] + events;
    forall i | 0 <= i < |es| ensures Acts(ss[i], es[i], ss[i + 1]) {
      if i > 0 {
        assert Acts(states[i - 1], events[i - 1], states[i - 1 + 1]);
      }
    }
  }

  /** From any state that satisfies the invariant, some schedule without arrivals, failures
      or cancellations answers every job. */
  lemma {:induction false} EveryJobFinishes(s: System) returns (states: seq<System>, events: seq<Event>)
    requires Inv(s)
    ensures Schedule(s, states, events) && AllFinished(states[|events|]) && |events| <= Work(s.jobs, 8)
    decreases Work(s.jobs, 8)
  {
    if AllFinished(s) {
      states, events := [s], [];
    } else {
      var e := SomeJobCanAct(s);
      var t := Step(s, e);
      ActionUsesWork(s, e, t);
      StepInv(s, e);
      states, events := EveryJobFinishes(t);
      SchedulePrepend(s, e, t, states, events);
      states, events := [s] + states, [e] + events;
    }
  }

  lemma ActKeeps(s: System, e: Event, t: System)
    requires Inv(s) && Acts(s, e, t)
    ensures Inv(t) && Work(t.jobs, 8) < Work(s.jobs, 8)
  {
    StepInv(s, e);
    ActionUsesWork(s, e, t);
  }

  lemma {:induction false} ScheduleUsesWork(s: System, states: seq<System>, events: seq<Event>, k: nat)
    requires Inv(s) && Schedule(s, states, events) && k <= |events|
    ensures Inv(states[k]) && k + Work(states[k].jobs, 8) <= Work(s.jobs, 8)
  {
    if k > 0 {
      ScheduleUsesWork(s, states, events, k - 1);
      ActKeeps(states[k - 1], events[k - 1], states[k - 1 + 1]);
    }
  }

  lemma ActorUnfinished(s: System, e: Event, t: System)
    requires Acts(s, e, t)
    ensures e.j in s.jobs && !s.jobs[e.j].phase.Finished?
  {
  }

  /** Whatever order jobs act in, a schedule is no longer than the work left, and one that
      cannot be continued has answered every job. */
  lemma EveryScheduleFinishes(s: System, states: seq<System>, events: seq<Event>)
    requires Inv(s) && Schedule(s, states, events)
    ensures |events| <= Work(s.jobs, 8)
    ensures AllFinished(states[|events|]) <==> forall e, t :: !Acts(states[|events|], e, t)
  {
    ScheduleUsesWork(s, states, events, |events|);
    var last := states[|events|];
    if AllFinished(last) {
      forall e, t ensures !Acts(last, e, t) {
        if Acts(last, e, t) {
          ActorUnfinished(last, e, t);
        }
      }
    } else {
      var e := SomeJobCanAct(last);
      assert Acts(last, e, Step(last, e));
    }
  }
}
