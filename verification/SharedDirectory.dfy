/** Several worker handlers, each with its own key locks and slots, over one receipt
    directory.  A Put is one event; `InterleavedPuts` takes it apart. */
module SharedDirectory {
  import opened WorkerHandler
  import Counting
  import WorkerRuns
  import ReceiptStore

  /** The handlers' own receipt maps stay empty: they all read `files`. */
  datatype Fleet = Fleet(handlers: seq<WorkerRuns.System>, files: map<string, Receipt>)

  /** One atomic action of a job of handler `h`. */
  datatype Event = Event(h: nat, action: WorkerRuns.Event)

  /** Handler `h` with the directory as its receipt store. */
  function Seen(f: Fleet, h: nat): WorkerRuns.System
    requires h < |f.handlers|
  {
    f.handlers[h].(handler := f.handlers[h].handler.(receipts := f.files))
  }

  function Blind(s: WorkerRuns.System): WorkerRuns.System {
    s.(handler := s.handler.(receipts := map[]))
  }

  ghost predicate Enabled(f: Fleet, e: Event) {
    && e.h < |f.handlers|
    && WorkerRuns.WellFormed(Seen(f, e.h))
    && WorkerRuns.Enabled(Seen(f, e.h), e.action)
  }

  ghost function Files(f: Fleet, e: Event): map<string, Receipt>
    requires Enabled(f, e)
  {
    if !e.action.Store? then f.files else
      var job := f.handlers[e.h].jobs[e.action.j];
      ReceiptStore.Linked(f.files, ReceiptStore.Entry(job.key, Receipt(job.digest, job.phase.output)))
  }

  ghost function Step(f: Fleet, e: Event): Fleet
    requires Enabled(f, e)
  {
    Fleet(f.handlers[e.h := Blind(WorkerRuns.Step(Seen(f, e.h), e.action))], Files(f, e))
  }

  ghost predicate Follows(f: Fleet, e: Event, t: Fleet) {
    Enabled(f, e) && t == Step(f, e)
  }

  ghost predicate Fresh(f: Fleet) {
    && f.files == map[]
    && forall h :: 0 <= h < |f.handlers| ==> f.handlers[h] == WorkerRuns.Initial(f.handlers[h].handler.maxConcurrent)
  }

  ghost predicate IsRun(states: seq<Fleet>, events: seq<Event>) {
    && |states| == |events| + 1
    && Fresh(states[0])
    && forall i {:trigger events[i]} :: 0 <= i < |events| ==> Follows(states[i], events[i], states[i + 1])
  }

  // ----- One action

  /** What one action does to the jobs of its handler, given the receipts it sees. */
  ghost predicate Acted(receipts: map<string, Receipt>, was: map<nat, WorkerRuns.Job>, e: WorkerRuns.Event,
                        now: map<nat, WorkerRuns.Job>)
  {
    && e.j in now && now == was[e.j := now[e.j]]
    && if e.Arrive? then now[e.j].phase.Registered? && now[e.j].key == e.key && now[e.j].digest == e.digest
       else e.j in was && WorkerRuns.Replies(receipts, was[e.j], e, now[e.j])
  }

  lemma ActionActs(s: WorkerRuns.System, e: WorkerRuns.Event)
    requires WorkerRuns.WellFormed(s) && WorkerRuns.Enabled(s, e)
    ensures Acted(s.handler.receipts, s.jobs, e, WorkerRuns.Step(s, e).jobs)
  {
    if e.Arrive? {
      WorkerRuns.ArriveReplies(s, e);
    } else {
      WorkerRuns.StepReplies(s, e);
    }
  }

  ghost predicate Kept(before: map<string, Receipt>, after: map<string, Receipt>) {
    forall key :: key in before ==> key in after && after[key] == before[key]
  }

  /** A step is one action of one handler; only a Put touches the directory, and only where
      there was no file. */
  lemma StepActs(f: Fleet, e: Event, t: Fleet)
    requires Follows(f, e, t)
    ensures e.h < |f.handlers| == |t.handlers|
    ensures Acted(f.files, f.handlers[e.h].jobs, e.action, t.handlers[e.h].jobs)
    ensures forall h :: 0 <= h < |f.handlers| && h != e.h ==> t.handlers[h] == f.handlers[h]
    ensures Kept(f.files, t.files)
    ensures if e.action.Store? then
              var job := f.handlers[e.h].jobs[e.action.j];
              t.files == ReceiptStore.Linked(f.files,
                                             ReceiptStore.Entry(job.key, Receipt(job.digest, job.phase.output)))
            else t.files == f.files
  {
    ActionActs(Seen(f, e.h), e.action);
  }

  // ----- The invariant

  /** A conflict is one, a 200 is for the committed digest, and a replay has the committed bytes. */
  ghost predicate Honest(files: map<string, Receipt>, job: WorkerRuns.Job) {
    WorkerRuns.HasReply(job) ==>
      match job.phase.reply
      case Ok(response, replayed) =>
        job.key in files && files[job.key].digest == job.digest && (replayed ==> files[job.key].response == response)
      case Conflict => job.key in files && files[job.key].digest != job.digest
      case Error => true
  }

  ghost predicate AllHonest(files: map<string, Receipt>, jobs: map<nat, WorkerRuns.Job>) {
    forall j :: j in jobs ==> Honest(files, jobs[j])
  }

  ghost predicate AllBalanced(f: Fleet) {
    forall h :: 0 <= h < |f.handlers| ==> WorkerRuns.Balanced(f.handlers[h])
  }

  ghost predicate Inv(f: Fleet) {
    && AllBalanced(f)
    && forall h :: 0 <= h < |f.handlers| ==> AllHonest(f.files, f.handlers[h].jobs)
  }

  lemma ReceiptsApart(s: WorkerRuns.System, receipts: map<string, Receipt>)
    ensures WorkerRuns.Balanced(s.(handler := s.handler.(receipts := receipts))) <==> WorkerRuns.Balanced(s)
  {
  }

  lemma StepAllBalanced(f: Fleet, e: Event)
    requires AllBalanced(f) && Enabled(f, e)
    ensures AllBalanced(Step(f, e))
  {
    var s := Seen(f, e.h);
    ReceiptsApart(f.handlers[e.h], f.files);
    WorkerRuns.StepBalanced(s, e.action);
    ReceiptsApart(WorkerRuns.Step(s, e.action), map[]);
  }

  lemma KeptHonest(before: map<string, Receipt>, after: map<string, Receipt>, jobs: map<nat, WorkerRuns.Job>)
    requires AllHonest(before, jobs) && Kept(before, after)
    ensures AllHonest(after, jobs)
  {
    forall j | j in jobs ensures Honest(after, jobs[j]) {
      assert Honest(before, jobs[j]);
    }
  }

  lemma ActorHonest(f: Fleet, e: Event, t: Fleet)
    requires Follows(f, e, t) && e.h < |f.handlers| && AllHonest(f.files, f.handlers[e.h].jobs)
    ensures e.h < |t.handlers| && AllHonest(t.files, t.handlers[e.h].jobs)
  {
    StepActs(f, e, t);
    KeptHonest(f.files, t.files, f.handlers[e.h].jobs);
    var j := e.action.j;
    assert j in f.handlers[e.h].jobs ==> Honest(t.files, f.handlers[e.h].jobs[j]);
    assert Honest(t.files, t.handlers[e.h].jobs[j]);
  }

  lemma StepInv(f: Fleet, e: Event, t: Fleet)
    requires Inv(f) && Follows(f, e, t)
    ensures Inv(t)
  {
    StepAllBalanced(f, e);
    StepActs(f, e, t);
    ActorHonest(f, e, t);
    forall h | 0 <= h < |t.handlers| && h != e.h ensures AllHonest(t.files, t.handlers[h].jobs) {
      KeptHonest(f.files, t.files, f.handlers[h].jobs);
    }
  }

  lemma FreshInv(f: Fleet)
    requires Fresh(f)
    ensures Inv(f)
  {
    forall h | 0 <= h < |f.handlers| ensures WorkerRuns.Balanced(f.handlers[h]) {
      var s := f.handlers[h];
      assert Counting.Members(s.jobs, WorkerRuns.IsSlotted()) == {};
    }
  }

  lemma {:induction false} RunInv(states: seq<Fleet>, events: seq<Event>, i: nat)
    requires IsRun(states, events) && i < |states|
    ensures Inv(states[i])
  {
    if i == 0 {
      FreshInv(states[0]);
    } else {
      RunInv(states, events, i - 1);
      StepInv(states[i - 1], events[i - 1], states[i - 1 + 1]);
    }
  }

  // ----- Whole runs

  /** Whoever committed it, a receipt stays. */
  lemma {:induction false} FilesPermanent(states: seq<Fleet>, events: seq<Event>, i: nat, k: nat)
    requires IsRun(states, events) && i <= k < |states|
    ensures Kept(states[i].files, states[k].files)
    decreases k
  {
    if i < k {
      FilesPermanent(states, events, i, k - 1);
      StepActs(states[k - 1], events[k - 1], states[k - 1 + 1]);
    }
  }

  /** Each handler has at most one job at work under a key, committed or not. */
  lemma OneWorkerPerHandler(states: seq<Fleet>, events: seq<Event>, i: nat, h: nat, a: nat, b: nat)
    requires IsRun(states, events) && i < |states| && h < |states[i].handlers|
    requires var jobs := states[i].handlers[h].jobs;
             && a in jobs && b in jobs && jobs[a].key == jobs[b].key
             && WorkerRuns.Working(jobs[a]) && WorkerRuns.Working(jobs[b])
    ensures a == b
  {
    RunInv(states, events, i);
    WorkerRuns.Exclusion(states[i].handlers[h], a, b);
  }

  /** The key is committed and no job of handler `h` is at work under it. */
  ghost predicate Idle(f: Fleet, h: nat, key: string) {
    && h < |f.handlers| && key in f.files
    && forall j :: j in f.handlers[h].jobs && f.handlers[h].jobs[j].key == key ==>
       !WorkerRuns.Working(f.handlers[h].jobs[j])
  }

  lemma IdleStays(f: Fleet, e: Event, t: Fleet, h: nat, key: string)
    requires Follows(f, e, t) && Idle(f, h, key)
    ensures Idle(t, h, key)
  {
    StepActs(f, e, t);
  }

  lemma {:induction false} IdleThrough(states: seq<Fleet>, events: seq<Event>, i: nat, k: nat, h: nat, key: string)
    requires IsRun(states, events) && i <= k < |states| && Idle(states[i], h, key)
    ensures Idle(states[k], h, key)
    decreases k
  {
    if i < k {
      IdleThrough(states, events, i, k - 1, h, key);
      IdleStays(states[k - 1], events[k - 1], states[k - 1 + 1], h, key);
    }
  }

  ghost predicate StoresUnder(f: Fleet, e: Event, h: nat, key: string) {
    e.h == h < |f.handlers| && WorkerRuns.StoresUnder(f.handlers[h], e.action, key)
  }

  lemma IdleAfterStore(f: Fleet, e: Event, t: Fleet, h: nat, key: string)
    requires Inv(f) && Follows(f, e, t) && StoresUnder(f, e, h, key)
    ensures Idle(t, h, key)
  {
    StepActs(f, e, t);
    var s := f.handlers[h];
    forall j | j in t.handlers[h].jobs && t.handlers[h].jobs[j].key == key
      ensures !WorkerRuns.Working(t.handlers[h].jobs[j])
    {
      if j != e.action.j && WorkerRuns.Working(s.jobs[j]) {
        WorkerRuns.Exclusion(s, j, e.action.j);
      }
    }
  }

  /** No handler ever puts a second receipt under a key. */
  lemma StoreOncePerHandler(states: seq<Fleet>, events: seq<Event>, i: nat, k: nat, h: nat, key: string)
    requires IsRun(states, events) && i < k < |events|
    requires StoresUnder(states[i], events[i], h, key)
    ensures !StoresUnder(states[k], events[k], h, key)
  {
    RunInv(states, events, i);
    IdleAfterStore(states[i], events[i], states[i + 1], h, key);
    IdleThrough(states, events, i + 1, k, h, key);
    StepActs(states[k], events[k], states[k + 1]);
  }

  /** The key is committed; job `j` is not at work under it and has no 200 of its own making. */
  ghost predicate Late(f: Fleet, h: nat, j: nat, key: string) {
    && h < |f.handlers| && key in f.files
    && (j in f.handlers[h].jobs && f.handlers[h].jobs[j].key == key ==>
          var job := f.handlers[h].jobs[j];
          && !WorkerRuns.Working(job)
          && (WorkerRuns.HasReply(job) && job.phase.reply.Ok? ==> job.phase.reply.replayed))
  }

  lemma {:induction false} LateThrough(states: seq<Fleet>, events: seq<Event>, i: nat, k: nat, h: nat, j: nat,
                                       key: string)
    requires IsRun(states, events) && i <= k < |states| && Late(states[i], h, j, key)
    ensures Late(states[k], h, j, key)
    decreases k
  {
    if i < k {
      LateThrough(states, events, i, k - 1, h, j, key);
      StepActs(states[k - 1], events[k - 1], states[k - 1 + 1]);
    }
  }

  /** On every handler a job that comes late is never executed, and its answer is a replay of
      the bytes committed at time `i`, a conflict or an error, decided by its digest. */
  lemma AfterCommit(states: seq<Fleet>, events: seq<Event>, i: nat, k: nat, h: nat, j: nat, key: string)
    requires IsRun(states, events) && i <= k < |states| && Late(states[i], h, j, key)
    ensures h < |states[k].handlers|
    ensures j in states[k].handlers[h].jobs && states[k].handlers[h].jobs[j].key == key ==>
              var job, r := states[k].handlers[h].jobs[j], states[i].files[key];
              && !WorkerRuns.Working(job)
              && (WorkerRuns.HasReply(job) ==>
                    match job.phase.reply
                    case Ok(response, replayed) => replayed && job.digest == r.digest && response == r.response
                    case Conflict => job.digest != r.digest
                    case Error => true)
  {
    LateThrough(states, events, i, k, h, j, key);
    FilesPermanent(states, events, i, k);
    RunInv(states, events, k);
    if j in states[k].handlers[h].jobs {
      assert Honest(states[k].files, states[k].handlers[h].jobs[j]);
    }
  }

  lemma {:induction false} JobOrigin(states: seq<Fleet>, events: seq<Event>, i: nat, h: nat, j: nat) returns (m: nat)
    requires IsRun(states, events) && i < |states| && h < |states[i].handlers| && j in states[i].handlers[h].jobs
    ensures var job := states[i].handlers[h].jobs[j];
            m < i && events[m] == Event(h, WorkerRuns.Arrive(j, job.key, job.digest))
    decreases i
  {
    if i == 0 {
      assert false;
    }
    StepActs(states[i - 1], events[i - 1], states[i - 1 + 1]);
    if events[i - 1].h == h && events[i - 1].action.j == j && events[i - 1].action.Arrive? {
      m := i - 1;
    } else {
      m := JobOrigin(states, events, i - 1, h, j);
    }
  }

  lemma {:induction false} OutputOrigin(states: seq<Fleet>, events: seq<Event>, i: nat, h: nat, j: nat) returns (m: nat)
    requires IsRun(states, events) && i < |states| && h < |states[i].handlers| && j in states[i].handlers[h].jobs
    requires states[i].handlers[h].jobs[j].phase.Produced?
    ensures m < i && events[m] == Event(h, WorkerRuns.Execute(j, states[i].handlers[h].jobs[j].phase.output))
    decreases i
  {
    if i == 0 {
      assert false;
    }
    StepActs(states[i - 1], events[i - 1], states[i - 1 + 1]);
    if events[i - 1].h == h && events[i - 1].action.j == j && events[i - 1].action.Execute? {
      m := i - 1;
    } else {
      m := OutputOrigin(states, events, i - 1, h, j);
    }
  }

  /** Every committed receipt is what an execution on some handler returned, for a job that
      arrived there with that key and digest. */
  lemma {:induction false} FileOrigin(states: seq<Fleet>, events: seq<Event>, i: nat, key: string)
    returns (h: nat, j: nat, m: nat, k: nat)
    requires IsRun(states, events) && i < |states| && key in states[i].files
    ensures m < i && events[m] == Event(h, WorkerRuns.Execute(j, states[i].files[key].response))
    ensures k < i && events[k] == Event(h, WorkerRuns.Arrive(j, key, states[i].files[key].digest))
    decreases i
  {
    if i == 0 {
      assert false;
    }
    var e := events[i - 1];
    StepActs(states[i - 1], e, states[i - 1 + 1]);
    if key in states[i - 1].files {
      h, j, m, k := FileOrigin(states, events, i - 1, key);
    } else {
      h, j := e.h, e.action.j;
      m := OutputOrigin(states, events, i - 1, h, j);
      k := JobOrigin(states, events, i - 1, h, j);
    }
  }

  /** On every handler a job answers with an error only if it failed; the event is exhibited. */
  lemma {:induction false} ErrorCause(states: seq<Fleet>, events: seq<Event>, i: nat, h: nat, j: nat) returns (m: nat)
    requires IsRun(states, events) && i < |states| && h < |states[i].handlers| && j in states[i].handlers[h].jobs
    requires WorkerRuns.HasReply(states[i].handlers[h].jobs[j])
    requires states[i].handlers[h].jobs[j].phase.reply == WorkerRuns.Error
    ensures m < i && events[m] == Event(h, WorkerRuns.Fail(j))
    decreases i
  {
    if i == 0 {
      assert false;
    }
    StepActs(states[i - 1], events[i - 1], states[i - 1 + 1]);
    if events[i - 1] == Event(h, WorkerRuns.Fail(j)) {
      m := i - 1;
    } else {
      m := ErrorCause(states, events, i - 1, h, j);
    }
  }

  /** Replay across handlers: once any of them has committed a key, a job on any of them that
      comes late and never fails is answered with those bytes, marked as replayed, exactly if
      its digest is the committed one, and with a conflict otherwise. */
  lemma ReplayExact(states: seq<Fleet>, events: seq<Event>, i: nat, k: nat, h: nat, j: nat, key: string)
    requires IsRun(states, events) && i <= k < |states| && Late(states[i], h, j, key)
    requires forall m :: 0 <= m < k ==> events[m] != Event(h, WorkerRuns.Fail(j))
    ensures h < |states[k].handlers|
    ensures var jobs, r := states[k].handlers[h].jobs, states[i].files[key];
            j in jobs && jobs[j].key == key && WorkerRuns.HasReply(jobs[j]) ==>
              jobs[j].phase.reply == if jobs[j].digest == r.digest then WorkerRuns.Ok(r.response, true)
                                     else WorkerRuns.Conflict
  {
    AfterCommit(states, events, i, k, h, j, key);
    var jobs := states[k].handlers[h].jobs;
    if j in jobs && WorkerRuns.HasReply(jobs[j]) && jobs[j].phase.reply == WorkerRuns.Error {
      var m := ErrorCause(states, events, k, h, j);
    }
  }

  // ----- What a 200 carries

  ghost predicate Answers(f: Fleet, h: nat, j: nat, key: string, digest: string, response: string, replayed: bool) {
    && h < |f.handlers| && j in f.handlers[h].jobs
    && var job := f.handlers[h].jobs[j];
       && job.key == key && job.digest == digest
       && WorkerRuns.HasReply(job) && job.phase.reply == WorkerRuns.Ok(response, replayed)
  }

  /** A 200 that is not a replay was given by one Put of its own bytes. */
  lemma {:induction false} AnswerOrigin(states: seq<Fleet>, events: seq<Event>, i: nat, h: nat, j: nat,
                                        key: string, digest: string, response: string) returns (m: nat)
    requires IsRun(states, events) && i < |states| && Answers(states[i], h, j, key, digest, response, false)
    ensures m < i && events[m] == Event(h, WorkerRuns.Store(j)) && h < |states[m].handlers|
            && j in states[m].handlers[h].jobs
    ensures var job := states[m].handlers[h].jobs[j];
            job.key == key && job.digest == digest && job.phase.Produced? && job.phase.output == response
    decreases i
  {
    if i == 0 {
      assert false;
    }
    StepActs(states[i - 1], events[i - 1], states[i - 1 + 1]);
    if events[i - 1] == Event(h, WorkerRuns.Store(j)) {
      m := i - 1;
    } else {
      m := AnswerOrigin(states, events, i - 1, h, j, key, digest, response);
    }
  }

  /** A 200 carries the committed bytes exactly when it is a replay, or when at its Put the
      key was free or already held the same receipt. */
  lemma CommittedBytesIff(states: seq<Fleet>, events: seq<Event>, i: nat, h: nat, j: nat,
                          key: string, digest: string, response: string, replayed: bool) returns (m: nat)
    requires IsRun(states, events) && i < |states| && Answers(states[i], h, j, key, digest, response, replayed)
    ensures key in states[i].files && states[i].files[key].digest == digest
    ensures replayed ==> states[i].files[key].response == response
    ensures !replayed ==>
              && m < i && events[m] == Event(h, WorkerRuns.Store(j))
              && (states[i].files[key].response == response <==>
                  key !in states[m].files || states[m].files[key] == Receipt(digest, response))
  {
    RunInv(states, events, i);
    assert Honest(states[i].files, states[i].handlers[h].jobs[j]);
    m := i;
    if !replayed {
      m := AnswerOrigin(states, events, i, h, j, key, digest, response);
      StepActs(states[m], events[m], states[m + 1]);
      FilesPermanent(states, events, m + 1, i);
    }
  }

  // ----- One handler alone

  lemma LoneStep(f: Fleet, e: Event, t: Fleet)
    requires Follows(f, e, t) && |f.handlers| == 1 && WorkerRuns.Inv(Seen(f, 0))
    ensures |t.handlers| == 1 && WorkerRuns.Follows(Seen(f, 0), e.action, Seen(t, 0)) && WorkerRuns.Inv(Seen(t, 0))
  {
    var s := Seen(f, 0);
    WorkerRuns.StepReceipts(s, e.action);
    WorkerRuns.StepInv(s, e.action);
    assert Seen(t, 0) == WorkerRuns.Step(s, e.action);
  }

  lemma FreshLone(f: Fleet)
    requires Fresh(f) && |f.handlers| == 1
    ensures Seen(f, 0) == WorkerRuns.Initial(f.handlers[0].handler.maxConcurrent) && WorkerRuns.Inv(Seen(f, 0))
  {
    assert Counting.Members(f.handlers[0].jobs, WorkerRuns.IsSlotted()) == {};
  }

  lemma {:induction false} LoneInv(states: seq<Fleet>, events: seq<Event>, i: nat)
    requires IsRun(states, events) && |states[0].handlers| == 1 && i < |states|
    ensures |states[i].handlers| == 1 && WorkerRuns.Inv(Seen(states[i], 0))
  {
    if i == 0 {
      FreshLone(states[0]);
    } else {
      LoneInv(states, events, i - 1);
      LoneStep(states[i - 1], events[i - 1], states[i - 1 + 1]);
    }
  }

  lemma LoneFollows(states: seq<Fleet>, events: seq<Event>, i: nat)
    requires IsRun(states, events) && |states[0].handlers| == 1 && i < |events|
    ensures |states[i].handlers| == |states[i + 1].handlers| == 1
    ensures WorkerRuns.Follows(Seen(states[i], 0), events[i].action, Seen(states[i + 1], 0))
  {
    LoneInv(states, events, i);
    LoneStep(states[i], events[i], states[i + 1]);
  }

  /** One handler over the directory runs exactly as over the memory store: it is a run of
      the single handler, event by event. */
  lemma LoneRun(states: seq<Fleet>, events: seq<Event>) returns (ss: seq<WorkerRuns.System>, es: seq<WorkerRuns.Event>)
    requires IsRun(states, events) && |states[0].handlers| == 1
    ensures WorkerRuns.IsRun(ss, es) && |es| == |events|
    ensures forall i :: 0 <= i < |states| ==> |states[i].handlers| == 1 && ss[i] == Seen(states[i], 0)
  {
    forall i | 0 <= i < |states| ensures |states[i].handlers| == 1 {
      LoneInv(states, events, i);
    }
    ss := seq(|states|, i requires 0 <= i < |states| => Seen(states[i], 0));
    es := seq(|events|, i requires 0 <= i < |events| => events[i].action);
    FreshLone(states[0]);
    forall i | 0 <= i < |es| ensures WorkerRuns.Follows(ss[i], es[i], ss[i + 1]) {
      LoneFollows(states, events, i);
    }
  }

  /** With one handler every 200 carries the committed bytes. */
  lemma LoneHandlerHonest(states: seq<Fleet>, events: seq<Event>, i: nat, j: nat,
                          key: string, digest: string, response: string, replayed: bool)
    requires IsRun(states, events) && |states[0].handlers| == 1 && i < |states|
    requires Answers(states[i], 0, j, key, digest, response, replayed)
    ensures key in states[i].files && states[i].files[key] == Receipt(digest, response)
  {
    LoneInv(states, events, i);
    var s := Seen(states[i], 0);
    assert WorkerRuns.ReplyHonest(s.handler.receipts, s.jobs[j]);
  }

  // ----- Two handlers, one key, two answers

  /** A handler with one job, under the key "k" with the digest "d". */
  function Solo(phase: WorkerRuns.Phase, locked: bool, slots: nat): WorkerRuns.System {
    WorkerRuns.System(View(1, map["k" := 0], [KeyLock(1, locked)], slots, map[]),
                      map[0 := WorkerRuns.Job("k", "d", phase)])
  }

  function Produced(output: string): WorkerRuns.System {
    Solo(WorkerRuns.Produced(0, output), true, 1)
  }

  function Answered(output: string): WorkerRuns.System {
    Solo(WorkerRuns.Answered(0, WorkerRuns.Ok(output, false), true), true, 1)
  }

  lemma SoloArrives()
    ensures WorkerRuns.Follows(WorkerRuns.Initial(1), WorkerRuns.Arrive(0, "k", "d"),
                               Solo(WorkerRuns.Registered(0), false, 0))
    ensures WorkerRuns.Follows(Solo(WorkerRuns.Registered(0), false, 0), WorkerRuns.Lock(0),
                               Solo(WorkerRuns.Locked(0), true, 0))
  {
  }

  lemma SoloExecutes(output: string)
    ensures WorkerRuns.Follows(Solo(WorkerRuns.Locked(0), true, 0), WorkerRuns.Find(0),
                               Solo(WorkerRuns.AwaitSlot(0), true, 0))
    ensures WorkerRuns.Follows(Solo(WorkerRuns.AwaitSlot(0), true, 0), WorkerRuns.TakeSlot(0),
                               Solo(WorkerRuns.Running(0), true, 1))
    ensures WorkerRuns.Follows(Solo(WorkerRuns.Running(0), true, 1), WorkerRuns.Execute(0, output), Produced(output))
  {
  }

  lemma Extend(states: seq<Fleet>, events: seq<Event>, e: Event, t: Fleet) returns (ss: seq<Fleet>, es: seq<Event>)
    requires IsRun(states, events) && Follows(states[|events|], e, t)
    ensures ss == states + [t] && es == events + [e] && IsRun(ss, es)
  {
    ss, es := states + [t], events + [e];
    forall i | 0 <= i < |es| ensures Follows(ss[i], es[i], ss[i + 1]) {
      assert i < |events| ==> Follows(states[i], events[i], states[i + 1]);
    }
  }

  /** While the directory is empty, an action of handler `h` alone is a step of the fleet. */
  lemma ExtendAlone(states: seq<Fleet>, events: seq<Event>, h: nat, e: WorkerRuns.Event, t: WorkerRuns.System)
    returns (ss: seq<Fleet>, es: seq<Event>)
    requires IsRun(states, events) && !e.Store?
    requires var f := states[|events|];
             && f.files == map[] && h < |f.handlers| && Blind(f.handlers[h]) == f.handlers[h] && Blind(t) == t
             && WorkerRuns.Follows(f.handlers[h], e, t)
    ensures var f := states[|events|];
            IsRun(ss, es) && ss[|es|] == f.(handlers := f.handlers[h := t])
  {
    var f := states[|events|];
    assert Seen(f, h) == f.handlers[h];
    ss, es := Extend(states, events, Event(h, e), f.(handlers := f.handlers[h := t]));
  }

  /** Handler `h`, still fresh, takes the job up to its Put. */
  lemma ExtendToPut(states: seq<Fleet>, events: seq<Event>, h: nat, output: string)
    returns (ss: seq<Fleet>, es: seq<Event>)
    requires IsRun(states, events)
    requires var f := states[|events|];
             f.files == map[] && h < |f.handlers| && f.handlers[h] == WorkerRuns.Initial(1)
    ensures var f := states[|events|];
            IsRun(ss, es) && ss[|es|] == f.(handlers := f.handlers[h := Produced(output)])
  {
    SoloArrives();
    SoloExecutes(output);
    ss, es := ExtendAlone(states, events, h, WorkerRuns.Arrive(0, "k", "d"), Solo(WorkerRuns.Registered(0), false, 0));
    ss, es := ExtendAlone(ss, es, h, WorkerRuns.Lock(0), Solo(WorkerRuns.Locked(0), true, 0));
    ss, es := ExtendAlone(ss, es, h, WorkerRuns.Find(0), Solo(WorkerRuns.AwaitSlot(0), true, 0));
    ss, es := ExtendAlone(ss, es, h, WorkerRuns.TakeSlot(0), Solo(WorkerRuns.Running(0), true, 1));
    ss, es := ExtendAlone(ss, es, h, WorkerRuns.Execute(0, output), Produced(output));
  }

  /** Handler `h` puts its receipt and answers. */
  lemma ExtendByPut(states: seq<Fleet>, events: seq<Event>, h: nat, output: string)
    returns (ss: seq<Fleet>, es: seq<Event>)
    requires IsRun(states, events)
    requires var f := states[|events|];
             h < |f.handlers| && f.handlers[h] == Produced(output) && ("k" in f.files ==> f.files["k"].digest == "d")
    ensures var f := states[|events|];
            && IsRun(ss, es)
            && ss[|es|].handlers == f.handlers[h := Answered(output)]
            && ss[|es|].files == ReceiptStore.Linked(f.files, ReceiptStore.Entry("k", Receipt("d", output)))
  {
    var f, e := states[|events|], Event(h, WorkerRuns.Store(0));
    var t := WorkerRuns.Step(Seen(f, h), e.action);
    assert t.jobs == Answered(output).jobs;
    assert Blind(t) == Answered(output);
    ss, es := Extend(states, events, e, Step(f, e));
  }

  /** Two handlers both answer 200 under one key, with different bytes; only the first ones
      are committed. */
  lemma TwoAnswers() returns (states: seq<Fleet>, events: seq<Event>)
    ensures IsRun(states, events)
    ensures var f := states[|events|];
            && f.files == map["k" := Receipt("d", "a")]
            && Answers(f, 0, 0, "k", "d", "a", false) && Answers(f, 1, 0, "k", "d", "b", false)
  {
    var idle := WorkerRuns.Initial(1);
    states, events := [Fleet([idle, idle], map[])], [];
    states, events := ExtendToPut(states, events, 0, "a");
    states, events := ExtendToPut(states, events, 1, "b");
    states, events := ExtendByPut(states, events, 0, "a");
    states, events := ExtendByPut(states, events, 1, "b");
  }
}
