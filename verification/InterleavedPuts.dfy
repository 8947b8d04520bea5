/** Several handlers over one receipt directory with every Put taken apart: its first read,
    its temporary file, its link and its second read interleave with all other actions of all
    handlers.  Every such run is a run of `SharedDirectory`, where a Put is one event. */
module InterleavedPuts {
  import opened Wrappers
  import opened WorkerHandler
  import WorkerRuns
  import ReceiptStore
  import opened SharedDirectory

  /** Job `j` of handler `h`, inside Put. */
  datatype Caller = Caller(h: nat, j: nat)

  datatype Stage = Begun | Absent | Written | Lost | Committed

  /** A job stays `Produced` in `fleet` until its Put has returned. */
  datatype Site = Site(fleet: Fleet, puts: map<Caller, Stage>)

  datatype Move =
    | Act(event: Event)
    | Begin(c: Caller)
    | Check(c: Caller)
    | Write(c: Caller)
    | Link(c: Caller)
    | Reread(c: Caller)
    | Return(c: Caller)

  ghost predicate Calling(f: Fleet, c: Caller) {
    c.h < |f.handlers| && c.j in f.handlers[c.h].jobs && f.handlers[c.h].jobs[c.j].phase.Produced?
  }

  ghost function JobOf(f: Fleet, c: Caller): WorkerRuns.Job
    requires Calling(f, c)
  {
    f.handlers[c.h].jobs[c.j]
  }

  ghost function Own(job: WorkerRuns.Job): Receipt
    requires job.phase.Produced?
  {
    Receipt(job.digest, job.phase.output)
  }

  /** Any action but a Put as a whole; a Put may fail as long as its link has not succeeded. */
  ghost predicate CanAct(s: Site, e: Event) {
    && !e.action.Store? && SharedDirectory.Enabled(s.fleet, e)
    && (e.action.Fail? && Caller(e.h, e.action.j) in s.puts ==> s.puts[Caller(e.h, e.action.j)] != Committed)
  }

  ghost predicate At(s: Site, c: Caller, stage: Stage) {
    Calling(s.fleet, c) && c in s.puts && s.puts[c] == stage
  }

  ghost predicate CanMove(s: Site, m: Move) {
    match m
    case Act(e) => CanAct(s, e)
    case Begin(c) => Calling(s.fleet, c) && c !in s.puts
    case Check(c) => At(s, c, Begun)
    case Write(c) => At(s, c, Absent)
    case Link(c) => At(s, c, Written)
    case Reread(c) => At(s, c, Lost)
    case Return(c) => At(s, c, Committed)
  }

  ghost function WithReply(job: WorkerRuns.Job, reply: WorkerRuns.Reply): WorkerRuns.Job
    requires job.phase.Produced?
  {
    job.(phase := WorkerRuns.Answered(job.phase.id, reply, true))
  }

  /** Put returns and the handler writes its answer. */
  ghost function Answer(s: Site, c: Caller, reply: WorkerRuns.Reply): Site
    requires Calling(s.fleet, c)
  {
    var system, job := s.fleet.handlers[c.h], JobOf(s.fleet, c);
    var after := system.(jobs := system.jobs[c.j := WithReply(job, reply)]);
    Site(s.fleet.(handlers := s.fleet.handlers[c.h := after]), s.puts - {c})
  }

  /** The answer after a read of Put: its own bytes if the digest found is its own. */
  ghost function Verified(files: map<string, Receipt>, job: WorkerRuns.Job): WorkerRuns.Reply
    requires job.phase.Produced?
  {
    if job.key !in files then WorkerRuns.Error
    else if ReceiptStore.Verify(files[job.key], Own(job)) == ReceiptStore.Stored then
      WorkerRuns.Ok(job.phase.output, false)
    else WorkerRuns.Conflict
  }

  ghost function Next(s: Site, m: Move): Site
    requires CanMove(s, m)
  {
    match m
    case Act(e) =>
      Site(SharedDirectory.Step(s.fleet, e), if e.action.Fail? then s.puts - {Caller(e.h, e.action.j)} else s.puts)
    case Begin(c) => s.(puts := s.puts[c := Begun])
    case Check(c) =>
      var job := JobOf(s.fleet, c);
      if job.key in s.fleet.files then Answer(s, c, Verified(s.fleet.files, job)) else s.(puts := s.puts[c := Absent])
    case Write(c) => s.(puts := s.puts[c := Written])
    case Link(c) =>
      var job := JobOf(s.fleet, c);
      if job.key in s.fleet.files then s.(puts := s.puts[c := Lost])
      else Site(s.fleet.(files := s.fleet.files[job.key := Own(job)]), s.puts[c := Committed])
    case Reread(c) => Answer(s, c, Verified(s.fleet.files, JobOf(s.fleet, c)))
    case Return(c) => Answer(s, c, WorkerRuns.Ok(JobOf(s.fleet, c).phase.output, false))
  }

  ghost predicate Moves(s: Site, m: Move, t: Site) {
    CanMove(s, m) && t == Next(s, m)
  }

  ghost predicate IsSiteRun(states: seq<Site>, moves: seq<Move>) {
    && |states| == |moves| + 1
    && Fresh(states[0].fleet) && states[0].puts == map[]
    && forall i {:trigger moves[i]} :: 0 <= i < |moves| ==> Moves(states[i], moves[i], states[i + 1])
  }

  // ----- The fleet a site stands for

  /** A job whose link has succeeded counts as answered. */
  ghost function Promoted(puts: map<Caller, Stage>, c: Caller, job: WorkerRuns.Job): WorkerRuns.Job {
    if c in puts && puts[c] == Committed && job.phase.Produced? then
      WithReply(job, WorkerRuns.Ok(job.phase.output, false))
    else job
  }

  ghost function PromotedAll(puts: map<Caller, Stage>, h: nat, jobs: map<nat, WorkerRuns.Job>)
    : map<nat, WorkerRuns.Job>
  {
    map j | j in jobs :: Promoted(puts, Caller(h, j), jobs[j])
  }

  ghost function Abstract(s: Site): Fleet {
    Fleet(seq(|s.fleet.handlers|, h requires 0 <= h < |s.fleet.handlers| =>
                s.fleet.handlers[h].(jobs := PromotedAll(s.puts, h, s.fleet.handlers[h].jobs))),
          s.fleet.files)
  }

  /** What the move is to the fleet: a Put takes effect at the read that finds a file or at the
      link that succeeds. */
  ghost function Effect(s: Site, m: Move): Option<Event>
    requires CanMove(s, m)
  {
    match m
    case Act(e) => Some(e)
    case Check(c) => if JobOf(s.fleet, c).key in s.fleet.files then Some(Event(c.h, WorkerRuns.Store(c.j))) else None
    case Link(c) => if JobOf(s.fleet, c).key !in s.fleet.files then Some(Event(c.h, WorkerRuns.Store(c.j))) else None
    case Reread(c) => Some(Event(c.h, WorkerRuns.Store(c.j)))
    case Begin(_) => None
    case Write(_) => None
    case Return(_) => None
  }

  /** Only jobs that wait for Put are inside it, and a lost link leaves a file to read. */
  ghost predicate PutsSound(s: Site) {
    && (forall c :: c in s.puts ==> Calling(s.fleet, c))
    && (forall c :: c in s.puts && s.puts[c] == Lost ==> Calling(s.fleet, c) && JobOf(s.fleet, c).key in s.fleet.files)
    && (forall h :: 0 <= h < |s.fleet.handlers| ==> Blind(s.fleet.handlers[h]) == s.fleet.handlers[h])
  }

  // ----- One move

  /** An action looks at its handler and its own job, and changes no other. */
  lemma ActsLocally(a: WorkerRuns.System, b: WorkerRuns.System, e: WorkerRuns.Event)
    requires WorkerRuns.WellFormed(a) && WorkerRuns.WellFormed(b) && a.handler == b.handler
    requires e.j in a.jobs <==> e.j in b.jobs
    requires e.j in a.jobs ==> a.jobs[e.j] == b.jobs[e.j]
    requires WorkerRuns.Enabled(a, e)
    ensures WorkerRuns.Enabled(b, e)
    ensures var s, t := WorkerRuns.Step(a, e), WorkerRuns.Step(b, e);
            && s.handler == t.handler && e.j in s.jobs
            && s.jobs == a.jobs[e.j := s.jobs[e.j]] && t.jobs == b.jobs[e.j := s.jobs[e.j]]
  {
  }

  lemma PromotedUpdate(puts: map<Caller, Stage>, rest: map<Caller, Stage>, h: nat, jobs: map<nat, WorkerRuns.Job>,
                       j: nat, job: WorkerRuns.Job)
    requires Caller(h, j) !in rest
    requires forall c :: c != Caller(h, j) ==> (c in rest <==> c in puts) && (c in rest ==> rest[c] == puts[c])
    ensures PromotedAll(rest, h, jobs[j := job]) == PromotedAll(puts, h, jobs)[j := job]
  {
  }

  lemma PromotedElsewhere(puts: map<Caller, Stage>, rest: map<Caller, Stage>, h: nat, jobs: map<nat, WorkerRuns.Job>)
    requires forall c: Caller :: c.h == h ==> (c in rest <==> c in puts) && (c in rest ==> rest[c] == puts[c])
    ensures PromotedAll(rest, h, jobs) == PromotedAll(puts, h, jobs)
  {
  }

  /** The site changes one job of one handler, and what that job stands for becomes `now`. */
  ghost predicate Rewrites(s: Site, c: Caller, view: View, now: WorkerRuns.Job, t: Site) {
    && c.h < |s.fleet.handlers| == |t.fleet.handlers|
    && (forall h :: 0 <= h < |s.fleet.handlers| && h != c.h ==> t.fleet.handlers[h] == s.fleet.handlers[h])
    && t.fleet.handlers[c.h].handler == view
    && PromotedAll(t.puts, c.h, t.fleet.handlers[c.h].jobs)
       == PromotedAll(s.puts, c.h, s.fleet.handlers[c.h].jobs)[c.j := now]
    && (forall d: Caller :: d.h != c.h ==> (d in t.puts <==> d in s.puts) && (d in t.puts ==> t.puts[d] == s.puts[d]))
  }

  lemma RewritesAbstract(s: Site, c: Caller, view: View, now: WorkerRuns.Job, t: Site)
    requires Rewrites(s, c, view, now, t)
    ensures var f := Abstract(s);
            Abstract(t) == Fleet(f.handlers[c.h := WorkerRuns.System(view, f.handlers[c.h].jobs[c.j := now])],
                                 t.fleet.files)
  {
    forall h | 0 <= h < |s.fleet.handlers| && h != c.h
      ensures PromotedAll(t.puts, h, s.fleet.handlers[h].jobs) == PromotedAll(s.puts, h, s.fleet.handlers[h].jobs)
    {
      PromotedElsewhere(s.puts, t.puts, h, s.fleet.handlers[h].jobs);
    }
  }

  /** An enabled action concerns a job that is not inside Put, unless it makes the Put fail. */
  lemma ActorOutside(s: Site, e: Event)
    requires PutsSound(s) && CanAct(s, e)
    ensures var c := Caller(e.h, e.action.j);
            c in s.puts ==> e.action.Fail? && s.puts[c] != Committed
  {
  }

  /** The action does to the fleet's job what it does to the site's. */
  lemma ActSame(s: Site, e: Event)
    requires PutsSound(s) && SharedDirectory.Inv(Abstract(s)) && CanAct(s, e)
    ensures SharedDirectory.Enabled(Abstract(s), e)
    ensures var a, b := Seen(s.fleet, e.h), Seen(Abstract(s), e.h);
            var u, v := WorkerRuns.Step(a, e.action), WorkerRuns.Step(b, e.action);
            && u.handler == v.handler && e.action.j in u.jobs
            && u.jobs == a.jobs[e.action.j := u.jobs[e.action.j]] && v.jobs == b.jobs[e.action.j := u.jobs[e.action.j]]
  {
    ActorOutside(s, e);
    assert WorkerRuns.Balanced(Abstract(s).handlers[e.h]);
    ActsLocally(Seen(s.fleet, e.h), Seen(Abstract(s), e.h), e.action);
  }

  lemma ActRewrites(s: Site, e: Event, t: Site, u: WorkerRuns.System)
    requires PutsSound(s) && Moves(s, Act(e), t) && u == WorkerRuns.Step(Seen(s.fleet, e.h), e.action)
    requires e.action.j in u.jobs && u.jobs == s.fleet.handlers[e.h].jobs[e.action.j := u.jobs[e.action.j]]
    ensures Rewrites(s, Caller(e.h, e.action.j), Blind(u).handler, u.jobs[e.action.j], t)
    ensures t.fleet.files == s.fleet.files
  {
    ActorOutside(s, e);
    PromotedUpdate(s.puts, t.puts, e.h, s.fleet.handlers[e.h].jobs, e.action.j, u.jobs[e.action.j]);
  }

  lemma ActSimulated(s: Site, e: Event, t: Site)
    requires PutsSound(s) && SharedDirectory.Inv(Abstract(s)) && Moves(s, Act(e), t)
    ensures SharedDirectory.Follows(Abstract(s), e, Abstract(t))
  {
    ActSame(s, e);
    var u := WorkerRuns.Step(Seen(s.fleet, e.h), e.action);
    ActRewrites(s, e, t, u);
    RewritesAbstract(s, Caller(e.h, e.action.j), Blind(u).handler, u.jobs[e.action.j], t);
  }

  /** What Put as one event answers. */
  ghost function StoreReply(files: map<string, Receipt>, job: WorkerRuns.Job): WorkerRuns.Reply
    requires job.phase.Produced?
  {
    if job.key in files && files[job.key].digest != job.digest then WorkerRuns.Conflict
    else WorkerRuns.Ok(job.phase.output, false)
  }

  lemma StoreStep(f: Fleet, c: Caller)
    requires SharedDirectory.Inv(f) && Calling(f, c) && Blind(f.handlers[c.h]) == f.handlers[c.h]
    ensures var e, system, job := Event(c.h, WorkerRuns.Store(c.j)), f.handlers[c.h], JobOf(f, c);
            && SharedDirectory.Enabled(f, e)
            && var after := system.(jobs := system.jobs[c.j := WithReply(job, StoreReply(f.files, job))]);
               SharedDirectory.Step(f, e)
               == Fleet(f.handlers[c.h := after],
                        ReceiptStore.Linked(f.files, ReceiptStore.Entry(job.key, Own(job))))
  {
    assert WorkerRuns.Balanced(f.handlers[c.h]);
  }

  lemma StoreRewrites(s: Site, m: Move, c: Caller, t: Site)
    requires PutsSound(s) && Moves(s, m, t) && !m.Act? && m.c == c && Effect(s, m).Some?
    ensures Calling(s.fleet, c) && Effect(s, m) == Some(Event(c.h, WorkerRuns.Store(c.j)))
    ensures var job := JobOf(s.fleet, c);
            && Rewrites(s, c, s.fleet.handlers[c.h].handler, WithReply(job, StoreReply(s.fleet.files, job)), t)
            && t.fleet.files == ReceiptStore.Linked(s.fleet.files, ReceiptStore.Entry(job.key, Own(job)))
  {
    var job, jobs := JobOf(s.fleet, c), s.fleet.handlers[c.h].jobs;
    if m.Link? {
      assert PromotedAll(t.puts, c.h, jobs)
        == PromotedAll(s.puts, c.h, jobs)[c.j := WithReply(job, StoreReply(s.fleet.files, job))];
    } else {
      PromotedUpdate(s.puts, t.puts, c.h, jobs, c.j, WithReply(job, StoreReply(s.fleet.files, job)));
    }
  }

  lemma UndecidedAlike(s: Site, c: Caller)
    requires PutsSound(s) && Calling(s.fleet, c) && (c in s.puts ==> s.puts[c] != Committed)
    ensures var f := Abstract(s);
            && Calling(f, c) && JobOf(f, c) == JobOf(s.fleet, c) && f.files == s.fleet.files
            && f.handlers[c.h].handler == s.fleet.handlers[c.h].handler && Blind(f.handlers[c.h]) == f.handlers[c.h]
  {
  }

  lemma StoreFollows(s: Site, c: Caller, t: Site)
    requires SharedDirectory.Inv(Abstract(s)) && Calling(s.fleet, c) && Calling(Abstract(s), c)
    requires var f, job := Abstract(s), JobOf(Abstract(s), c);
             && Blind(f.handlers[c.h]) == f.handlers[c.h]
             && Rewrites(s, c, f.handlers[c.h].handler, WithReply(job, StoreReply(f.files, job)), t)
             && t.fleet.files == ReceiptStore.Linked(f.files, ReceiptStore.Entry(job.key, Own(job)))
    ensures SharedDirectory.Follows(Abstract(s), Event(c.h, WorkerRuns.Store(c.j)), Abstract(t))
  {
    var f, job := Abstract(s), JobOf(Abstract(s), c);
    StoreStep(f, c);
    RewritesAbstract(s, c, f.handlers[c.h].handler, WithReply(job, StoreReply(f.files, job)), t);
  }

  lemma StoreSimulated(s: Site, m: Move, t: Site)
    requires PutsSound(s) && SharedDirectory.Inv(Abstract(s)) && Moves(s, m, t) && !m.Act? && Effect(s, m).Some?
    ensures SharedDirectory.Follows(Abstract(s), Effect(s, m).value, Abstract(t))
  {
    StoreRewrites(s, m, m.c, t);
    UndecidedAlike(s, m.c);
    StoreFollows(s, m.c, t);
  }

  /** A Put that moves on without taking effect stands for what it stood for. */
  lemma StageRewrites(s: Site, c: Caller, stage: Stage, t: Site)
    requires Calling(s.fleet, c) && stage != Committed && (c in s.puts ==> s.puts[c] != Committed)
    requires t == s.(puts := s.puts[c := stage])
    ensures Rewrites(s, c, s.fleet.handlers[c.h].handler, JobOf(s.fleet, c), t)
  {
    var jobs := s.fleet.handlers[c.h].jobs;
    assert PromotedAll(t.puts, c.h, jobs) == PromotedAll(s.puts, c.h, jobs)[c.j := JobOf(s.fleet, c)];
  }

  lemma ReturnRewrites(s: Site, c: Caller, t: Site)
    requires At(s, c, Committed) && t == Answer(s, c, WorkerRuns.Ok(JobOf(s.fleet, c).phase.output, false))
    ensures Rewrites(s, c, s.fleet.handlers[c.h].handler, Promoted(s.puts, c, JobOf(s.fleet, c)), t)
  {
    PromotedUpdate(s.puts, t.puts, c.h, s.fleet.handlers[c.h].jobs, c.j, Promoted(s.puts, c, JobOf(s.fleet, c)));
  }

  lemma StutterRewrites(s: Site, m: Move, t: Site)
    requires PutsSound(s) && Moves(s, m, t) && Effect(s, m).None?
    ensures Calling(s.fleet, m.c) && t.fleet.files == s.fleet.files
    ensures Rewrites(s, m.c, s.fleet.handlers[m.c.h].handler, Promoted(s.puts, m.c, JobOf(s.fleet, m.c)), t)
  {
    match m
    case Begin(c) => StageRewrites(s, c, Begun, t);
    case Check(c) => StageRewrites(s, c, Absent, t);
    case Write(c) => StageRewrites(s, c, Written, t);
    case Link(c) => StageRewrites(s, c, Lost, t);
    case Return(c) => ReturnRewrites(s, c, t);
  }

  lemma SameFleet(f: Fleet, h: nat, j: nat)
    requires h < |f.handlers| && j in f.handlers[h].jobs
    ensures f.handlers[h := WorkerRuns.System(f.handlers[h].handler, f.handlers[h].jobs[j := f.handlers[h].jobs[j]])]
            == f.handlers
  {
    var jobs := f.handlers[h].jobs;
    assert jobs[j := jobs[j]] == jobs;
  }

  lemma StutterSimulated(s: Site, m: Move, t: Site)
    requires PutsSound(s) && Moves(s, m, t) && Effect(s, m).None?
    ensures Abstract(t) == Abstract(s)
  {
    StutterRewrites(s, m, t);
    var c := m.c;
    RewritesAbstract(s, c, s.fleet.handlers[c.h].handler, Promoted(s.puts, c, JobOf(s.fleet, c)), t);
    SameFleet(Abstract(s), c.h, c.j);
  }

  lemma ActSound(s: Site, e: Event, t: Site)
    requires PutsSound(s) && Moves(s, Act(e), t)
    ensures PutsSound(t)
  {
    StepActs(s.fleet, e, t.fleet);
    ActorOutside(s, e);
    forall c | c in t.puts ensures Calling(t.fleet, c) && JobOf(t.fleet, c) == JobOf(s.fleet, c) {
      assert c in s.puts && c != Caller(e.h, e.action.j);
    }
  }

  /** No Put touches another one. */
  lemma OthersKept(s: Site, m: Move, t: Site, c: Caller)
    requires PutsSound(s) && Moves(s, m, t) && !m.Act? && c in t.puts && c != m.c
    ensures c in s.puts && t.puts[c] == s.puts[c] && Calling(t.fleet, c) && JobOf(t.fleet, c) == JobOf(s.fleet, c)
    ensures Kept(s.fleet.files, t.fleet.files)
  {
    assert c in s.puts;
  }

  lemma OwnKept(s: Site, m: Move, t: Site)
    requires PutsSound(s) && Moves(s, m, t) && !m.Act?
    ensures m.c in t.puts ==> Calling(t.fleet, m.c)
    ensures m.c in t.puts && t.puts[m.c] == Lost ==> JobOf(t.fleet, m.c).key in t.fleet.files
    ensures forall h :: 0 <= h < |t.fleet.handlers| ==> Blind(t.fleet.handlers[h]) == t.fleet.handlers[h]
  {
  }

  lemma PutSound(s: Site, m: Move, t: Site)
    requires PutsSound(s) && Moves(s, m, t) && !m.Act?
    ensures PutsSound(t)
  {
    OwnKept(s, m, t);
    forall c | c in t.puts && c != m.c
      ensures Calling(t.fleet, c) && (t.puts[c] == Lost ==> JobOf(t.fleet, c).key in t.fleet.files)
    {
      OthersKept(s, m, t, c);
    }
  }

  // ----- Whole runs

  ghost predicate Visible(states: seq<Site>, moves: seq<Move>, i: nat)
    requires |states| == |moves| + 1 && i < |moves|
  {
    CanMove(states[i], moves[i]) && Effect(states[i], moves[i]).Some?
  }

  /** The states and events of the fleet that the first `n` moves come to. */
  ghost function FleetStates(states: seq<Site>, moves: seq<Move>, n: nat): seq<Fleet>
    requires |states| == |moves| + 1 && n <= |moves|
  {
    if n == 0 then [Abstract(states[0])]
    else FleetStates(states, moves, n - 1) + if Visible(states, moves, n - 1) then [Abstract(states[n])] else []
  }

  ghost function FleetEvents(states: seq<Site>, moves: seq<Move>, n: nat): seq<Event>
    requires |states| == |moves| + 1 && n <= |moves|
  {
    if n == 0 then []
    else FleetEvents(states, moves, n - 1)
         + if Visible(states, moves, n - 1) then [Effect(states[n - 1], moves[n - 1]).value] else []
  }

  /** A move is a step of the fleet or leaves it as it is. */
  lemma MoveSimulated(s: Site, m: Move, t: Site)
    requires PutsSound(s) && SharedDirectory.Inv(Abstract(s)) && Moves(s, m, t)
    ensures PutsSound(t)
    ensures if Effect(s, m).Some? then SharedDirectory.Follows(Abstract(s), Effect(s, m).value, Abstract(t))
            else Abstract(t) == Abstract(s)
  {
    if m.Act? {
      ActSimulated(s, m.event, t);
      ActSound(s, m.event, t);
    } else {
      PutSound(s, m, t);
      if Effect(s, m).Some? {
        StoreSimulated(s, m, t);
      } else {
        StutterSimulated(s, m, t);
      }
    }
  }

  lemma FreshSite(s: Site)
    requires Fresh(s.fleet) && s.puts == map[]
    ensures PutsSound(s) && Abstract(s) == s.fleet
  {
    assert forall h :: 0 <= h < |s.fleet.handlers| ==> PromotedAll(s.puts, h, s.fleet.handlers[h].jobs) == map[];
    assert Abstract(s).handlers == s.fleet.handlers;
  }

  lemma ExtendFleet(fs: seq<Fleet>, es: seq<Event>, s: Site, m: Move, t: Site)
    requires SharedDirectory.IsRun(fs, es) && fs[|es|] == Abstract(s) && PutsSound(s) && Moves(s, m, t)
    ensures PutsSound(t)
    ensures if Effect(s, m).Some? then SharedDirectory.IsRun(fs + [Abstract(t)], es + [Effect(s, m).value])
            else Abstract(t) == Abstract(s)
  {
    SharedDirectory.RunInv(fs, es, |es|);
    MoveSimulated(s, m, t);
    if Effect(s, m).Some? {
      var _, _ := SharedDirectory.Extend(fs, es, Effect(s, m).value, Abstract(t));
    }
  }

  /** Refinement: however the stages of all Puts interleave with one another and with every
      other action, the moves that take effect form a run of the fleet, which ends in the
      fleet that the site then stands for. */
  lemma {:induction false} RefinesFleet(states: seq<Site>, moves: seq<Move>, n: nat)
    requires IsSiteRun(states, moves) && n <= |moves|
    ensures PutsSound(states[n])
    ensures var fs, es := FleetStates(states, moves, n), FleetEvents(states, moves, n);
            SharedDirectory.IsRun(fs, es) && fs[|es|] == Abstract(states[n])
  {
    if n == 0 {
      FreshSite(states[0]);
    } else {
      RefinesFleet(states, moves, n - 1);
      var fs, es := FleetStates(states, moves, n - 1), FleetEvents(states, moves, n - 1);
      ExtendFleet(fs, es, states[n - 1], moves[n - 1], states[n - 1 + 1]);
      if !Visible(states, moves, n - 1) {
        assert fs + [] == fs && es + [] == es;
      }
    }
  }

  // ----- What a 200 carries

  /** After `n` moves the fleet's run has come to what the site stands for. */
  ghost predicate Tracks(states: seq<Site>, moves: seq<Move>, n: nat) {
    && |states| == |moves| + 1 && n <= |moves|
    && |FleetStates(states, moves, n)| == |FleetEvents(states, moves, n)| + 1
    && FleetStates(states, moves, n)[|FleetEvents(states, moves, n)|] == Abstract(states[n])
  }

  /** Event `m` of the fleet's run is the effect of move `k`, in the fleet of that moment. */
  ghost predicate CausedBy(states: seq<Site>, moves: seq<Move>, n: nat, m: nat, k: nat)
    requires |states| == |moves| + 1 && n <= |moves|
  {
    && m < |FleetEvents(states, moves, n)| && m < |FleetStates(states, moves, n)|
    && k < n && Visible(states, moves, k)
    && FleetEvents(states, moves, n)[m] == Effect(states[k], moves[k]).value
    && FleetStates(states, moves, n)[m] == Abstract(states[k])
  }

  lemma CausedStays(states: seq<Site>, moves: seq<Move>, n: nat, m: nat, k: nat)
    requires |states| == |moves| + 1 && n < |moves| && CausedBy(states, moves, n, m, k)
    ensures CausedBy(states, moves, n + 1, m, k)
  {
  }

  lemma CausedLast(states: seq<Site>, moves: seq<Move>, n: nat, m: nat)
    requires Tracks(states, moves, n) && n < |moves|
    requires |FleetEvents(states, moves, n)| <= m < |FleetEvents(states, moves, n + 1)|
    ensures CausedBy(states, moves, n + 1, m, n)
  {
  }

  lemma {:induction false} EffectOrigin(states: seq<Site>, moves: seq<Move>, n: nat, m: nat) returns (k: nat)
    requires |states| == |moves| + 1 && n <= |moves| && m < |FleetEvents(states, moves, n)|
    requires forall i: nat :: i <= n ==> Tracks(states, moves, i)
    ensures CausedBy(states, moves, n, m, k)
  {
    var before := n - 1;
    assert Tracks(states, moves, before);
    if m < |FleetEvents(states, moves, before)| {
      k := EffectOrigin(states, moves, before, m);
      CausedStays(states, moves, before, m, k);
    } else {
      k := before;
      CausedLast(states, moves, before, m);
    }
  }

  lemma AnswersAlike(s: Site, h: nat, j: nat, key: string, digest: string, response: string, replayed: bool)
    requires Answers(s.fleet, h, j, key, digest, response, replayed)
    ensures Answers(Abstract(s), h, j, key, digest, response, replayed)
  {
  }

  /** However the stages interleave, every 200 is for the committed digest; it carries the
      committed bytes exactly when it is a replay, or when at the read or link that decided its
      Put the key was free or already held the same receipt. */
  lemma BytesCommittedIff(states: seq<Site>, moves: seq<Move>, n: nat, h: nat, j: nat,
                          key: string, digest: string, response: string, replayed: bool) returns (k: nat)
    requires IsSiteRun(states, moves) && n <= |moves| && Answers(states[n].fleet, h, j, key, digest, response, replayed)
    ensures key in states[n].fleet.files && states[n].fleet.files[key].digest == digest
    ensures replayed ==> states[n].fleet.files[key].response == response
    ensures !replayed ==>
              && k < n && Visible(states, moves, k) && !moves[k].Act? && moves[k].c == Caller(h, j)
              && (states[n].fleet.files[key].response == response <==>
                  key !in states[k].fleet.files || states[k].fleet.files[key] == Receipt(digest, response))
  {
    RefinesFleet(states, moves, n);
    var fs, es := FleetStates(states, moves, n), FleetEvents(states, moves, n);
    AnswersAlike(states[n], h, j, key, digest, response, replayed);
    var m := CommittedBytesIff(fs, es, |es|, h, j, key, digest, response, replayed);
    k := n;
    if !replayed {
      forall i: nat | i <= n ensures Tracks(states, moves, i) {
        RefinesFleet(states, moves, i);
      }
      k := EffectOrigin(states, moves, n, m);
    }
  }

  lemma ErrorsAlike(s: Site, h: nat, j: nat)
    requires h < |s.fleet.handlers| && j in s.fleet.handlers[h].jobs
    requires WorkerRuns.HasReply(s.fleet.handlers[h].jobs[j])
    ensures var f := Abstract(s);
            h < |f.handlers| && j in f.handlers[h].jobs && f.handlers[h].jobs[j] == s.fleet.handlers[h].jobs[j]
  {
  }

  /** However the stages interleave, a job answers with an error only if it failed. */
  lemma ErrorCauseInterleaved(states: seq<Site>, moves: seq<Move>, n: nat, h: nat, j: nat) returns (k: nat)
    requires IsSiteRun(states, moves) && n <= |moves|
    requires h < |states[n].fleet.handlers| && j in states[n].fleet.handlers[h].jobs
    requires WorkerRuns.HasReply(states[n].fleet.handlers[h].jobs[j])
    requires states[n].fleet.handlers[h].jobs[j].phase.reply == WorkerRuns.Error
    ensures k < n && moves[k] == Act(Event(h, WorkerRuns.Fail(j)))
  {
    RefinesFleet(states, moves, n);
    ErrorsAlike(states[n], h, j);
    var fs, es := FleetStates(states, moves, n), FleetEvents(states, moves, n);
    var m := SharedDirectory.ErrorCause(fs, es, |es|, h, j);
    forall i: nat | i <= n ensures Tracks(states, moves, i) {
      RefinesFleet(states, moves, i);
    }
    k := EffectOrigin(states, moves, n, m);
  }
}
