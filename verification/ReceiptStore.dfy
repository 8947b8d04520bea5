/** The file receipt store as a multi-process compare-and-swap: any number of Put calls,
    in any number of processes, share one directory, may crash at any point and may meet a
    file-system error at any stage.  File names stand for keys (no digest collisions). */
module ReceiptStore {
  import opened WorkerHandler

  /** What Put returns: nil, a conflict, a refusal of its arguments, or an error of the file system. */
  datatype Outcome = Stored | Conflict | Invalid | Faulted

  datatype Entry = Entry(key: string, receipt: Receipt)

  predicate Incomplete(key: string, r: Receipt) {
    key == "" || r.digest == "" || r.response == ""
  }

  /** os.Link: create without replace. */
  function Linked(files: map<string, Receipt>, e: Entry): map<string, Receipt> {
    if e.key in files then files else files[e.key := e.receipt]
  }

  ghost function LinkedAll(files: map<string, Receipt>, es: seq<Entry>): map<string, Receipt> {
    if es == [] then files else Linked(LinkedAll(files, es[..|es| - 1]), es[|es| - 1])
  }

  /** What a finished read says about a Put of `r`. */
  function Verify(current: Receipt, r: Receipt): Outcome {
    if current.digest != r.digest then Conflict else Stored
  }

  /** The stages of a Put at which the file system fails, if they are reached. */
  datatype Faults = Faults(read: bool, write: bool, link: bool, reread: bool)

  class FileReceiptStore {
    var files: map<string, Receipt>

    constructor ()
      ensures files == map[]
    {
      files := map[];
    }

    /** One Put, with `rivals` the links other processes get in between its first read and
        its own link, and `faults` the stages at which the file system would fail. */
    method Put(key: string, receipt: Receipt, rivals: seq<Entry>, faults: Faults) returns (outcome: Outcome)
      modifies this
      ensures forall k :: k in old(files) ==> k in files && files[k] == old(files)[k]
      ensures outcome == Invalid <==> |key| == 0 || |receipt.digest| == 0 || |receipt.response| == 0
      ensures outcome == Faulted <==>
                && outcome != Invalid
                && (faults.read
                    || (key !in old(files)
                        && (faults.write || faults.link || (faults.reread && key in LinkedAll(old(files), rivals)))))
      ensures outcome == Stored || outcome == Conflict ==>
                key in files && (outcome == Stored <==> files[key].digest == receipt.digest)
      ensures files == if outcome == Invalid || faults.read || key in old(files) || faults.write then old(files)
                       else if faults.link then LinkedAll(old(files), rivals)
                       else LinkedAll(old(files), rivals + [Entry(key, receipt)])
    {
      if Incomplete(key, receipt) {
        return Invalid;
      }
      if faults.read {
        return Faulted;
      }
      if key in files {
        return Verify(files[key], receipt);
      }
      if faults.write {
        return Faulted;
      }
      var i := 0;
      while i < |rivals|
        invariant 0 <= i <= |rivals|
        invariant files == LinkedAll(old(files), rivals[..i])
        invariant forall k :: k in old(files) ==> k in files && files[k] == old(files)[k]
      {
        assert rivals[..i + 1][..i] == rivals[..i];
        files := Linked(files, rivals[i]);
        i := i + 1;
      }
      assert rivals[..i] == rivals && (rivals + [Entry(key, receipt)])[..|rivals|] == rivals;
      if faults.link {
        return Faulted;
      }
      if key in files {
        if faults.reread {
          return Faulted;
        }
        return Verify(files[key], receipt);
      }
      files := files[key := receipt];
      return Stored;
    }
  }

  // ----- Interleaved calls

  datatype Phase =
    | Begun
    | Absent
    | Written
    | Lost
    | Committed
    | Done(outcome: Outcome, won: bool)
    | Crashed(committed: bool)

  datatype Call = Call(key: string, receipt: Receipt, phase: Phase)

  /** `temporaries` holds the calls whose temporary file is still in the directory. */
  datatype Directory = Directory(files: map<string, Receipt>, temporaries: set<nat>, calls: map<nat, Call>)

  datatype Event =
    | Start(c: nat, key: string, receipt: Receipt)
    | Check(c: nat)
    | Write(c: nat)
    | Link(c: nat)
    | Reread(c: nat)
    | Return(c: nat)
    | Fault(c: nat)
    | Crash(c: nat)

  const INITIAL := Directory(map[], {}, map[])

  predicate Enabled(d: Directory, e: Event) {
    if e.Start? then e.c !in d.calls else
      && e.c in d.calls
      && var p := d.calls[e.c].phase;
         match e
         case Start(_, _, _) => false
         case Check(_) => p.Begun?
         case Write(_) => p.Absent?
         case Link(_) => p.Written?
         case Reread(_) => p.Lost?
         case Return(_) => p.Committed?
         case Fault(_) =>
           !Incomplete(d.calls[e.c].key, d.calls[e.c].receipt) && (p.Begun? || p.Absent? || p.Written? || p.Lost?)
         case Crash(_) => !p.Done? && !p.Crashed?
  }

  function At(d: Directory, c: nat, phase: Phase): Directory
    requires c in d.calls
  {
    d.(calls := d.calls[c := d.calls[c].(phase := phase)])
  }

  function Step(d: Directory, e: Event): Directory
    requires Enabled(d, e)
  {
    if e.Start? then d.(calls := d.calls[e.c := Call(e.key, e.receipt, Begun)]) else
      var call := d.calls[e.c];
      match e
      case Check(c) =>
        if Incomplete(call.key, call.receipt) then At(d, c, Done(Invalid, false))
        else if call.key in d.files then At(d, c, Done(Verify(d.files[call.key], call.receipt), false))
        else At(d, c, Absent)
      case Write(c) => At(d, c, Written).(temporaries := d.temporaries + {c})
      case Link(c) =>
        if call.key in d.files then At(d, c, Lost)
        else At(d, c, Committed).(files := d.files[call.key := call.receipt])
      case Reread(c) =>
        // Line 96 turns a missing file into an error; LostLinkIsReadable shows that it is there.
        var outcome := if call.key in d.files then Verify(d.files[call.key], call.receipt) else Invalid;
        At(d, c, Done(outcome, false)).(temporaries := d.temporaries - {c})
      case Return(c) => At(d, c, Done(Stored, true)).(temporaries := d.temporaries - {c})
      case Fault(c) => At(d, c, Done(Faulted, false)).(temporaries := d.temporaries - {c})
      case Crash(c) => At(d, c, Crashed(call.phase.Committed?))
  }

  ghost predicate Follows(d: Directory, e: Event, t: Directory) {
    Enabled(d, e) && t == Step(d, e)
  }

  ghost predicate IsRun(states: seq<Directory>, events: seq<Event>) {
    && |states| == |events| + 1
    && states[0] == INITIAL
    && forall i {:trigger events[i]} :: 0 <= i < |events| ==> Follows(states[i], events[i], states[i + 1])
  }

  /** The call created the final file under its key. */
  ghost predicate Won(call: Call) {
    call.phase == Committed || (call.phase.Done? && call.phase.won) || call.phase == Crashed(true)
  }

  ghost predicate Sound(files: map<string, Receipt>, call: Call) {
    && (Won(call) ==> call.key in files && files[call.key] == call.receipt)
    && (call.phase.Lost? ==> call.key in files)
    && (call.phase.Absent? || call.phase.Written? || call.phase.Lost? || Won(call) ==>
        !Incomplete(call.key, call.receipt))
    && (call.phase.Done? ==>
          match call.phase.outcome
          case Stored => !Incomplete(call.key, call.receipt) && call.key in files
            && files[call.key].digest == call.receipt.digest
          case Conflict => !Incomplete(call.key, call.receipt) && call.key in files
            && files[call.key].digest != call.receipt.digest
          case Invalid => Incomplete(call.key, call.receipt) && !call.phase.won
          case Faulted => !Incomplete(call.key, call.receipt) && !call.phase.won)
  }

  ghost predicate Owned(d: Directory, key: string) {
    exists c :: c in d.calls && d.calls[c].key == key && Won(d.calls[c])
  }

  ghost predicate SameWinner(a: Call, b: Call) {
    Won(b) && a.key == b.key
  }

  ghost predicate MayHaveTemporary(call: Call) {
    !call.phase.Done? && !call.phase.Begun? && !call.phase.Absent?
  }

  ghost predicate Inv(d: Directory) {
    && (forall c :: c in d.calls ==> Sound(d.files, d.calls[c]))
    && (forall k :: k in d.files ==> Owned(d, k))
    && (forall a, b :: a in d.calls && b in d.calls && Won(d.calls[a]) && SameWinner(d.calls[a], d.calls[b]) ==> a == b)
    && (forall c :: c in d.temporaries ==> c in d.calls && MayHaveTemporary(d.calls[c]))
  }

  /** One action of call `c`: it may create the final file of its own key where none was,
      and that is the only way to win. */
  ghost predicate Delta(d: Directory, t: Directory, c: nat) {
    && c in t.calls && t.calls == d.calls[c := t.calls[c]]
    && Sound(t.files, t.calls[c])
    && (c in d.calls ==> t.calls[c].key == d.calls[c].key)
    && (c in t.temporaries ==> MayHaveTemporary(t.calls[c]))
    && (forall b :: b != c ==> (b in t.temporaries <==> b in d.temporaries))
    && if c in d.calls && Won(d.calls[c]) then Won(t.calls[c]) && t.files == d.files
       else if Won(t.calls[c]) then
         t.calls[c].key !in d.files && t.files == d.files[t.calls[c].key := t.calls[c].receipt]
       else t.files == d.files
  }

  lemma StepDelta(d: Directory, e: Event)
    requires Enabled(d, e)
    requires e.c in d.calls ==> Sound(d.files, d.calls[e.c])
    requires e.c in d.temporaries ==> e.c in d.calls && MayHaveTemporary(d.calls[e.c])
    ensures Delta(d, Step(d, e), e.c)
  {
  }

  lemma DeltaOwned(d: Directory, t: Directory, c: nat)
    requires Inv(d) && Delta(d, t, c)
    ensures forall k :: k in t.files ==> Owned(t, k)
  {
    forall k | k in t.files ensures Owned(t, k) {
      if k in d.files {
        assert Owned(d, k);
        var w :| w in d.calls && d.calls[w].key == k && Won(d.calls[w]);
        assert t.calls[w].key == k && Won(t.calls[w]);
      } else {
        assert t.calls[c].key == k && Won(t.calls[c]);
      }
    }
  }

  lemma DeltaSound(d: Directory, t: Directory, c: nat)
    requires Inv(d) && Delta(d, t, c)
    ensures forall b :: b in t.calls ==> Sound(t.files, t.calls[b])
    ensures forall k :: k in d.files ==> k in t.files && t.files[k] == d.files[k]
  {
    forall b | b in d.calls && b != c ensures Sound(t.files, t.calls[b]) {
      assert Sound(d.files, d.calls[b]);
    }
  }

  lemma DeltaInv(d: Directory, t: Directory, c: nat)
    requires Inv(d) && Delta(d, t, c)
    ensures Inv(t)
    ensures forall k :: k in d.files ==> k in t.files && t.files[k] == d.files[k]
  {
    DeltaOwned(d, t, c);
    DeltaSound(d, t, c);
    forall a, b | a in t.calls && b in t.calls && Won(t.calls[a]) && SameWinner(t.calls[a], t.calls[b]) ensures a == b {
      assert a in d.calls ==> Sound(d.files, d.calls[a]);
      assert b in d.calls ==> Sound(d.files, d.calls[b]);
    }
  }

  lemma {:induction false} StepInv(d: Directory, e: Event)
    requires Inv(d) && Enabled(d, e)
    ensures Inv(Step(d, e))
    ensures forall k :: k in d.files ==> k in Step(d, e).files && Step(d, e).files[k] == d.files[k]
  {
    StepDelta(d, e);
    DeltaInv(d, Step(d, e), e.c);
  }

  lemma {:induction false} RunInv(states: seq<Directory>, events: seq<Event>, i: nat)
    requires IsRun(states, events) && i < |states|
    ensures Inv(states[i])
  {
    if i > 0 {
      RunInv(states, events, i - 1);
      assert Follows(states[i - 1], events[i - 1], states[i - 1 + 1]);
      StepInv(states[i - 1], events[i - 1]);
    }
  }

  /** First writer wins: across all processes and crashes a committed receipt is never
      replaced or removed. */
  lemma {:induction false} ReceiptsPermanent(states: seq<Directory>, events: seq<Event>, i: nat, k: nat, key: string)
    requires IsRun(states, events) && i <= k < |states| && key in states[i].files
    ensures key in states[k].files && states[k].files[key] == states[i].files[key]
    decreases k
  {
    if i < k {
      ReceiptsPermanent(states, events, i, k - 1, key);
      RunInv(states, events, k - 1);
      assert Follows(states[k - 1], events[k - 1], states[k - 1 + 1]);
      StepInv(states[k - 1], events[k - 1]);
    }
  }

  /** Every committed receipt is the argument of exactly one call, which reached its link. */
  lemma CommittedByExactlyOneCall(states: seq<Directory>, events: seq<Event>, i: nat, key: string) returns (c: nat)
    requires IsRun(states, events) && i < |states| && key in states[i].files
    ensures c in states[i].calls && states[i].calls[c].key == key && Won(states[i].calls[c])
    ensures states[i].files[key] == states[i].calls[c].receipt
    ensures forall b :: b in states[i].calls && states[i].calls[b].key == key && Won(states[i].calls[b]) ==> b == c
  {
    RunInv(states, events, i);
    assert Owned(states[i], key);
    c :| c in states[i].calls && states[i].calls[c].key == key && Won(states[i].calls[c]);
    assert Sound(states[i].files, states[i].calls[c]);
  }

  /** The Put returned and the file system did not fail it. */
  ghost predicate Settled(call: Call) {
    call.phase.Done? && (call.phase.outcome == Stored || call.phase.outcome == Conflict)
  }

  /** A Put that returned says nil or conflict exactly as the committed digest is its own or
      not, unless the file system failed it, and refuses exactly the incomplete receipts. */
  lemma OutcomeExact(states: seq<Directory>, events: seq<Event>, i: nat, c: nat)
    requires IsRun(states, events) && i < |states| && c in states[i].calls && states[i].calls[c].phase.Done?
    ensures var call, files := states[i].calls[c], states[i].files;
            && (call.phase.outcome == Invalid <==>
                |call.key| == 0 || |call.receipt.digest| == 0 || |call.receipt.response| == 0)
            && (Settled(call) ==>
                  && call.key in files
                  && (call.phase.outcome == Stored <==> files[call.key].digest == call.receipt.digest))
  {
    RunInv(states, events, i);
    assert Sound(states[i].files, states[i].calls[c]);
  }

  /** A call keeps the key and the receipt it was started with. */
  lemma {:induction false} CallOrigin(states: seq<Directory>, events: seq<Event>, i: nat, c: nat) returns (m: nat)
    requires IsRun(states, events) && i < |states| && c in states[i].calls
    ensures m < i && events[m] == Start(c, states[i].calls[c].key, states[i].calls[c].receipt)
    decreases i
  {
    if i == 0 {
      assert false;
    }
    assert Follows(states[i - 1], events[i - 1], states[i - 1 + 1]);
    if events[i - 1].Start? && events[i - 1].c == c {
      m := i - 1;
    } else {
      m := CallOrigin(states, events, i - 1, c);
    }
  }

  lemma FaultHere(d: Directory, e: Event, t: Directory, c: nat)
    requires Inv(d) && Follows(d, e, t) && c in t.calls && t.calls[c].phase == Done(Faulted, false)
    ensures e == Fault(c) || (c in d.calls && d.calls[c].phase == Done(Faulted, false))
  {
    if c in d.calls {
      assert Sound(d.files, d.calls[c]);
    }
  }

  /** A Put reports an error of the file system only if there was one; the event is exhibited. */
  lemma {:induction false} FaultCause(states: seq<Directory>, events: seq<Event>, i: nat, c: nat) returns (m: nat)
    requires IsRun(states, events) && i < |states| && c in states[i].calls
             && states[i].calls[c].phase == Done(Faulted, false)
    ensures m < i && events[m] == Fault(c)
    decreases i
  {
    if i == 0 {
      assert false;
    }
    RunInv(states, events, i - 1);
    FaultHere(states[i - 1], events[i - 1], states[i - 1 + 1], c);
    if events[i - 1] == Fault(c) {
      m := i - 1;
    } else {
      m := FaultCause(states, events, i - 1, c);
    }
  }

  /** A Put that returned and met no error says nil or conflict, or that it was incomplete. */
  lemma NoFaultSettles(states: seq<Directory>, events: seq<Event>, i: nat, c: nat)
    requires IsRun(states, events) && i < |states| && c in states[i].calls && states[i].calls[c].phase.Done?
    requires forall m :: 0 <= m < i ==> events[m] != Fault(c)
    ensures Settled(states[i].calls[c]) || states[i].calls[c].phase.outcome == Invalid
  {
    RunInv(states, events, i);
    assert Sound(states[i].files, states[i].calls[c]);
    if states[i].calls[c].phase.outcome == Faulted {
      var m := FaultCause(states, events, i, c);
    }
  }

  /** The read that follows a lost link always finds the winner's receipt. */
  lemma LostLinkIsReadable(states: seq<Directory>, events: seq<Event>, i: nat)
    requires IsRun(states, events) && i < |events| && events[i].Reread?
    ensures Enabled(states[i], events[i]) && states[i].calls[events[i].c].key in states[i].files
  {
    RunInv(states, events, i);
    assert Follows(states[i], events[i], states[i + 1]);
    assert Sound(states[i].files, states[i].calls[events[i].c]);
  }

  /** The call stops here, by a crash or an error of the file system. */
  ghost predicate Stops(e: Event) {
    e.Crash? || e.Fault?
  }

  lemma {:induction false} StopIsFinal(states: seq<Directory>, events: seq<Event>, i: nat, k: nat)
    requires IsRun(states, events) && i < k < |states| && Stops(events[i]) && Enabled(states[i], events[i])
    ensures events[i].c in states[k].calls
            && states[k].calls[events[i].c] == Step(states[i], events[i]).calls[events[i].c]
    decreases k
  {
    assert Follows(states[k - 1], events[k - 1], states[k - 1 + 1]);
    if i < k - 1 {
      StopIsFinal(states, events, i, k - 1);
    }
  }

  /** A crash or a file-system error leaves the committed receipts as they were, and a call
      that stopped before its link is not the author of any receipt, then or later. */
  lemma StopCommitsNothing(states: seq<Directory>, events: seq<Event>, i: nat)
    requires IsRun(states, events) && i < |events| && Stops(events[i])
    ensures states[i + 1].files == states[i].files
    ensures Enabled(states[i], events[i])
    ensures !states[i].calls[events[i].c].phase.Committed? ==>
              forall k: nat :: i < k < |states| ==> events[i].c in states[k].calls && !Won(states[k].calls[events[i].c])
  {
    assert Follows(states[i], events[i], states[i + 1]);
    if !states[i].calls[events[i].c].phase.Committed? {
      forall k: nat | i < k < |states|
        ensures events[i].c in states[k].calls && !Won(states[k].calls[events[i].c])
      {
        StopIsFinal(states, events, i, k);
      }
    }
  }

  /** A finished Put leaves no temporary file behind. */
  lemma TemporariesCleaned(states: seq<Directory>, events: seq<Event>, i: nat, c: nat)
    requires IsRun(states, events) && i < |states| && c in states[i].calls && states[i].calls[c].phase.Done?
    ensures c !in states[i].temporaries
  {
    RunInv(states, events, i);
  }

  // ----- When a Put takes effect

  /** The call has made the read or the link that decides its outcome. */
  ghost predicate Decided(call: Call) {
    call.phase.Lost? || call.phase.Committed? || Settled(call)
  }

  /** The Check of call `c` that finds a file, or its Link. */
  ghost predicate Decides(d: Directory, e: Event, c: nat) {
    && e.c == c && c in d.calls
    && (e.Link? || (e.Check? && d.calls[c].key in d.files))
  }

  lemma StepDecides(d: Directory, e: Event, c: nat)
    requires Inv(d) && Enabled(d, e) && c in Step(d, e).calls && Decided(Step(d, e).calls[c])
    ensures c in d.calls
    ensures Step(d, e).calls[c].key == d.calls[c].key && Step(d, e).calls[c].receipt == d.calls[c].receipt
    ensures Decided(d.calls[c]) || Decides(d, e, c)
  {
    if c in d.calls {
      assert Sound(d.files, d.calls[c]);
    }
  }

  /** At its decisive event a Put does to the directory what one atomic create-without-replace would. */
  lemma DecisiveStep(d: Directory, e: Event, c: nat)
    requires Inv(d) && Enabled(d, e) && Decides(d, e, c)
    ensures Step(d, e).files == Linked(d.files, Entry(d.calls[c].key, d.calls[c].receipt))
  {
  }

  lemma OtherStepsKeepFiles(d: Directory, e: Event)
    requires Enabled(d, e) && !Decides(d, e, e.c)
    ensures Step(d, e).files == d.files
  {
  }

  lemma {:induction false} DecisiveEvent(states: seq<Directory>, events: seq<Event>, i: nat, c: nat) returns (m: nat)
    requires IsRun(states, events) && i < |states| && c in states[i].calls && Decided(states[i].calls[c])
    ensures m < i && Decides(states[m], events[m], c)
    ensures states[m].calls[c].key == states[i].calls[c].key && states[m].calls[c].receipt == states[i].calls[c].receipt
    decreases i
  {
    if i == 0 {
      assert false;
    }
    RunInv(states, events, i - 1);
    assert Follows(states[i - 1], events[i - 1], states[i - 1 + 1]);
    StepDecides(states[i - 1], events[i - 1], c);
    if Decides(states[i - 1], events[i - 1], c) {
      m := i - 1;
    } else {
      m := DecisiveEvent(states, events, i - 1, c);
    }
  }

  /** Every Put that returned nil or a conflict behaves as if it had run alone at one decisive
      event, its first read if that finds a file and its link otherwise: it creates the file
      where there was none and compares digests where there was one.  The committed bytes
      are its own exactly when at that event the key was free or held the same receipt. */
  lemma PutTakesEffectAtOnce(states: seq<Directory>, events: seq<Event>, i: nat, c: nat) returns (m: nat)
    requires IsRun(states, events) && i < |states| && c in states[i].calls && Settled(states[i].calls[c])
    ensures m < i && Decides(states[m], events[m], c)
    ensures var call, before := states[i].calls[c], states[m].files;
            && states[m + 1].files == Linked(before, Entry(call.key, call.receipt))
            && (call.phase.outcome == Stored <==> call.key !in before || before[call.key].digest == call.receipt.digest)
            && call.key in states[i].files
            && (states[i].files[call.key] == call.receipt <==> call.key !in before || before[call.key] == call.receipt)
  {
    m := DecisiveEvent(states, events, i, c);
    RunInv(states, events, m);
    assert Follows(states[m], events[m], states[m + 1]);
    DecisiveStep(states[m], events[m], c);
    ReceiptsPermanent(states, events, m + 1, i, states[i].calls[c].key);
    OutcomeExact(states, events, i, c);
  }

  /** The receipts of the calls that have decided, in the order of their decisive events. */
  ghost function Decisions(states: seq<Directory>, events: seq<Event>, i: nat): seq<Entry>
    requires |states| == |events| + 1 && i <= |events|
  {
    if i == 0 then [] else
      var d, e := states[i - 1], events[i - 1];
      Decisions(states, events, i - 1)
      + if Decides(d, e, e.c) then [Entry(d.calls[e.c].key, d.calls[e.c].receipt)] else []
  }

  lemma LinkedSnoc(files: map<string, Receipt>, es: seq<Entry>, e: Entry)
    ensures LinkedAll(files, es + [e]) == Linked(LinkedAll(files, es), e)
  {
    assert (es + [e])[..|es|] == es;
  }

  /** In every run the directory is what atomic Puts, one after the other in the order of the
      decisive events, would have made of it. */
  lemma {:induction false} Linearized(states: seq<Directory>, events: seq<Event>, i: nat)
    requires IsRun(states, events) && i < |states|
    ensures states[i].files == LinkedAll(map[], Decisions(states, events, i))
  {
    if i > 0 {
      Linearized(states, events, i - 1);
      RunInv(states, events, i - 1);
      var d, e := states[i - 1], events[i - 1];
      assert Follows(d, e, states[i - 1 + 1]);
      var before := Decisions(states, events, i - 1);
      if Decides(d, e, e.c) {
        DecisiveStep(d, e, e.c);
        LinkedSnoc(map[], before, Entry(d.calls[e.c].key, d.calls[e.c].receipt));
      } else {
        OtherStepsKeepFiles(d, e);
        assert before + [] == before;
      }
    }
  }

  lemma DecidedStays(d: Directory, e: Event, t: Directory, c: nat)
    requires Follows(d, e, t) && c in d.calls && !d.calls[c].phase.Begun? && !d.calls[c].phase.Absent?
             && !d.calls[c].phase.Written?
    ensures c in t.calls && !t.calls[c].phase.Begun? && !t.calls[c].phase.Absent? && !t.calls[c].phase.Written?
    ensures !Decides(d, e, c)
  {
  }

  lemma {:induction false} DecidedThrough(states: seq<Directory>, events: seq<Event>, m: nat, k: nat, c: nat)
    requires IsRun(states, events) && m < k < |states| && Decides(states[m], events[m], c)
    ensures c in states[k].calls
    ensures !states[k].calls[c].phase.Begun? && !states[k].calls[c].phase.Absent? && !states[k].calls[c].phase.Written?
    decreases k
  {
    assert Follows(states[k - 1], events[k - 1], states[k - 1 + 1]);
    if m < k - 1 {
      DecidedThrough(states, events, m, k - 1, c);
      DecidedStays(states[k - 1], events[k - 1], states[k - 1 + 1], c);
    }
  }

  /** No call decides twice. */
  lemma DecidesOnce(states: seq<Directory>, events: seq<Event>, m: nat, k: nat, c: nat)
    requires IsRun(states, events) && m < k < |events| && Decides(states[m], events[m], c)
    ensures !Decides(states[k], events[k], c)
  {
    DecidedThrough(states, events, m, k, c);
    DecidedStays(states[k], events[k], states[k + 1], c);
  }

  // ----- What the caller of a shared directory may not conclude

  /** Two calls on the one key "k" with the digest "d", whose operations returned "a" and "b". */
  function Pair(files: map<string, Receipt>, temporaries: set<nat>, p: Phase, q: Phase): Directory {
    Directory(files, temporaries, map[0 := Call("k", Receipt("d", "a"), p), 1 := Call("k", Receipt("d", "b"), q)])
  }

  /** The race: both calls read that the key is free, both write, the first links and wins. */
  lemma Race()
    ensures var none, one := map[], map["k" := Receipt("d", "a")];
            && Follows(Pair(none, {}, Begun, Begun), Check(0), Pair(none, {}, Absent, Begun))
            && Follows(Pair(none, {}, Absent, Begun), Check(1), Pair(none, {}, Absent, Absent))
            && Follows(Pair(none, {}, Absent, Absent), Write(0), Pair(none, {0}, Written, Absent))
            && Follows(Pair(none, {0}, Written, Absent), Write(1), Pair(none, {0, 1}, Written, Written))
            && Follows(Pair(none, {0, 1}, Written, Written), Link(0), Pair(one, {0, 1}, Committed, Written))
            && Follows(Pair(one, {0, 1}, Committed, Written), Link(1), Pair(one, {0, 1}, Committed, Lost))
            && Follows(Pair(one, {0, 1}, Committed, Lost), Return(0), Pair(one, {1}, Done(Stored, true), Lost))
            && Follows(Pair(one, {1}, Done(Stored, true), Lost), Reread(1),
                       Pair(one, {}, Done(Stored, true), Done(Stored, false)))
  {
    assert {0, 1} - {0} == {1} && {1} - {1} == {};
  }

  lemma Extend(states: seq<Directory>, events: seq<Event>, e: Event, t: Directory)
    returns (ss: seq<Directory>, es: seq<Event>)
    requires IsRun(states, events) && Follows(states[|events|], e, t)
    ensures IsRun(ss, es) && ss[|es|] == t
  {
    ss, es := states + [t], events + [e];
    forall i | 0 <= i < |es| ensures Follows(ss[i], es[i], ss[i + 1]) {
      assert i < |events| ==> Follows(states[i], events[i], states[i + 1]);
    }
  }

  /** Two processes, one key, one digest, two outputs: both Puts return nil, and only the
      winner's bytes are committed. */
  lemma BothReturnNil() returns (states: seq<Directory>, events: seq<Event>)
    ensures IsRun(states, events)
    ensures states[|events|] == Pair(map["k" := Receipt("d", "a")], {}, Done(Stored, true), Done(Stored, false))
  {
    var none, one := map[], map["k" := Receipt("d", "a")];
    var alone := Directory(none, {}, map[0 := Call("k", Receipt("d", "a"), Begun)]);
    Race();
    states, events := [INITIAL], [];
    states, events := Extend(states, events, Start(0, "k", Receipt("d", "a")), alone);
    states, events := Extend(states, events, Start(1, "k", Receipt("d", "b")), Pair(none, {}, Begun, Begun));
    states, events := Extend(states, events, Check(0), Pair(none, {}, Absent, Begun));
    states, events := Extend(states, events, Check(1), Pair(none, {}, Absent, Absent));
    states, events := Extend(states, events, Write(0), Pair(none, {0}, Written, Absent));
    states, events := Extend(states, events, Write(1), Pair(none, {0, 1}, Written, Written));
    states, events := Extend(states, events, Link(0), Pair(one, {0, 1}, Committed, Written));
    states, events := Extend(states, events, Link(1), Pair(one, {0, 1}, Committed, Lost));
    states, events := Extend(states, events, Return(0), Pair(one, {1}, Done(Stored, true), Lost));
    states, events := Extend(states, events, Reread(1), Pair(one, {}, Done(Stored, true), Done(Stored, false)));
  }
}
