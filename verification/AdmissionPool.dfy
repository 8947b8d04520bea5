/** The in-memory admission pool: each mutex-protected critical section of
    `Pool` as a function from the pool before to the pool after, and the class
    whose methods carry those sections out in place.

    A Go `*endpointState` is an index into `arena`, the sequence of every state
    ever allocated; a `notify` channel is a generation number, and generation g
    of a state is closed exactly when the state's current generation exceeds g. */
module AdmissionPool {

  datatype Policy = Policy(
    key: string,
    maxConcurrency: int,
    maxQueueDepth: int,
    queueTimeout: int,
    maxRequestBytes: int,
    maxOutputTokens: int,
    allowedPriorities: set<string>,
    enabled: bool)

  datatype Request = Request(key: string, priority: string, requestBytes: int, outputTokens: int)

  datatype Error = ErrConcurrency | ErrQueueTimeout | ErrRequestSize | ErrOutputLimit | ErrPriority | ErrCancelled

  datatype Endpoint = Endpoint(
    policy: Policy,
    active: int,
    waiting: int,
    rejected: nat,
    queueTimeouts: nat,
    notify: nat)

  datatype View = View(states: map<string, nat>, arena: seq<Endpoint>)

  /** How a critical section of Acquire ended: a no-op lease, an error charged to a
      state, a lease on a state, a place in its queue, or a wait on a generation. */
  datatype Verdict =
    | Unlimited
    | Refused(error: Error)
    | Admitted
    | Enqueued
    | Wait(generation: nat)

  ghost predicate InRange(v: View) {
    forall k :: k in v.states ==> v.states[k] < |v.arena|
  }

  function With(v: View, id: nat, e: Endpoint): (r: View)
    requires id < |v.arena|
  {
    v.(arena := v.arena[id := e])
  }

  predicate Accepted(p: Policy) {
    && p.key != ""
    && p.maxConcurrency >= 1
    && p.maxQueueDepth >= 0
    && p.queueTimeout > 0
    && p.maxRequestBytes >= 1
    && p.maxOutputTokens >= 1
  }

  /** The snapshot loop of Replace: the states are looked up in the old map `v.states`. */
  ghost function Publish(v: View, policies: seq<Policy>): (r: View)
    requires InRange(v)
    ensures InRange(r) && |v.arena| <= |r.arena|
  {
    if policies == [] then View(map[], v.arena) else
      var last := |policies| - 1;
      var p, r := policies[last], Publish(v, policies[..last]);
      if !Accepted(p) then r
      else if p.key in v.states then
        var id := v.states[p.key];
        With(r.(states := r.states[p.key := id]), id, r.arena[id].(policy := p))
      else
        View(r.states[p.key := |r.arena|], r.arena + [Endpoint(p, 0, 0, 0, 0, 0)])
  }

  lemma PublishOne(v: View, p: Policy)
    requires InRange(v) && Accepted(p)
    ensures Publish(v, [p]) ==
            if p.key in v.states then
              View(map[p.key := v.states[p.key]], v.arena[v.states[p.key] := v.arena[v.states[p.key]].(policy := p)])
            else View(map[p.key := |v.arena|], v.arena + [Endpoint(p, 0, 0, 0, 0, 0)])
  {
    assert [p][..0] == [];
    assert Publish(v, [p][..0]) == View(map[], v.arena);
  }

  function Priority(r: Request): string {
    if r.priority == "" then "normal" else r.priority
  }

  /** The gates of Acquire that need only the policy. */
  function Gate(p: Policy, r: Request): Verdict {
    if r.requestBytes > p.maxRequestBytes then Refused(ErrRequestSize)
    else if r.outputTokens > p.maxOutputTokens then Refused(ErrOutputLimit)
    else if Priority(r) !in p.allowedPriorities then Refused(ErrPriority)
    else Admitted
  }

  /** The first critical section of Acquire. */
  function Enter(v: View, r: Request): (View, Verdict)
    requires InRange(v)
  {
    if r.key !in v.states || !v.arena[v.states[r.key]].policy.enabled then (v, Unlimited) else
      var id := v.states[r.key];
      var e := v.arena[id];
      var gate := Gate(e.policy, r);
      if gate.Refused? then (With(v, id, e.(rejected := e.rejected + 1)), gate)
      else if e.active < e.policy.maxConcurrency then (With(v, id, e.(active := e.active + 1)), Admitted)
      else if e.waiting >= e.policy.maxQueueDepth then
        (With(v, id, e.(rejected := e.rejected + 1)), Refused(ErrConcurrency))
      else (With(v, id, e.(waiting := e.waiting + 1)), Enqueued)
  }

  /** Which requests the first section lets through, queues or refuses, in terms of the policy
      published for the key: no enabled policy admits everything without a lease. */
  lemma EnterOutcome(v: View, r: Request)
    requires InRange(v)
    ensures var verdict := Enter(v, r).1;
            && (verdict == Unlimited <==> r.key !in v.states || !v.arena[v.states[r.key]].policy.enabled)
            && (verdict != Unlimited ==>
                  var e := v.arena[v.states[r.key]];
                  var small, short := r.requestBytes <= e.policy.maxRequestBytes,
                    r.outputTokens <= e.policy.maxOutputTokens;
                  var priority := if r.priority == "" then "normal" else r.priority;
                  var welcome := small && short && priority in e.policy.allowedPriorities;
                  && (verdict == Refused(ErrRequestSize) <==> !small)
                  && (verdict == Refused(ErrOutputLimit) <==> small && !short)
                  && (verdict == Refused(ErrPriority) <==> small && short && !welcome)
                  && (verdict == Admitted <==> welcome && e.active < e.policy.maxConcurrency)
                  && (verdict == Enqueued <==>
                        welcome && e.active >= e.policy.maxConcurrency && e.waiting < e.policy.maxQueueDepth)
                  && (verdict == Refused(ErrConcurrency) <==>
                        welcome && e.active >= e.policy.maxConcurrency && e.waiting >= e.policy.maxQueueDepth))
  {
  }

  /** The critical section at the head of the waiting loop. */
  function Recheck(v: View, key: string, id: nat): (View, Verdict)
    requires InRange(v) && id < |v.arena|
  {
    var e := v.arena[id];
    if key !in v.states || v.states[key] != id || !e.policy.enabled then
      (With(v, id, e.(waiting := e.waiting - 1)), Unlimited)
    else if e.active < e.policy.maxConcurrency then
      (With(v, id, e.(waiting := e.waiting - 1, active := e.active + 1)), Admitted)
    else (v, Wait(e.notify))
  }

  /** The body of a release function that has not run yet. */
  function Release(v: View, id: nat): (r: View)
    requires id < |v.arena|
  {
    var e := v.arena[id];
    var active := if e.active > 0 then e.active - 1 else e.active;
    With(v, id, e.(active := active, notify := e.notify + 1))
  }

  function RemoveWaiter(v: View, id: nat): (r: View)
    requires id < |v.arena|
  {
    var e := v.arena[id];
    With(v, id, e.(waiting := if e.waiting > 0 then e.waiting - 1 else e.waiting))
  }

  /** The second critical section of a queue timeout. */
  function CountTimeout(v: View, id: nat): (r: View)
    requires id < |v.arena|
  {
    var e := v.arena[id];
    With(v, id, e.(rejected := e.rejected + 1, queueTimeouts := e.queueTimeouts + 1))
  }

  /** The pool object.  Every method body runs with `p.mu` held. */
  class Pool {
    var states: map<string, nat>
    var arena: seq<Endpoint>

    ghost function Contents(): View
      reads this
    {
      View(states, arena)
    }

    ghost predicate Valid()
      reads this
    {
      InRange(Contents())
    }

    constructor ()
      ensures Valid() && Contents() == View(map[], [])
    {
      states, arena := map[], [];
    }

    method Replace(policies: seq<Policy>)
      requires Valid()
      modifies this
      ensures Valid() && Contents() == Publish(old(Contents()), policies)
    {
      var next: map<string, nat> := map[];
      var i := 0;
      while i < |policies|
        invariant 0 <= i <= |policies|
        invariant states == old(states)
        invariant View(next, arena) == Publish(old(Contents()), policies[..i])
      {
        var p := policies[i];
        assert policies[..i + 1][..i] == policies[..i];
        if Accepted(p) {
          if p.key in states {
            var id := states[p.key];
            arena := arena[id := arena[id].(policy := p)];
            next := next[p.key := id];
          } else {
            next := next[p.key := |arena|];
            arena := arena + [Endpoint(p, 0, 0, 0, 0, 0)];
          }
        }
        i := i + 1;
      }
      assert policies[..i] == policies;
      states := next;
    }

    method EnterAcquire(r: Request) returns (verdict: Verdict)
      requires Valid()
      modifies this
      ensures Valid() && (Contents(), verdict) == Enter(old(Contents()), r)
    {
      if r.key !in states || !arena[states[r.key]].policy.enabled {
        return Unlimited;
      }
      var id := states[r.key];
      var e := arena[id];
      if Gate(e.policy, r).Refused? {
        arena := arena[id := e.(rejected := e.rejected + 1)];
        return Gate(e.policy, r);
      }
      if e.active < e.policy.maxConcurrency {
        arena := arena[id := e.(active := e.active + 1)];
        return Admitted;
      }
      if e.waiting >= e.policy.maxQueueDepth {
        arena := arena[id := e.(rejected := e.rejected + 1)];
        return Refused(ErrConcurrency);
      }
      arena := arena[id := e.(waiting := e.waiting + 1)];
      return Enqueued;
    }

    method RecheckQueue(key: string, id: nat) returns (verdict: Verdict)
      requires Valid() && id < |arena|
      modifies this
      ensures Valid() && (Contents(), verdict) == Recheck(old(Contents()), key, id)
    {
      var e := arena[id];
      if key !in states || states[key] != id || !e.policy.enabled {
        arena := arena[id := e.(waiting := e.waiting - 1)];
        return Unlimited;
      }
      if e.active < e.policy.maxConcurrency {
        e := e.(waiting := e.waiting - 1);
        e := e.(active := e.active + 1);
        arena := arena[id := e];
        return Admitted;
      }
      return Wait(e.notify);
    }

    method ReleaseLease(id: nat)
      requires Valid() && id < |arena|
      modifies this
      ensures Valid() && Contents() == Release(old(Contents()), id)
    {
      if arena[id].active > 0 {
        arena := arena[id := arena[id].(active := arena[id].active - 1)];
      }
      arena := arena[id := arena[id].(notify := arena[id].notify + 1)];
    }

    method DropWaiter(id: nat)
      requires Valid() && id < |arena|
      modifies this
      ensures Valid() && Contents() == RemoveWaiter(old(Contents()), id)
    {
      if arena[id].waiting > 0 {
        arena := arena[id := arena[id].(waiting := arena[id].waiting - 1)];
      }
    }

    method ChargeTimeout(id: nat)
      requires Valid() && id < |arena|
      modifies this
      ensures Valid() && Contents() == CountTimeout(old(Contents()), id)
    {
      arena := arena[id := arena[id].(rejected := arena[id].rejected + 1)];
      arena := arena[id := arena[id].(queueTimeouts := arena[id].queueTimeouts + 1)];
    }
  }

  // ----- What a policy snapshot does to each key

  /** The policy a snapshot publishes for a key: its last accepted entry. */
  ghost function Effective(policies: seq<Policy>, key: string): (r: seq<Policy>)
    ensures |r| <= 1
    ensures r != [] ==> Accepted(r[0]) && r[0].key == key && r[0] in policies
  {
    if policies == [] then [] else
      var last := |policies| - 1;
      var p := policies[last];
      if Accepted(p) && p.key == key then [p] else Effective(policies[..last], key)
  }

  ghost predicate KeysOwned(v: View) {
    && InRange(v)
    && forall k :: k in v.states ==> v.arena[v.states[k]].policy.key == k
  }

  ghost function WithPolicy(e: Endpoint, r: seq<Policy>): Endpoint {
    if r == [] then e else e.(policy := r[0])
  }

  ghost predicate Named(v: View, id: nat) {
    id < |v.arena| && v.arena[id].policy.key in v.states && v.states[v.arena[id].policy.key] == id
  }

  /** An endpoint that no key of `v` names keeps everything; one that is named keeps
      everything but takes the policy the snapshot publishes for its key, if any. */
  ghost predicate Kept(v: View, policies: seq<Policy>, r: View) {
    && |v.arena| <= |r.arena|
    && forall id :: 0 <= id < |v.arena| ==>
         r.arena[id] == (if Named(v, id) then WithPolicy(v.arena[id], Effective(policies, v.arena[id].policy.key))
                         else v.arena[id])
  }

  /** A key keeps its old state object, or gets a fresh idle one that carries the policy. */
  ghost predicate Bound(v: View, policies: seq<Policy>, r: View, k: string)
    requires InRange(r)
  {
    && (k in r.states <==> Effective(policies, k) != [])
    && (k in r.states && k in v.states ==> r.states[k] == v.states[k])
    && (k in r.states && k !in v.states ==>
          && r.states[k] >= |v.arena|
          && r.arena[r.states[k]] == Endpoint(Effective(policies, k)[0], 0, 0, 0, 0, 0))
  }

  ghost predicate Meaning(v: View, policies: seq<Policy>, r: View) {
    && KeysOwned(r)
    && Kept(v, policies, r)
    && (forall k :: Bound(v, policies, r, k))
    && (forall id :: |v.arena| <= id < |r.arena| ==>
          Accepted(r.arena[id].policy) && r.arena[id] == Endpoint(r.arena[id].policy, 0, 0, 0, 0, 0))
  }

  /** Every field of the entry is one that Replace accepts. */
  ghost predicate WellFormedEntry(p: Policy) {
    && |p.key| > 0 && p.queueTimeout >= 1
    && p.maxConcurrency > 0 && p.maxRequestBytes > 0 && p.maxOutputTokens > 0 && !(p.maxQueueDepth < 0)
  }

  lemma EffectiveSnoc(policies: seq<Policy>, p: Policy, k: string)
    ensures Effective(policies + [p], k)
            == if Accepted(p) && p.key == k then [p] else Effective(policies, k)
  {
    assert (policies + [p])[..|policies|] == policies;
  }

  lemma SkipMeaning(v: View, policies: seq<Policy>, p: Policy, b: View)
    requires Meaning(v, policies, b) && !Accepted(p)
    ensures Meaning(v, policies + [p], b)
  {
    forall k ensures Effective(policies + [p], k) == Effective(policies, k) {
      EffectiveSnoc(policies, p, k);
    }
    forall k ensures Bound(v, policies + [p], b, k) {
      assert Bound(v, policies, b, k);
    }
  }

  ghost function Republished(v: View, p: Policy, b: View): View
    requires InRange(v) && |v.arena| <= |b.arena| && p.key in v.states
  {
    var id := v.states[p.key];
    With(b.(states := b.states[p.key := id]), id, b.arena[id].(policy := p))
  }

  lemma RepublishOwned(v: View, policies: seq<Policy>, p: Policy, b: View)
    requires KeysOwned(v) && Meaning(v, policies, b) && p.key in v.states
    ensures KeysOwned(Republished(v, p, b))
  {
    var r := Republished(v, p, b);
    forall k | k in r.states ensures r.states[k] < |r.arena| && r.arena[r.states[k]].policy.key == k {
      assert Bound(v, policies, b, k);
    }
  }

  lemma RepublishKept(v: View, policies: seq<Policy>, p: Policy, b: View)
    requires KeysOwned(v) && Kept(v, policies, b) && Accepted(p) && p.key in v.states
    ensures Kept(v, policies + [p], Republished(v, p, b))
  {
    var r := Republished(v, p, b);
    forall j | 0 <= j < |v.arena|
      ensures r.arena[j] == (if Named(v, j) then
                             WithPolicy(v.arena[j], Effective(policies + [p], v.arena[j].policy.key))
                             else v.arena[j])
    {
      EffectiveSnoc(policies, p, v.arena[j].policy.key);
    }
  }

  lemma RepublishMeaning(v: View, policies: seq<Policy>, p: Policy, b: View)
    requires KeysOwned(v) && Meaning(v, policies, b) && Accepted(p) && p.key in v.states
    ensures Meaning(v, policies + [p], Republished(v, p, b))
  {
    var r := Republished(v, p, b);
    forall k ensures Bound(v, policies + [p], r, k) {
      EffectiveSnoc(policies, p, k);
      assert Bound(v, policies, b, k);
    }
    RepublishOwned(v, policies, p, b);
    RepublishKept(v, policies, p, b);
  }

  lemma FreshMeaning(v: View, policies: seq<Policy>, p: Policy, b: View)
    requires KeysOwned(v) && Meaning(v, policies, b) && Accepted(p) && p.key !in v.states
    ensures Meaning(v, policies + [p], View(b.states[p.key := |b.arena|], b.arena + [Endpoint(p, 0, 0, 0, 0, 0)]))
  {
    var r := View(b.states[p.key := |b.arena|], b.arena + [Endpoint(p, 0, 0, 0, 0, 0)]);
    forall k ensures Bound(v, policies + [p], r, k) {
      EffectiveSnoc(policies, p, k);
      assert Bound(v, policies, b, k);
    }
    forall j | 0 <= j < |v.arena|
      ensures r.arena[j] == (if Named(v, j) then
                             WithPolicy(v.arena[j], Effective(policies + [p], v.arena[j].policy.key))
                             else v.arena[j])
    {
      EffectiveSnoc(policies, p, v.arena[j].policy.key);
    }
  }

  /** Replace is exactly "the last accepted entry per key wins": every key of the snapshot is
      bound and no other, an existing key keeps its state object with its leases, queue,
      counters and channel, and endpoints of removed keys are left alone. */
  lemma {:induction false} PublishMeaning(v: View, policies: seq<Policy>)
    requires KeysOwned(v)
    ensures Meaning(v, policies, Publish(v, policies))
  {
    if policies != [] {
      var last := |policies| - 1;
      PublishMeaning(v, policies[..last]);
      var p, b := policies[last], Publish(v, policies[..last]);
      assert policies == policies[..last] + [p];
      if !Accepted(p) {
        SkipMeaning(v, policies[..last], p, b);
      } else if p.key in v.states {
        RepublishMeaning(v, policies[..last], p, b);
      } else {
        FreshMeaning(v, policies[..last], p, b);
      }
    }
  }

  lemma {:induction false} EffectiveIs(policies: seq<Policy>, i: nat)
    requires i < |policies| && WellFormedEntry(policies[i])
    requires forall k :: i < k < |policies| && policies[k].key == policies[i].key ==> !WellFormedEntry(policies[k])
    ensures Effective(policies, policies[i].key) == [policies[i]]
  {
    var last := |policies| - 1;
    if i < last {
      EffectiveIs(policies[..last], i);
    }
  }

  lemma {:induction false} EffectiveNone(policies: seq<Policy>, key: string)
    requires forall k :: 0 <= k < |policies| && policies[k].key == key ==> !WellFormedEntry(policies[k])
    ensures Effective(policies, key) == []
  {
    if policies != [] {
      EffectiveNone(policies[..|policies| - 1], key);
    }
  }

  lemma {:induction false} LastEntry(policies: seq<Policy>, key: string) returns (i: nat)
    requires exists i :: 0 <= i < |policies| && policies[i].key == key && WellFormedEntry(policies[i])
    ensures i < |policies| && policies[i].key == key && WellFormedEntry(policies[i])
    ensures forall k :: i < k < |policies| && policies[k].key == key ==> !WellFormedEntry(policies[k])
  {
    var last := |policies| - 1;
    if policies[last].key == key && WellFormedEntry(policies[last]) {
      i := last;
    } else {
      i := LastEntry(policies[..last], key);
    }
  }

  /** What a snapshot publishes, by its entries' fields: the last well-formed entry of each key
      is in force afterwards, and a key without one is not limited. */
  lemma SnapshotInForce(v: View, policies: seq<Policy>, key: string)
    requires KeysOwned(v)
    ensures var r := Publish(v, policies);
            && (key in r.states <==>
                exists i :: 0 <= i < |policies| && policies[i].key == key && WellFormedEntry(policies[i]))
            && forall i :: 0 <= i < |policies| && policies[i].key == key && WellFormedEntry(policies[i])
                           && (forall k :: i < k < |policies| && policies[k].key == key ==>
                               !WellFormedEntry(policies[k])) ==>
                 key in r.states && r.arena[r.states[key]].policy == policies[i]
  {
    PublishMeaning(v, policies);
    var r := Publish(v, policies);
    assert Bound(v, policies, r, key);
    forall i | 0 <= i < |policies| && policies[i].key == key && WellFormedEntry(policies[i])
               && (forall k :: i < k < |policies| && policies[k].key == key ==> !WellFormedEntry(policies[k]))
      ensures key in r.states && r.arena[r.states[key]].policy == policies[i]
    {
      EffectiveIs(policies, i);
      if key in v.states {
        assert Named(v, v.states[key]);
      }
    }
    if exists i :: 0 <= i < |policies| && policies[i].key == key && WellFormedEntry(policies[i]) {
      var i := LastEntry(policies, key);
    } else {
      EffectiveNone(policies, key);
    }
  }
}
