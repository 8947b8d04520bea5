/** One pass of the capacity controller: which external effects it issues, in which order,
    for every pattern of failures. */
module CapacityLoop {
  import opened Wrappers

  datatype Action = ScaleUp | ScaleDown | ScaleFailed | Other(name: string)

  datatype Decision = Decision(action: Action, target: int)

  /** What the outside answers for the i-th deployment: whether the context has ended before
      it, its demand can be read, its decision (None when evaluation fails), and whether
      admission, fleet and repository accept it. */
  datatype Environment = Environment(
    equipped: bool,
    deployments: Option<nat>,
    ended: nat -> bool,
    demand: nat -> bool,
    evaluate: nat -> Option<Decision>,
    admit: nat -> bool,
    scale: nat -> bool,
    record: nat -> bool)

  datatype Effect =
    | Admit(i: nat, decision: Decision, ok: bool)
    | Scale(i: nat, target: int, ok: bool)
    | Record(i: nat, decision: Decision, ok: bool)

  predicate Resizes(d: Decision) {
    d.action.ScaleUp? || d.action.ScaleDown?
  }

  /** The decision asks for another size. */
  ghost predicate Changes(d: Decision) {
    d.action == ScaleUp || d.action == ScaleDown
  }

  ghost predicate Evaluated(env: Environment, i: nat) {
    env.demand(i) && env.evaluate(i).Some?
  }

  ghost predicate Admitted(env: Environment, i: nat) {
    Evaluated(env, i) && env.admit(i)
  }

  /** The effects owed for one deployment. */
  ghost function Turn(env: Environment, i: nat): seq<Effect> {
    if !Evaluated(env, i) then [] else
      var d := env.evaluate(i).value;
      if !env.admit(i) then [Admit(i, d, false)]
      else if !Resizes(d) then [Admit(i, d, true), Record(i, d, env.record(i))]
      else if env.scale(i) then [Admit(i, d, true), Scale(i, d.target, true), Record(i, d, env.record(i))]
      else [Admit(i, d, true), Scale(i, d.target, false), Record(i, d.(action := ScaleFailed), env.record(i))]
  }

  /** No stage of the deployment failed. */
  ghost predicate Clean(env: Environment, i: nat) {
    Admitted(env, i) && (Changes(env.evaluate(i).value) ==> env.scale(i)) && env.record(i)
  }

  ghost function Trace(env: Environment, n: nat): seq<Effect> {
    if n == 0 then [] else Trace(env, n - 1) + Turn(env, n - 1)
  }

  /** The first deployment the context does not let the pass reach, or all of them. */
  ghost predicate Reached(env: Environment, n: nat) {
    && env.deployments.Some? && n <= env.deployments.value
    && (forall i: nat :: i < n ==> !env.ended(i))
    && (n < env.deployments.value ==> env.ended(n))
  }

  /** The body of the loop for one deployment. */
  method Deployment(env: Environment, i: nat) returns (effects: seq<Effect>, failed: bool)
    ensures effects == Turn(env, i)
    ensures failed <==> !Clean(env, i)
  {
    effects, failed := [], true;
    if !env.demand(i) {
      return;
    }
    var evaluated := env.evaluate(i);
    if evaluated.None? {
      return;
    }
    var decision := evaluated.value;
    effects := effects + [Admit(i, decision, env.admit(i))];
    if !env.admit(i) {
      return;
    }
    if Resizes(decision) {
      effects := effects + [Scale(i, decision.target, env.scale(i))];
      if !env.scale(i) {
        decision := decision.(action := ScaleFailed);
        effects := effects + [Record(i, decision, env.record(i))];
        return;
      }
    }
    effects := effects + [Record(i, decision, env.record(i))];
    failed := !env.record(i);
  }

  /** Once: the effects are exactly those owed for every deployment up to the end of the list
      or of the context, failures before them notwithstanding, and success is reported exactly
      when the whole list was reached and nothing failed. */
  method Once(env: Environment) returns (trace: seq<Effect>, ok: bool, ghost n: nat)
    ensures !env.equipped || env.deployments.None? ==> trace == [] && !ok
    ensures env.equipped && env.deployments.Some? ==> Reached(env, n) && trace == Trace(env, n)
    ensures ok <==> env.equipped && env.deployments.Some? && n == env.deployments.value
                    && forall i: nat :: i < n ==> Clean(env, i)
  {
    trace, ok, n := [], false, 0;
    if !env.equipped || env.deployments.None? {
      return;
    }
    var failures := 0;
    var i := 0;
    while i < env.deployments.value
      invariant 0 <= i <= env.deployments.value && n == i
      invariant forall k: nat :: k < i ==> !env.ended(k)
      invariant trace == Trace(env, i)
      invariant failures == 0 <==> forall k: nat :: k < i ==> Clean(env, k)
    {
      if env.ended(i) {
        return;
      }
      var effects, failed := Deployment(env, i);
      trace := trace + effects;
      if failed {
        assert !Clean(env, i);
        failures := failures + 1;
      }
      i := i + 1;
      n := i;
    }
    ok := failures == 0;
  }

  /** Every change of fleet size directly follows the successful admission of a decision for
      the same deployment with the same target. */
  lemma {:induction false} ScaleFollowsAdmission(env: Environment, n: nat, k: nat)
    requires k < |Trace(env, n)| && Trace(env, n)[k].Scale?
    ensures k > 0
    ensures var before, e := Trace(env, n)[k - 1], Trace(env, n)[k];
            before.Admit? && before.ok && before.i == e.i && before.decision.target == e.target
              && Resizes(before.decision)
  {
    var m := |Trace(env, n - 1)|;
    if k < m {
      ScaleFollowsAdmission(env, n - 1, k);
    } else {
      assert Trace(env, n)[k] == Turn(env, n - 1)[k - m];
      assert Trace(env, n)[k - 1] == Turn(env, n - 1)[k - m - 1];
    }
  }

  ghost predicate Records(e: Effect, i: nat) {
    e.Record? && e.i == i
  }

  /** What is written down about an admitted deployment: a refused change of size as such. */
  ghost function Outcome(env: Environment, i: nat): Decision
    requires Admitted(env, i)
  {
    var d := env.evaluate(i).value;
    if Changes(d) && !env.scale(i) then d.(action := ScaleFailed) else d
  }

  lemma TurnRecords(env: Environment, m: nat, i: nat, k: nat)
    requires k < |Turn(env, m)|
    ensures Records(Turn(env, m)[k], i) <==> i == m && Admitted(env, m) && k == |Turn(env, m)| - 1
    ensures Records(Turn(env, m)[k], i) ==> Turn(env, m)[k] == Record(m, Outcome(env, m), env.record(m))
  {
  }

  /** Each admitted deployment is recorded exactly once, with its outcome, and no other is. */
  lemma {:induction false} RecordedOnce(env: Environment, n: nat, i: nat) returns (at: Option<nat>)
    ensures at.Some? <==> i < n && Admitted(env, i)
    ensures forall k: nat :: k < |Trace(env, n)| ==> (Records(Trace(env, n)[k], i) <==> at == Some(k))
    ensures at.Some? ==> at.value < |Trace(env, n)|
                         && Trace(env, n)[at.value] == Record(i, Outcome(env, i), env.record(i))
  {
    if n == 0 {
      at := None;
    } else {
      at := RecordedOnce(env, n - 1, i);
      var before, turn := Trace(env, n - 1), Turn(env, n - 1);
      if i == n - 1 && Admitted(env, i) {
        at := Some(|before| + |turn| - 1);
      }
      forall k: nat | k < |before + turn|
        ensures Records((before + turn)[k], i) <==> at == Some(k)
        ensures at == Some(k) ==> (before + turn)[k] == Record(i, Outcome(env, i), env.record(i))
      {
        if k >= |before| {
          TurnRecords(env, n - 1, i, k - |before|);
        }
      }
    }
  }

  /** The change of size a deployment asks the fleet for. */
  ghost predicate ScalesFor(e: Effect, i: nat) {
    e.Scale? && e.i == i
  }

  lemma TurnScales(env: Environment, m: nat, i: nat, k: nat)
    requires k < |Turn(env, m)|
    ensures ScalesFor(Turn(env, m)[k], i) <==> i == m && Admitted(env, m) && Changes(env.evaluate(m).value) && k == 1
    ensures ScalesFor(Turn(env, m)[k], i) ==> Turn(env, m)[k] == Scale(m, env.evaluate(m).value.target, env.scale(m))
  {
  }

  /** The fleet is asked exactly once for every admitted decision to scale up or down, with its
      target, and for nothing else. */
  lemma {:induction false} ScaledOnce(env: Environment, n: nat, i: nat) returns (at: Option<nat>)
    ensures at.Some? <==> i < n && Admitted(env, i) && Changes(env.evaluate(i).value)
    ensures forall k: nat :: k < |Trace(env, n)| ==> (ScalesFor(Trace(env, n)[k], i) <==> at == Some(k))
    ensures at.Some? ==> at.value < |Trace(env, n)|
                         && Trace(env, n)[at.value] == Scale(i, env.evaluate(i).value.target, env.scale(i))
  {
    if n == 0 {
      at := None;
    } else {
      at := ScaledOnce(env, n - 1, i);
      var before, turn := Trace(env, n - 1), Turn(env, n - 1);
      if i == n - 1 && Admitted(env, i) && Changes(env.evaluate(i).value) {
        at := Some(|before| + 1);
      }
      forall k: nat | k < |before + turn|
        ensures ScalesFor((before + turn)[k], i) <==> at == Some(k)
        ensures at == Some(k) ==> (before + turn)[k] == Scale(i, env.evaluate(i).value.target, env.scale(i))
      {
        if k >= |before| {
          TurnScales(env, n - 1, i, k - |before|);
        }
      }
    }
  }

  ghost predicate AdmitsFor(e: Effect, i: nat) {
    e.Admit? && e.i == i
  }

  lemma TurnAdmits(env: Environment, m: nat, i: nat, k: nat)
    requires k < |Turn(env, m)|
    ensures AdmitsFor(Turn(env, m)[k], i) <==> i == m && k == 0
    ensures AdmitsFor(Turn(env, m)[k], i) ==> Turn(env, m)[k] == Admit(m, env.evaluate(m).value, env.admit(m))
  {
  }

  /** Admission is asked first, once for every deployment whose demand could be read and decided. */
  lemma {:induction false} AdmittedOnce(env: Environment, n: nat, i: nat) returns (at: Option<nat>)
    ensures at.Some? <==> i < n && env.demand(i) && env.evaluate(i) != None
    ensures forall k: nat :: k < |Trace(env, n)| ==> (AdmitsFor(Trace(env, n)[k], i) <==> at == Some(k))
    ensures at.Some? ==> at.value < |Trace(env, n)|
                         && Trace(env, n)[at.value] == Admit(i, env.evaluate(i).value, env.admit(i))
  {
    if n == 0 {
      at := None;
    } else {
      at := AdmittedOnce(env, n - 1, i);
      var before, turn := Trace(env, n - 1), Turn(env, n - 1);
      if i == n - 1 && Evaluated(env, i) {
        at := Some(|before|);
      }
      forall k: nat | k < |before + turn|
        ensures AdmitsFor((before + turn)[k], i) <==> at == Some(k)
        ensures at == Some(k) ==> (before + turn)[k] == Admit(i, env.evaluate(i).value, env.admit(i))
      {
        if k >= |before| {
          TurnAdmits(env, n - 1, i, k - |before|);
        }
      }
    }
  }
}
