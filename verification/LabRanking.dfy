/** The order in which qualified experiments are ranked, and why the winner does not
    depend on how they are sorted. */
module LabRanking {
  import opened Wrappers
  import opened Text
  import opened LabEvidence

  predicate Ranked(x: Experiment) {
    x.verdict == Qualified && x.qualification.Some?
  }

  /** The comparator given to the sort. */
  predicate Better(a: Experiment, b: Experiment)
    requires Ranked(a) && Ranked(b)
  {
    var left, right := a.qualification.value, b.qualification.value;
    if left.endToEndSpeedup != right.endToEndSpeedup then left.endToEndSpeedup > right.endToEndSpeedup
    else if left.costRegression != right.costRegression then left.costRegression < right.costRegression
    else Before(a.candidate.id, b.candidate.id)
  }

  /** Every qualified experiment carries its evidence. */
  ghost predicate Documented(xs: seq<Experiment>) {
    forall i :: 0 <= i < |xs| && xs[i].verdict == Qualified ==> Ranked(xs[i])
  }

  /** `x` is at least as fast end to end as `y`; at the same speed it regresses cost no more;
      and at the same cost as well its candidate's ID does not come later. */
  ghost predicate NoWorse(x: Experiment, y: Experiment)
    requires Ranked(x) && Ranked(y)
  {
    var mine, other := x.qualification.value, y.qualification.value;
    && mine.endToEndSpeedup >= other.endToEndSpeedup
    && (mine.endToEndSpeedup == other.endToEndSpeedup ==>
          && mine.costRegression <= other.costRegression
          && (mine.costRegression == other.costRegression ==> !Precedes(y.candidate.id, x.candidate.id)))
  }

  lemma NoWorseIff(x: Experiment, y: Experiment)
    requires Ranked(x) && Ranked(y)
    ensures NoWorse(x, y) <==> !Better(y, x)
  {
    BeforeIff(y.candidate.id, x.candidate.id);
  }

  ghost predicate Unbeaten(xs: seq<Experiment>, x: Experiment)
    requires Documented(xs)
  {
    Ranked(x) && forall i :: 0 <= i < |xs| && xs[i].verdict == Qualified ==> NoWorse(x, xs[i])
  }

  /** `id` names a qualified experiment that is no worse than any qualified one. */
  ghost predicate IsWinner(xs: seq<Experiment>, id: string)
    requires Documented(xs)
  {
    exists i :: 0 <= i < |xs| && xs[i].candidate.id == id && Unbeaten(xs, xs[i])
  }

  /** The comparator is a strict order whose ties are the experiments of one candidate. */
  lemma BetterIsStrictOrder(a: Experiment, b: Experiment, c: Experiment)
    requires Ranked(a) && Ranked(b) && Ranked(c)
    ensures !Better(a, a)
    ensures !(Better(a, b) && Better(b, a))
    ensures Better(a, b) && Better(b, c) ==> Better(a, c)
    ensures !Better(a, b) && !Better(b, a) ==> a.candidate.id == b.candidate.id
  {
    BeforeTotal(a.candidate.id, b.candidate.id);
    BeforeTotal(a.candidate.id, a.candidate.id);
    if Before(a.candidate.id, b.candidate.id) && Before(b.candidate.id, c.candidate.id) {
      BeforeTransitive(a.candidate.id, b.candidate.id, c.candidate.id);
    }
  }

  /** Two lists with the same qualified experiments, in any order and with any others around
      them, have the same winner. */
  lemma WinnerUnique(xs: seq<Experiment>, ys: seq<Experiment>, a: string, b: string)
    requires Documented(xs) && Documented(ys)
    requires forall x: Experiment :: x.verdict == Qualified ==> (x in xs <==> x in ys)
    requires IsWinner(xs, a) && IsWinner(ys, b)
    ensures a == b
  {
    var i :| 0 <= i < |xs| && xs[i].candidate.id == a && Unbeaten(xs, xs[i]);
    var k :| 0 <= k < |ys| && ys[k].candidate.id == b && Unbeaten(ys, ys[k]);
    assert xs[i] in ys && ys[k] in xs;
    NoWorseIff(xs[i], ys[k]);
    NoWorseIff(ys[k], xs[i]);
    BetterIsStrictOrder(xs[i], ys[k], xs[i]);
  }

  /** Whatever algorithm sorts the qualified experiments, stable or not, the head of the
      sorted list names the winner. */
  lemma HeadOfAnySort(xs: seq<Experiment>, sorted: seq<Experiment>)
    requires Documented(xs) && |sorted| > 0
    requires forall x: Experiment :: x in sorted <==> x in xs && x.verdict == Qualified
    requires forall i, k :: 0 <= i < k < |sorted| ==>
             Ranked(sorted[i]) && Ranked(sorted[k]) && !Better(sorted[k], sorted[i])
    ensures IsWinner(xs, sorted[0].candidate.id)
  {
    assert sorted[0] in sorted;
    var i :| 0 <= i < |xs| && xs[i] == sorted[0];
    forall k | 0 <= k < |xs| && xs[k].verdict == Qualified ensures NoWorse(xs[i], xs[k]) {
      assert xs[k] in sorted;
      var m :| 0 <= m < |sorted| && sorted[m] == xs[k];
      BetterIsStrictOrder(xs[i], xs[i], xs[i]);
      NoWorseIff(xs[i], xs[k]);
    }
    assert Unbeaten(xs, xs[i]);
  }

  /** Picks the head a sort would put first; None when nothing qualified. */
  method Winner(xs: seq<Experiment>) returns (winner: Option<string>)
    requires Documented(xs)
    ensures winner == None <==> forall i :: 0 <= i < |xs| ==> xs[i].verdict != Qualified
    ensures winner.Some? ==> IsWinner(xs, winner.value)
  {
    var best: Option<nat> := None;
    var i := 0;
    while i < |xs|
      invariant 0 <= i <= |xs|
      invariant best == None ==> forall k :: 0 <= k < i ==> xs[k].verdict != Qualified
      invariant best.Some? ==> best.value < i && Ranked(xs[best.value])
      invariant best.Some? ==> forall k :: 0 <= k < i && xs[k].verdict == Qualified ==> !Better(xs[k], xs[best.value])
    {
      if xs[i].verdict == Qualified {
        if best == None || Better(xs[i], xs[best.value]) {
          forall k | 0 <= k < i && xs[k].verdict == Qualified ensures !Better(xs[k], xs[i]) {
            if best.Some? {
              BetterIsStrictOrder(xs[k], xs[i], xs[best.value]);
            }
          }
          BetterIsStrictOrder(xs[i], xs[i], xs[i]);
          best := Some(i);
        }
      }
      i := i + 1;
    }
    if best.Some? {
      forall k | 0 <= k < |xs| && xs[k].verdict == Qualified ensures NoWorse(xs[best.value], xs[k]) {
        NoWorseIff(xs[best.value], xs[k]);
      }
      assert Unbeaten(xs, xs[best.value]);
      winner := Some(xs[best.value].candidate.id);
    } else {
      winner := None;
    }
  }
}
