/**
 * The best-so-far selection the gateways and the task agent share: walk the
 * candidates in order, take the first one that takes part, and replace the
 * current best only by a later one whose value is strictly smaller.
 * A candidate that does not take part (an employee without the skill, a
 * poll item of another order, an offer without a valuation) is None.
 */
module Selection {
  import opened Wrappers

  /** The index such a walk ends with: None when no candidate takes part. */
  function FirstMinOf(vs: seq<Option<real>>): (k: Option<nat>)
    ensures k.None? <==> forall m :: 0 <= m < |vs| ==> vs[m].None?
    ensures k.Some? ==>
              k.value < |vs| && vs[k.value].Some? &&
              (forall m :: 0 <= m < |vs| && vs[m].Some? ==> vs[k.value].value <= vs[m].value) &&
              (forall m :: 0 <= m < k.value && vs[m].Some? ==> vs[k.value].value < vs[m].value)
    decreases |vs|
  {
    if vs == [] then None
    else
      var n := |vs| - 1;
      var b := FirstMinOf(vs[..n]);
      if vs[n].None? then b
      else
        match b
        case None => Some(n)
        case Some(j) => if vs[j].value > vs[n].value then Some(n) else b
  }

  /** One step of the walk: the best of vs[..n + 1] from the best of vs[..n]. */
  lemma FirstMinOfStep(vs: seq<Option<real>>, n: nat)
    requires n < |vs|
    ensures FirstMinOf(vs[..n + 1]) ==
              if vs[n].None? then FirstMinOf(vs[..n])
              else
                match FirstMinOf(vs[..n])
                case None => Some(n)
                case Some(j) => if vs[j].value > vs[n].value then Some(n) else Some(j)
  {
    assert vs[..n + 1][..n] == vs[..n];
  }

  /** The same step, for a walk that keeps the values it has seen. */
  lemma FirstMinOfSnoc(vs: seq<Option<real>>, v: Option<real>)
    ensures FirstMinOf(vs + [v]) ==
              if v.None? then FirstMinOf(vs)
              else
                match FirstMinOf(vs)
                case None => Some(|vs|)
                case Some(j) => if vs[j].value > v.value then Some(|vs|) else Some(j)
  {
    assert (vs + [v])[..|vs|] == vs;
  }
}
