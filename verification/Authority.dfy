/** Incarnation-scoped authority of include/collectivefabric/authority.hpp, and what its verdicts
    mean over whole runs of the coordinator. */
module Authority {
  import opened Bytes
  import opened Foundation

  datatype Truth = Truth(epoch: u64, liveBoot: u64, group: u64, collective: u64, attempt: u64, dispatch: u64)

  datatype Claim = Claim(boot: u64, epoch: u64, group: u64, collective: u64, attempt: u64, dispatch: u64,
                         isCompletion: bool)

  datatype Verdict = Current | Stale | Fresh | DuplicateClaim | UnknownClaim | InvalidClaim

  /** evaluate_authority */
  function Evaluate(t: Truth, c: Claim): Verdict {
    if t.liveBoot != 0 && c.boot != t.liveBoot then Stale
    else if t.liveBoot == 0 && c.boot == 0 then InvalidClaim
    else if c.epoch != t.epoch then (if c.epoch < t.epoch then Stale else UnknownClaim)
    else if c.group < t.group then Stale
    else if c.collective < t.collective then Stale
    else if c.attempt < t.attempt then Stale
    else if c.dispatch < t.dispatch then Stale
    else if c.group == t.group && c.collective == t.collective && c.attempt == t.attempt && c.dispatch == t.dispatch
    then (if c.isCompletion then DuplicateClaim else Current)
    else Fresh
  }

  /** A claim the coordinator may still act on. */
  predicate Live(v: Verdict) { v == Current || v == Fresh || v == DuplicateClaim }

  /** Every verdict.  A claim is live exactly when it comes from the live incarnation (or, with none
      live, from any known one), names the current epoch, and lags behind in no generation; it is
      unknown exactly when it comes from there but names a later epoch, and invalid exactly when
      neither side knows an incarnation. */
  lemma LiveExactly(t: Truth, c: Claim)
    ensures Live(Evaluate(t, c)) <==>
            && (if t.liveBoot == 0 then c.boot != 0 else c.boot == t.liveBoot)
            && c.epoch == t.epoch && c.group >= t.group && c.collective >= t.collective
            && c.attempt >= t.attempt && c.dispatch >= t.dispatch
    ensures Evaluate(t, c) == Fresh || Evaluate(t, c) == Current || Evaluate(t, c) == DuplicateClaim ==>
              (Evaluate(t, c) != Fresh <==>
                 (c.group, c.collective, c.attempt, c.dispatch) == (t.group, t.collective, t.attempt, t.dispatch))
              && (Evaluate(t, c) == DuplicateClaim ==> c.isCompletion) && (Evaluate(t, c) == Current ==> !c.isCompletion)
    ensures Evaluate(t, c) == Stale <==>
            || (t.liveBoot != 0 && c.boot != t.liveBoot)
            || (c.boot != 0 && c.epoch < t.epoch)
            || (c.boot != 0 && c.epoch == t.epoch
                && (c.group < t.group || c.collective < t.collective || c.attempt < t.attempt || c.dispatch < t.dispatch))
    ensures Evaluate(t, c) == UnknownClaim <==>
            (if t.liveBoot == 0 then c.boot != 0 else c.boot == t.liveBoot) && c.epoch > t.epoch
    ensures Evaluate(t, c) == InvalidClaim <==> t.liveBoot == 0 && c.boot == 0
  {
  }

  /** The ground truth only moves forward and the incarnation stays alive. */
  predicate Advances(t: Truth, u: Truth) {
    && u.liveBoot == t.liveBoot && u.epoch >= t.epoch
    && u.group >= t.group && u.collective >= t.collective
    && u.attempt >= t.attempt && u.dispatch >= t.dispatch
  }

  ghost predicate IsRun(ts: seq<Truth>) {
    forall i :: 0 <= i < |ts| - 1 ==> Advances(ts[i], ts[i + 1])
  }

  lemma {:induction false} RunAdvances(ts: seq<Truth>, i: nat, j: nat)
    requires IsRun(ts) && i <= j < |ts|
    ensures Advances(ts[i], ts[j])
    decreases j
  {
    if i < j {
      RunAdvances(ts, i, j - 1);
    }
  }

  /** Once stale, always stale, however the coordinator moves on under the same incarnation. */
  lemma StaleForever(ts: seq<Truth>, c: Claim, i: nat, j: nat)
    requires IsRun(ts) && i <= j < |ts|
    requires Evaluate(ts[i], c) == Stale
    ensures Evaluate(ts[j], c) == Stale
  {
    hide Evaluate;
    LiveExactly(ts[i], c);
    LiveExactly(ts[j], c);
    RunAdvances(ts, i, j);
  }

  /** A claim that has stopped being live never becomes live again, unless it was ahead of the epoch. */
  lemma LiveIsAnInterval(ts: seq<Truth>, c: Claim, i: nat, j: nat, k: nat)
    requires IsRun(ts) && i <= j <= k < |ts|
    requires Live(Evaluate(ts[i], c)) && Live(Evaluate(ts[k], c))
    ensures Live(Evaluate(ts[j], c))
  {
    hide Evaluate;
    LiveExactly(ts[i], c);
    LiveExactly(ts[j], c);
    LiveExactly(ts[k], c);
    RunAdvances(ts, i, j);
    RunAdvances(ts, j, k);
  }

  /** Runtime::advance_epoch */
  function AdvanceEpoch(t: Truth): Truth { t.(epoch := NextGeneration(t.epoch)) }

  /** Advancing the epoch fences every claim of the old epoch, for good, exactly when the epoch
      counter is not already saturated. */
  lemma AdvanceFences(t: Truth)
    ensures t.epoch < U64_LIMIT - 1 <==>
            forall u: Truth, c: Claim :: u.epoch >= AdvanceEpoch(t).epoch && c.epoch <= t.epoch ==> !Live(Evaluate(u, c))
  {
    hide Evaluate;
    if t.epoch == U64_LIMIT - 1 {
      var c := Claim(if t.liveBoot == 0 then 1 else t.liveBoot, t.epoch, t.group, t.collective, t.attempt, t.dispatch, false);
      LiveExactly(AdvanceEpoch(t), c);
    } else {
      forall u: Truth, c: Claim | u.epoch >= AdvanceEpoch(t).epoch && c.epoch <= t.epoch
        ensures !Live(Evaluate(u, c))
      {
        LiveExactly(u, c);
      }
    }
  }

  /** Any number of advances from one truth fences all epochs before the last. */
  function AdvanceTimes(t: Truth, n: nat): Truth {
    if n == 0 then t else AdvanceEpoch(AdvanceTimes(t, n - 1))
  }

  lemma {:induction false} AdvanceCounts(t: Truth, n: nat)
    ensures AdvanceTimes(t, n) == t.(epoch := if t.epoch + n < U64_LIMIT then t.epoch + n else U64_LIMIT - 1)
  {
    if n > 0 {
      AdvanceCounts(t, n - 1);
    }
  }
}
