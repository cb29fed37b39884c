/** The run-wide upload statistics: four counters that are reset at the
    start of each run and bumped once per item or batch outcome. */
module Stats {

  /** The counter an outcome increments besides `total`. */
  datatype Action = Success | Failed | Skipped

  datatype UploadStats = UploadStats(total: nat, success: nat, failed: nat, skipped: nat)

  /** Every update bumps `total` together with exactly one of the others. */
  predicate Balanced(s: UploadStats)
  {
    s.total == s.success + s.failed + s.skipped
  }

  /** The counters at the start of a run: nothing counted, so every counter
      is zero and the balance holds. */
  function Reset(): (s: UploadStats)
    ensures s.total == s.success + s.failed + s.skipped
    ensures s.total == 0
  {
    UploadStats(0, 0, 0, 0)
  }

  /** Record one outcome: the named counter and `total` grow by one and
      nothing else changes. */
  function Update(s: UploadStats, a: Action): (r: UploadStats)
    ensures r.total == s.total + 1
    ensures r.success == s.success + (if a == Success then 1 else 0)
    ensures r.failed == s.failed + (if a == Failed then 1 else 0)
    ensures r.skipped == s.skipped + (if a == Skipped then 1 else 0)
  {
    match a
    case Success => s.(success := s.success + 1, total := s.total + 1)
    case Failed => s.(failed := s.failed + 1, total := s.total + 1)
    case Skipped => s.(skipped := s.skipped + 1, total := s.total + 1)
  }

  lemma UpdatePreservesBalance(s: UploadStats, a: Action)
    requires Balanced(s)
    ensures Balanced(Update(s, a))
  {
  }

  /** Apply a sequence of updates in order. */
  function ApplyAll(s: UploadStats, actions: seq<Action>): UploadStats
    decreases |actions|
  {
    if actions == [] then s
    else ApplyAll(Update(s, actions[0]), actions[1..])
  }

  /** How many of `actions` equal `a`. */
  function Count(actions: seq<Action>, a: Action): nat
  {
    if actions == [] then 0
    else (if actions[0] == a then 1 else 0) + Count(actions[1..], a)
  }

  lemma {:induction false} CountAppend(xs: seq<Action>, ys: seq<Action>, a: Action)
    ensures Count(xs + ys, a) == Count(xs, a) + Count(ys, a)
    decreases |xs|
  {
    if xs == [] {
      assert xs + ys == ys;
    } else {
      assert (xs + ys)[1..] == xs[1..] + ys;
      CountAppend(xs[1..], ys, a);
    }
  }

  /** Each counter grows by the number of updates naming it, `total` by the
      number of updates, whatever the starting values. */
  lemma {:induction false} ApplyAllCounts(s: UploadStats, actions: seq<Action>)
    ensures ApplyAll(s, actions) == UploadStats(s.total + |actions|,
                                          s.success + Count(actions, Success),
                                          s.failed + Count(actions, Failed),
                                          s.skipped + Count(actions, Skipped))
    decreases |actions|
  {
    if actions != [] {
      ApplyAllCounts(Update(s, actions[0]), actions[1..]);
    }
  }

  lemma {:induction false} ApplyAllPreservesBalance(s: UploadStats, actions: seq<Action>)
    requires Balanced(s)
    ensures Balanced(ApplyAll(s, actions))
    decreases |actions|
  {
    if actions != [] {
      UpdatePreservesBalance(s, actions[0]);
      ApplyAllPreservesBalance(Update(s, actions[0]), actions[1..]);
    }
  }

  /** After a reset, any sequence of updates leaves the counters balanced. */
  lemma ResetThenBalanced(actions: seq<Action>)
    ensures Balanced(ApplyAll(Reset(), actions))
  {
    ApplyAllPreservesBalance(Reset(), actions);
  }

  lemma {:induction false} CountPartition(actions: seq<Action>)
    ensures Count(actions, Success) + Count(actions, Failed) + Count(actions, Skipped) == |actions|
    decreases |actions|
  {
    if actions != [] {
      CountPartition(actions[1..]);
    }
  }

  /** Applying two runs of updates one after the other is applying their
      concatenation. */
  lemma {:induction false} ApplyAllAppend(s: UploadStats, xs: seq<Action>, ys: seq<Action>)
    ensures ApplyAll(s, xs + ys) == ApplyAll(ApplyAll(s, xs), ys)
    decreases |xs|
  {
    if xs != [] {
      assert (xs + ys)[1..] == xs[1..] + ys;
      ApplyAllAppend(Update(s, xs[0]), xs[1..], ys);
    } else {
      assert xs + ys == ys;
    }
  }
}
