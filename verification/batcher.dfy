/** Batch construction for the grouped upload paths: a file list is cut into
    consecutive slices of `BatchSize` (`range(0, n, 10)`), and each slice is
    then screened item by item, so a slice is never refilled after a skip. */
module Batcher {
  import opened Classifier

  const MaxFileSize: nat := 50 * 1024 * 1024
  const BatchSize: nat := 10

  /** Why a file is or is not sent. */
  datatype Verdict = Accept | TooLarge | Unreadable

  /** The two checks before a file is sent, the size check first. */
  function Screen(it: Item): Verdict
  {
    if it.size > MaxFileSize then TooLarge
    else if !it.readable then Unreadable
    else Accept
  }

  /** Only small, readable files are sent; a file that is both too large and
      unreadable is reported as too large, because size is checked first. */
  lemma ScreenOrder(it: Item)
    ensures Screen(it) == Accept <==> it.size <= MaxFileSize && it.readable
    ensures it.size > MaxFileSize ==> Screen(it) == TooLarge
    ensures Screen(it) == Unreadable <==> it.size <= MaxFileSize && !it.readable
  {
  }

  function Min(a: int, b: int): int
  {
    if a <= b then a else b
  }

  /** `[xs[i:i + 10] for i in range(0, len(xs), 10)]`. */
  function Slices<T>(xs: seq<T>): (r: seq<seq<T>>)
    ensures |r| == (|xs| + BatchSize - 1) / BatchSize
  {
    var n := (|xs| + BatchSize - 1) / BatchSize;
    seq(n, j requires 0 <= j < n => xs[BatchSize * j .. Min(BatchSize * j + BatchSize, |xs|)])
  }

  function Flatten<T>(ss: seq<seq<T>>): seq<T>
  {
    if ss == [] then [] else ss[0] + Flatten(ss[1..])
  }

  lemma SlicesStep<T>(xs: seq<T>)
    requires |xs| > BatchSize
    ensures Slices(xs) == [xs[..BatchSize]] + Slices(xs[BatchSize..])
  {
    var a := Slices(xs);
    var b := [xs[..BatchSize]] + Slices(xs[BatchSize..]);
    assert |a| == |b|;
    forall j | 0 <= j < |a| ensures a[j] == b[j] {
      if j > 0 {
        var ys := xs[BatchSize..];
        var lo := BatchSize * (j - 1);
        var hi := Min(lo + BatchSize, |ys|);
        assert b[j] == ys[lo..hi];
        assert lo + BatchSize == BatchSize * j;
        assert hi + BatchSize == Min(BatchSize * j + BatchSize, |xs|);
        assert ys[lo..hi] == xs[lo + BatchSize .. hi + BatchSize];
      }
    }
  }

  /** The slices cover the list exactly: they concatenate back to it, each
      holds between one and ten items, and only the last may be short. */
  lemma {:induction false} SlicesPartition<T>(xs: seq<T>)
    ensures Flatten(Slices(xs)) == xs
    ensures forall j :: 0 <= j < |Slices(xs)| ==> 1 <= |Slices(xs)[j]| <= BatchSize
    ensures forall j :: 0 <= j < |Slices(xs)| - 1 ==> |Slices(xs)[j]| == BatchSize
    decreases |xs|
  {
    var r := Slices(xs);
    if xs == [] {
    } else if |xs| <= BatchSize {
      assert |r| == 1 && r[0] == xs[0..|xs|] == xs;
      assert r == [xs];
      assert Flatten(r) == xs + Flatten([]);
    } else {
      SlicesStep(xs);
      SlicesPartition(xs[BatchSize..]);
      assert r[1..] == Slices(xs[BatchSize..]);
      assert xs == xs[..BatchSize] + xs[BatchSize..];
    }
  }

  /** The items of a slice that pass the screen, in slice order. */
  function Accepted(batch: seq<Item>): (r: seq<Item>)
    ensures |r| <= |batch|
    ensures forall j :: 0 <= j < |r| ==> Screen(r[j]) == Accept
    ensures forall x :: x in r <==> x in batch && Screen(x) == Accept
  {
    if batch == [] then []
    else (if Screen(batch[0]) == Accept then [batch[0]] else []) + Accepted(batch[1..])
  }

  /** How many items of a list are skipped. */
  function RejectedCount(batch: seq<Item>): (n: nat)
  {
    if batch == [] then 0
    else (if Screen(batch[0]) == Accept then 0 else 1) + RejectedCount(batch[1..])
  }

  lemma {:induction false} AcceptedPlusRejected(batch: seq<Item>)
    ensures |Accepted(batch)| + RejectedCount(batch) == |batch|
    decreases |batch|
  {
    if batch != [] {
      AcceptedPlusRejected(batch[1..]);
    }
  }

  lemma {:induction false} AcceptedAppend(a: seq<Item>, b: seq<Item>)
    ensures Accepted(a + b) == Accepted(a) + Accepted(b)
    ensures RejectedCount(a + b) == RejectedCount(a) + RejectedCount(b)
    decreases |a|
  {
    if a == [] {
      assert a + b == b;
    } else {
      assert (a + b)[1..] == a[1..] + b;
      AcceptedAppend(a[1..], b);
    }
  }

  /** The total number of skips over a list of slices. */
  function RejectedInSlices(ss: seq<seq<Item>>): nat
  {
    if ss == [] then 0 else RejectedCount(ss[0]) + RejectedInSlices(ss[1..])
  }

  lemma {:induction false} RejectedInFlatten(ss: seq<seq<Item>>)
    ensures RejectedInSlices(ss) == RejectedCount(Flatten(ss))
    decreases |ss|
  {
    if ss != [] {
      RejectedInFlatten(ss[1..]);
      AcceptedAppend(ss[0], Flatten(ss[1..]));
    }
  }

  /** The groups that are actually sent: each slice's accepted items, with
      empty results dropped. */
  function Groups(ss: seq<seq<Item>>): (r: seq<seq<Item>>)
  {
    if ss == [] then []
    else if Accepted(ss[0]) == [] then Groups(ss[1..])
    else [Accepted(ss[0])] + Groups(ss[1..])
  }

  /** Every group sent for a list holds between one and ten items, each one
      within the size limit and readable; there are at most as many groups
      as slices; and the groups are the list's sendable items, in order. */
  lemma GroupsBounded(xs: seq<Item>)
    ensures var g := Groups(Slices(xs));
            && |g| <= (|xs| + BatchSize - 1) / BatchSize
            && (forall j :: 0 <= j < |g| ==> 1 <= |g[j]| <= BatchSize)
            && (forall j, k :: 0 <= j < |g| && 0 <= k < |g[j]| ==>
                  g[j][k].size <= MaxFileSize && g[j][k].readable)
            && Flatten(g) == Accepted(xs)
  {
    SlicesPartition(xs);
    GroupsOfBoundedSlices(Slices(xs));
  }

  lemma GroupsOfBoundedSlices(ss: seq<seq<Item>>)
    requires forall j :: 0 <= j < |ss| ==> |ss[j]| <= BatchSize
    ensures var g := Groups(ss);
            && |g| <= |ss|
            && (forall j :: 0 <= j < |g| ==> 1 <= |g[j]| <= BatchSize)
            && (forall j, k :: 0 <= j < |g| && 0 <= k < |g[j]| ==>
                  g[j][k].size <= MaxFileSize && g[j][k].readable)
            && Flatten(g) == Accepted(Flatten(ss))
  {
    GroupsSizes(ss);
    GroupsSendable(ss);
    GroupsFlatten(ss);
    var g: seq<seq<Item>> := Groups(ss);
    forall j, k | 0 <= j < |g| && 0 <= k < |g[j]|
      ensures g[j][k].size <= MaxFileSize && g[j][k].readable
    {
      ScreenOrder(g[j][k]);
    }
  }

  /** No more groups than slices, and each group holds one to ten items. */
  lemma {:induction false} GroupsSizes(ss: seq<seq<Item>>)
    requires forall j :: 0 <= j < |ss| ==> |ss[j]| <= BatchSize
    ensures |Groups(ss)| <= |ss|
    ensures forall j :: 0 <= j < |Groups(ss)| ==> 1 <= |Groups(ss)[j]| <= BatchSize
    decreases |ss|
  {
    if ss != [] {
      GroupsSizes(ss[1..]);
      var g := Groups(ss);
      var rest := Groups(ss[1..]);
      if Accepted(ss[0]) != [] {
        assert g == [Accepted(ss[0])] + rest;
        forall j | 0 <= j < |g| ensures 1 <= |g[j]| <= BatchSize {
          if j > 0 {
            assert g[j] == rest[j - 1];
          }
        }
      }
    }
  }

  /** Every item of every group passes the screen. */
  lemma {:induction false} GroupsSendable(ss: seq<seq<Item>>)
    ensures forall j, k :: 0 <= j < |Groups(ss)| && 0 <= k < |Groups(ss)[j]| ==> Screen(Groups(ss)[j][k]) == Accept
    decreases |ss|
  {
    if ss != [] {
      GroupsSendable(ss[1..]);
      var g := Groups(ss);
      var rest := Groups(ss[1..]);
      if Accepted(ss[0]) != [] {
        assert g == [Accepted(ss[0])] + rest;
        forall j, k | 0 <= j < |g| && 0 <= k < |g[j]|
          ensures Screen(g[j][k]) == Accept
        {
          if j > 0 {
            assert g[j] == rest[j - 1];
          }
        }
      }
    }
  }

  /** The groups concatenate to the accepted items of the slices. */
  lemma {:induction false} GroupsFlatten(ss: seq<seq<Item>>)
    ensures Flatten(Groups(ss)) == Accepted(Flatten(ss))
    decreases |ss|
  {
    if ss != [] {
      GroupsFlatten(ss[1..]);
      AcceptedAppend(ss[0], Flatten(ss[1..]));
      var rest := Groups(ss[1..]);
      if Accepted(ss[0]) != [] {
        var g := [Accepted(ss[0])] + rest;
        assert g[1..] == rest;
      }
    }
  }
}
