/** `sorted(subfolder_map.items())`: the folder map visited in ascending key
    order, where keys compare as Python compares strings, code point by code
    point, a proper prefix coming first. Keys are distinct, so the bucket
    values are never compared. */
module Sorting {
  import opened Classifier

  predicate StrLt(a: string, b: string)
    decreases |a|
  {
    if a == [] then b != []
    else if b == [] then false
    else if a[0] < b[0] then true
    else a[0] == b[0] && StrLt(a[1..], b[1..])
  }

  predicate StrLe(a: string, b: string)
  {
    a == b || StrLt(a, b)
  }

  lemma {:induction false} StrLtIrreflexive(a: string)
    ensures !StrLt(a, a)
    decreases |a|
  {
    if a != [] {
      StrLtIrreflexive(a[1..]);
    }
  }

  lemma {:induction false} StrLtTransitive(a: string, b: string, c: string)
    requires StrLt(a, b) && StrLt(b, c)
    ensures StrLt(a, c)
    decreases |a|
  {
    if a != [] && b != [] && c != [] && a[0] == b[0] == c[0] {
      StrLtTransitive(a[1..], b[1..], c[1..]);
    }
  }

  lemma {:induction false} StrLtTotal(a: string, b: string)
    ensures a == b || StrLt(a, b) || StrLt(b, a)
    decreases |a|
  {
    if a != [] && b != [] && a[0] == b[0] {
      StrLtTotal(a[1..], b[1..]);
      if a[1..] == b[1..] {
        assert a == [a[0]] + a[1..] && b == [b[0]] + b[1..];
      }
    }
  }

  lemma StrLtAsymmetric(a: string, b: string)
    requires StrLt(a, b)
    ensures !StrLt(b, a)
  {
    if StrLt(b, a) {
      StrLtTransitive(a, b, a);
      StrLtIrreflexive(a);
    }
  }

  lemma StrLeTransitive(a: string, b: string, c: string)
    requires StrLe(a, b) && StrLe(b, c)
    ensures StrLe(a, c)
  {
    if a != b && b != c {
      StrLtTransitive(a, b, c);
    }
  }

  predicate SortedByKey(s: Plan)
  {
    forall i, j :: 0 <= i < j < |s| ==> StrLe(s[i].key, s[j].key)
  }

  /** Keys strictly ascending. */
  predicate StrictlyAscending(keys: seq<string>)
  {
    forall i, j :: 0 <= i < j < |keys| ==> StrLt(keys[i], keys[j])
  }

  /** Insert a folder in front of the first folder whose key is not smaller. */
  function Insert(f: Folder, s: Plan): (r: Plan)
    ensures |r| == |s| + 1
    ensures multiset(r) == multiset(s) + multiset{f}
  {
    if s == [] || StrLe(f.key, s[0].key) then [f] + s
    else
      assert s == [s[0]] + s[1..];
      [s[0]] + Insert(f, s[1..])
  }

  lemma InsertKeySet(f: Folder, s: Plan)
    ensures KeySet(Insert(f, s)) == KeySet(s) + {f.key}
  {
    var r := Insert(f, s);
    forall x ensures x in r <==> x == f || x in s {
      assert x in r <==> x in multiset(r);
      assert x in s <==> x in multiset(s);
    }
  }

  lemma {:induction false} InsertSorted(f: Folder, s: Plan)
    requires SortedByKey(s)
    ensures SortedByKey(Insert(f, s))
    decreases |s|
  {
    var r := Insert(f, s);
    if s == [] || StrLe(f.key, s[0].key) {
      forall i, j | 0 <= i < j < |r| ensures StrLe(r[i].key, r[j].key) {
        if i == 0 && j > 1 {
          StrLeTransitive(f.key, s[0].key, s[j - 1].key);
        }
      }
    } else {
      InsertSorted(f, s[1..]);
      var t := Insert(f, s[1..]);
      StrLtTotal(f.key, s[0].key);
      forall i, j | 0 <= i < j < |r| ensures StrLe(r[i].key, r[j].key) {
        if i == 0 {
          assert r[j] in t;
          var m :| 0 <= m < |t| && t[m] == r[j];
          assert t[m] in multiset(s[1..]) + multiset{f};
          if t[m] != f {
            var q :| 0 <= q < |s[1..]| && s[1..][q] == t[m];
            assert s[q + 1] == t[m];
          }
        } else {
          assert r[i] == t[i - 1] && r[j] == t[j - 1];
        }
      }
    }
  }

  /** Insertion sort by key. */
  function SortByKey(plan: Plan): (r: Plan)
    ensures |r| == |plan|
    ensures multiset(r) == multiset(plan)
    ensures KeySet(r) == KeySet(plan)
    decreases |plan|
  {
    if plan == [] then []
    else
      assert plan == [plan[0]] + plan[1..];
      assert KeySet(plan) == KeySet(plan[1..]) + {plan[0].key} by {
        assert forall x :: x in plan <==> x == plan[0] || x in plan[1..];
      }
      InsertKeySet(plan[0], SortByKey(plan[1..]));
      Insert(plan[0], SortByKey(plan[1..]))
  }

  /** The visiting order is ascending and a rearrangement of the map. */
  lemma {:induction false} SortByKeySorted(plan: Plan)
    ensures SortedByKey(SortByKey(plan))
    decreases |plan|
  {
    if plan != [] {
      SortByKeySorted(plan[1..]);
      InsertSorted(plan[0], SortByKey(plan[1..]));
    }
  }

  lemma {:induction false} SumInsert(f: Folder, s: Plan, g: Folder -> nat)
    ensures Sum(Insert(f, s), g) == g(f) + Sum(s, g)
    decreases |s|
  {
    if s == [] || StrLe(f.key, s[0].key) {
      SumAppend([f], s, g);
      assert Sum([f], g) == Sum([], g) + g(f);
    } else {
      SumInsert(f, s[1..], g);
      SumAppend([s[0]], Insert(f, s[1..]), g);
      SumAppend([s[0]], s[1..], g);
      assert [s[0]][..0] == [];
      assert s == [s[0]] + s[1..];
    }
  }

  /** Sorting does not change any per-folder total. */
  lemma {:induction false} SortPreservesSum(plan: Plan, g: Folder -> nat)
    ensures Sum(SortByKey(plan), g) == Sum(plan, g)
    decreases |plan|
  {
    if plan != [] {
      SortPreservesSum(plan[1..], g);
      SumInsert(plan[0], SortByKey(plan[1..]), g);
      SumAppend([plan[0]], plan[1..], g);
      assert [plan[0]][..0] == [];
      assert plan == [plan[0]] + plan[1..];
    }
  }

  /** No folder of `s` has key `k`. */
  predicate KeyAbsent(k: string, s: Plan)
  {
    forall i :: 0 <= i < |s| ==> s[i].key != k
  }

  lemma {:induction false} InsertKeyAbsent(k: string, f: Folder, s: Plan)
    requires k != f.key && KeyAbsent(k, s)
    ensures KeyAbsent(k, Insert(f, s))
    decreases |s|
  {
    if !(s == [] || StrLe(f.key, s[0].key)) {
      InsertKeyAbsent(k, f, s[1..]);
    }
  }

  lemma {:induction false} InsertKeepsDistinct(f: Folder, s: Plan)
    requires KeysDistinct(s) && KeyAbsent(f.key, s)
    ensures KeysDistinct(Insert(f, s))
    decreases |s|
  {
    var r := Insert(f, s);
    if s == [] || StrLe(f.key, s[0].key) {
      assert r == [f] + s;
    } else {
      var t := Insert(f, s[1..]);
      assert KeysDistinct(s[1..]);
      InsertKeepsDistinct(f, s[1..]);
      InsertKeyAbsent(s[0].key, f, s[1..]);
      assert r == [s[0]] + t;
    }
  }

  lemma {:induction false} SortKeepsDistinct(plan: Plan)
    requires KeysDistinct(plan)
    ensures KeysDistinct(SortByKey(plan))
    decreases |plan|
  {
    if plan != [] {
      assert KeysDistinct(plan[1..]);
      SortKeepsDistinct(plan[1..]);
      SortKeyAbsent(plan[0].key, plan[1..]);
      InsertKeepsDistinct(plan[0], SortByKey(plan[1..]));
    }
  }

  lemma {:induction false} SortKeyAbsent(k: string, plan: Plan)
    requires KeyAbsent(k, plan)
    ensures KeyAbsent(k, SortByKey(plan))
    decreases |plan|
  {
    if plan != [] {
      SortKeyAbsent(k, plan[1..]);
      InsertKeyAbsent(k, plan[0], SortByKey(plan[1..]));
    }
  }

  /** With distinct keys, the sorted plan's keys are strictly ascending. */
  lemma SortedDistinctAscending(s: Plan)
    requires SortedByKey(s) && KeysDistinct(s)
    ensures forall i, j :: 0 <= i < j < |s| ==> StrLt(s[i].key, s[j].key)
  {
  }
}
