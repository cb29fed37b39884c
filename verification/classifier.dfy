/** The folder scanner of `upload_command`: every file reported by the
    directory walk goes into the bucket of its parent directory, as an image
    when its extension is an image extension and as a document otherwise. */
module Classifier {
  import opened Paths

  const ImageExtensions: set<string> := {".jpg", ".jpeg", ".png", ".gif", ".bmp", ".tiff", ".webp", ".svg"}

  /** A directory entry as the walk lists it, with the facts the upload later
      asks the file system about it: whether it is a regular file, its size
      in bytes, and whether it is readable. */
  datatype FileEntry = FileEntry(name: string, isFile: bool, size: nat, readable: bool)

  /** One step of the walk: a directory's path relative to the root (the
      root itself is ".") and the file names listed in it, in walk order. */
  datatype WalkStep = WalkStep(relRoot: string, files: seq<FileEntry>)

  /** A file to upload: the relative directory it lives in and its name. */
  datatype Item = Item(dir: string, name: string, size: nat, readable: bool)

  /** The file's path relative to the scanned root. */
  function RelPath(it: Item): string
  {
    Join(it.dir, it.name)
  }

  datatype Bucket = Bucket(images: seq<Item>, documents: seq<Item>)

  /** A bucket together with its key, the parent directory's relative path. */
  datatype Folder = Folder(key: string, bucket: Bucket)

  /** The folder map in insertion order, as the source's dictionary keeps it. */
  type Plan = seq<Folder>

  /** The bucket key of a walked directory: the root's "." becomes "". */
  function BucketKey(relRoot: string): (k: string)
    ensures relRoot != "." ==> k == relRoot
    ensures relRoot == "." ==> k == ""
  {
    if relRoot == "." then "" else relRoot
  }

  /** The extension test on a path: lower-cased `splitext` suffix in the set. */
  predicate IsImagePath(p: string)
  {
    Lower(SplitExt(p).1) in ImageExtensions
  }

  /** The image test reads the extension up to case: a path and its
      lower-cased form are classified alike. */
  lemma ImageTestIgnoresCase(p: string)
    ensures IsImagePath(Lower(p)) <==> IsImagePath(p)
  {
    SplitExtLower(p);
    LowerIdempotent(SplitExt(p).1);
  }

  /** What the walk guarantees: keys are relative directories without a
      trailing separator and file names are non-empty and separator-free. */
  predicate WellFormedStep(st: WalkStep)
  {
    && IsRelDir(BucketKey(st.relRoot))
    && forall j :: 0 <= j < |st.files| ==> IsFileName(st.files[j].name)
  }

  predicate WellFormedWalk(walk: seq<WalkStep>)
  {
    forall i :: 0 <= i < |walk| ==> WellFormedStep(walk[i])
  }

  /** For a well-formed entry the test on the joined path is the test on the
      bare file name. */
  lemma ImageTestUsesNameOnly(dir: string, name: string)
    requires IsRelDir(dir) && IsFileName(name)
    ensures IsImagePath(Join(dir, name)) <==> IsImagePath(name)
  {
    if dir != [] {
      ExtensionOfJoinedPath(dir, name);
    }
  }

  // ---------------------------------------------------------------------
  // Building the folder map.

  /** Position of key `k` in the plan, or -1. */
  function IndexOf(plan: Plan, k: string): (i: int)
    ensures -1 <= i < |plan|
    ensures i >= 0 ==> plan[i].key == k
    ensures i < 0 ==> forall j :: 0 <= j < |plan| ==> plan[j].key != k
  {
    if plan == [] then -1
    else if plan[|plan| - 1].key == k then |plan| - 1
    else IndexOf(plan[..|plan| - 1], k)
  }

  predicate KeysDistinct(plan: Plan)
  {
    forall i, j :: 0 <= i < j < |plan| ==> plan[i].key != plan[j].key
  }

  function KeySet(plan: Plan): set<string>
  {
    set f | f in plan :: f.key
  }

  /** `if rel_root not in subfolder_map: subfolder_map[rel_root] = {...}` */
  function EnsureBucket(plan: Plan, k: string): (r: Plan)
    ensures IndexOf(r, k) >= 0
  {
    if IndexOf(plan, k) >= 0 then plan else plan + [Folder(k, Bucket([], []))]
  }

  /** The body of the inner loop for one listed name. */
  function AddFile(plan: Plan, k: string, f: FileEntry): (r: Plan)
    requires IndexOf(plan, k) >= 0
    ensures |r| == |plan| && forall j :: 0 <= j < |r| ==> r[j].key == plan[j].key
  {
    if !f.isFile then plan
    else
      var i := IndexOf(plan, k);
      var it := Item(k, f.name, f.size, f.readable);
      var b := plan[i].bucket;
      if IsImagePath(Join(k, f.name)) then plan[i := Folder(k, b.(images := b.images + [it]))]
      else plan[i := Folder(k, b.(documents := b.documents + [it]))]
  }

  function AddFiles(plan: Plan, k: string, files: seq<FileEntry>): (r: Plan)
    requires IndexOf(plan, k) >= 0
    ensures |r| == |plan| && forall j :: 0 <= j < |r| ==> r[j].key == plan[j].key
  {
    if files == [] then plan
    else
      var p := AddFiles(plan, k, files[..|files| - 1]);
      assert IndexOf(p, k) >= 0 by {
        assert p[IndexOf(plan, k)].key == k;
      }
      AddFile(p, k, files[|files| - 1])
  }

  /** The map built by the walk loop, steps taken in walk order. */
  function BuildPlan(walk: seq<WalkStep>): Plan
  {
    if walk == [] then []
    else
      var st := walk[|walk| - 1];
      var k := BucketKey(st.relRoot);
      AddFiles(EnsureBucket(BuildPlan(walk[..|walk| - 1]), k), k, st.files)
  }

  // ---------------------------------------------------------------------
  // The reference: every listed entry, tagged with its bucket key, filtered.

  datatype Entry = Entry(key: string, file: FileEntry)

  /** The files of one directory, each tagged with the directory's key. */
  function Tagged(k: string, files: seq<FileEntry>): (es: seq<Entry>)
    ensures |es| == |files|
    ensures forall j :: 0 <= j < |files| ==> es[j] == Entry(k, files[j])
  {
    seq(|files|, j requires 0 <= j < |files| => Entry(k, files[j]))
  }

  function StepEntries(st: WalkStep): (es: seq<Entry>)
  {
    Tagged(BucketKey(st.relRoot), st.files)
  }

  /** All entries of the walk, in walk order. */
  function Entries(walk: seq<WalkStep>): seq<Entry>
  {
    if walk == [] then [] else Entries(walk[..|walk| - 1]) + StepEntries(walk[|walk| - 1])
  }

  function ItemOf(e: Entry): Item
  {
    Item(e.key, e.file.name, e.file.size, e.file.readable)
  }

  /** Whether entry `e` is a regular file of bucket `k` of the given kind. */
  predicate Picks(e: Entry, k: string, image: bool)
  {
    e.key == k && e.file.isFile && IsImagePath(e.file.name) == image
  }

  /** The items of the walk that belong in list `image` of bucket `k`, in
      walk order. */
  function Selected(es: seq<Entry>, k: string, image: bool): (r: seq<Item>)
    ensures |r| <= |es|
    ensures forall j :: 0 <= j < |r| ==> r[j].dir == k && IsImagePath(r[j].name) == image
  {
    if es == [] then []
    else Selected(es[..|es| - 1], k, image) + (if Picks(es[|es| - 1], k, image) then [ItemOf(es[|es| - 1])] else [])
  }

  lemma {:induction false} SelectedNone(es: seq<Entry>, k: string, image: bool)
    requires forall i :: 0 <= i < |es| ==> es[i].key != k
    ensures Selected(es, k, image) == []
    decreases |es|
  {
    if es != [] {
      SelectedNone(es[..|es| - 1], k, image);
    }
  }

  /** Every entry seen so far has a bucket. */
  predicate Covers(plan: Plan, es: seq<Entry>)
  {
    forall i :: 0 <= i < |es| ==> IndexOf(plan, es[i].key) >= 0
  }

  /** Each bucket holds exactly the selected entries of its key. */
  predicate Exact(plan: Plan, es: seq<Entry>)
  {
    forall j :: 0 <= j < |plan| ==>
      plan[j].bucket == Bucket(Selected(es, plan[j].key, true), Selected(es, plan[j].key, false))
  }

  /** Invariant of the walk loop: keys are distinct, every entry seen so far
      has a bucket, and each bucket holds exactly the selected entries. */
  predicate Inv(plan: Plan, es: seq<Entry>)
  {
    KeysDistinct(plan) && Covers(plan, es) && Exact(plan, es)
  }

  predicate EntryWellFormed(k: string, f: FileEntry)
  {
    IsRelDir(k) && IsFileName(f.name)
  }

  lemma SelectedSnoc(es: seq<Entry>, e: Entry, k: string, image: bool)
    ensures Selected(es + [e], k, image)
            == Selected(es, k, image) + (if Picks(e, k, image) then [ItemOf(e)] else [])
  {
    assert (es + [e])[..|es + [e]| - 1] == es;
  }

  /** Adding a file changes no key. */
  lemma AddFileKeepsDistinct(plan: Plan, k: string, f: FileEntry)
    requires KeysDistinct(plan) && IndexOf(plan, k) >= 0
    ensures KeysDistinct(AddFile(plan, k, f))
  {
    var r := AddFile(plan, k, f);
    forall a, b | 0 <= a < b < |r| ensures r[a].key != r[b].key {
      assert r[a].key == plan[a].key && r[b].key == plan[b].key;
    }
  }

  lemma AddFileKeepsCover(plan: Plan, es: seq<Entry>, k: string, f: FileEntry)
    requires Covers(plan, es) && IndexOf(plan, k) >= 0
    ensures Covers(AddFile(plan, k, f), es + [Entry(k, f)])
  {
    var es' := es + [Entry(k, f)];
    var r := AddFile(plan, k, f);
    forall x | 0 <= x < |es'|
      ensures IndexOf(r, es'[x].key) >= 0
    {
      var j := if x < |es| then IndexOf(plan, es[x].key) else IndexOf(plan, k);
      assert r[j].key == es'[x].key;
    }
  }

  lemma AddFileKeepsExact(plan: Plan, es: seq<Entry>, k: string, f: FileEntry)
    requires KeysDistinct(plan) && Exact(plan, es) && IndexOf(plan, k) >= 0 && EntryWellFormed(k, f)
    ensures Exact(AddFile(plan, k, f), es + [Entry(k, f)])
  {
    var e := Entry(k, f);
    var es' := es + [e];
    var r := AddFile(plan, k, f);
    var i := IndexOf(plan, k);
    ImageTestUsesNameOnly(k, f.name);
    forall j | 0 <= j < |r|
      ensures r[j].bucket == Bucket(Selected(es', r[j].key, true), Selected(es', r[j].key, false))
    {
      var key := r[j].key;
      SelectedSnoc(es, e, key, true);
      SelectedSnoc(es, e, key, false);
      if j != i {
        assert plan[j].key != k;
        assert r[j] == plan[j];
      }
    }
  }

  lemma AddFileKeepsInv(plan: Plan, es: seq<Entry>, k: string, f: FileEntry)
    requires Inv(plan, es) && IndexOf(plan, k) >= 0 && EntryWellFormed(k, f)
    ensures Inv(AddFile(plan, k, f), es + [Entry(k, f)])
  {
    AddFileKeepsDistinct(plan, k, f);
    AddFileKeepsCover(plan, es, k, f);
    AddFileKeepsExact(plan, es, k, f);
  }

  lemma TaggedSnoc(k: string, files: seq<FileEntry>, es: seq<Entry>)
    requires files != []
    ensures es + Tagged(k, files)
            == (es + Tagged(k, files[..|files| - 1])) + [Entry(k, files[|files| - 1])]
  {
    var n := |files| - 1;
    var front := Tagged(k, files[..n]);
    assert Tagged(k, files) == front + [Entry(k, files[n])];
  }

  lemma {:induction false} AddFilesKeepsInv(plan: Plan, es: seq<Entry>, k: string, files: seq<FileEntry>)
    requires Inv(plan, es) && IndexOf(plan, k) >= 0
    requires forall j :: 0 <= j < |files| ==> EntryWellFormed(k, files[j])
    ensures Inv(AddFiles(plan, k, files), es + Tagged(k, files))
    decreases |files|
  {
    if files == [] {
      assert es + Tagged(k, files) == es;
    } else {
      var n := |files| - 1;
      var mid := es + Tagged(k, files[..n]);
      var p := AddFiles(plan, k, files[..n]);
      assert Inv(p, mid) by {
        AddFilesKeepsInv(plan, es, k, files[..n]);
      }
      assert IndexOf(p, k) >= 0 by {
        assert p[IndexOf(plan, k)].key == k;
      }
      AddFileKeepsInv(p, mid, k, files[n]);
      TaggedSnoc(k, files, es);
    }
  }

  /** A bucket is added only for a key that is not there yet. */
  lemma EnsureBucketKeepsDistinct(plan: Plan, k: string)
    requires KeysDistinct(plan)
    ensures KeysDistinct(EnsureBucket(plan, k))
  {
  }

  lemma EnsureBucketKeepsCover(plan: Plan, es: seq<Entry>, k: string)
    requires Covers(plan, es)
    ensures Covers(EnsureBucket(plan, k), es)
  {
    var r := EnsureBucket(plan, k);
    forall i | 0 <= i < |es|
      ensures IndexOf(r, es[i].key) >= 0
    {
      var j := IndexOf(plan, es[i].key);
      assert r[j].key == es[i].key;
    }
  }

  lemma EnsureBucketKeepsExact(plan: Plan, es: seq<Entry>, k: string)
    requires Covers(plan, es) && Exact(plan, es)
    ensures Exact(EnsureBucket(plan, k), es)
  {
    if IndexOf(plan, k) < 0 {
      forall i | 0 <= i < |es|
        ensures es[i].key != k
      {
        assert plan[IndexOf(plan, es[i].key)].key == es[i].key;
      }
      SelectedNone(es, k, true);
      SelectedNone(es, k, false);
    }
  }

  lemma EnsureBucketKeepsInv(plan: Plan, es: seq<Entry>, k: string)
    requires Inv(plan, es)
    ensures Inv(EnsureBucket(plan, k), es)
  {
    EnsureBucketKeepsDistinct(plan, k);
    EnsureBucketKeepsCover(plan, es, k);
    EnsureBucketKeepsExact(plan, es, k);
  }

  /** The keys after `EnsureBucket` are the old keys and `k`. */
  lemma EnsureBucketKeySet(plan: Plan, k: string)
    ensures KeySet(EnsureBucket(plan, k)) == KeySet(plan) + {k}
  {
    var r := EnsureBucket(plan, k);
    if IndexOf(plan, k) < 0 {
      assert r[|plan|].key == k;
      assert KeySet(r) == KeySet(plan) + {k} by {
        assert forall f :: f in r <==> f in plan || f == r[|plan|];
      }
    } else {
      assert k in KeySet(plan) by {
        assert plan[IndexOf(plan, k)] in plan;
      }
    }
  }

  function WalkKeys(walk: seq<WalkStep>): set<string>
  {
    set st | st in walk :: BucketKey(st.relRoot)
  }

  lemma AddFilesKeepsKeySet(plan: Plan, k: string, files: seq<FileEntry>)
    requires IndexOf(plan, k) >= 0
    ensures KeySet(AddFiles(plan, k, files)) == KeySet(plan)
  {
    var r := AddFiles(plan, k, files);
    forall x | x in KeySet(r)
      ensures x in KeySet(plan)
    {
      var f :| f in r && f.key == x;
      var j :| 0 <= j < |r| && r[j] == f;
      assert plan[j] in plan;
    }
    forall x | x in KeySet(plan)
      ensures x in KeySet(r)
    {
      var f :| f in plan && f.key == x;
      var j :| 0 <= j < |plan| && plan[j] == f;
      assert r[j] in r;
    }
  }

  lemma WellFormedPrefix(walk: seq<WalkStep>, n: nat)
    requires WellFormedWalk(walk) && n <= |walk|
    ensures WellFormedWalk(walk[..n])
  {
    forall i | 0 <= i < n ensures WellFormedStep(walk[..n][i]) {
      assert walk[..n][i] == walk[i];
    }
  }

  lemma WalkKeysSnoc(walk: seq<WalkStep>)
    requires walk != []
    ensures WalkKeys(walk) == WalkKeys(walk[..|walk| - 1]) + {BucketKey(walk[|walk| - 1].relRoot)}
  {
    var n := |walk| - 1;
    assert walk == walk[..n] + [walk[n]];
    assert forall x :: x in walk <==> x in walk[..n] || x == walk[n];
  }

  lemma {:induction false} BuildPlanInv(walk: seq<WalkStep>)
    requires WellFormedWalk(walk)
    ensures Inv(BuildPlan(walk), Entries(walk))
    ensures KeySet(BuildPlan(walk)) == WalkKeys(walk)
    decreases |walk|
  {
    if walk != [] {
      var n := |walk| - 1;
      var st := walk[n];
      var k := BucketKey(st.relRoot);
      WellFormedPrefix(walk, n);
      BuildPlanInv(walk[..n]);
      var p := BuildPlan(walk[..n]);
      var es := Entries(walk[..n]);
      EnsureBucketKeepsInv(p, es, k);
      EnsureBucketKeySet(p, k);
      var e := EnsureBucket(p, k);
      assert WellFormedStep(st);
      AddFilesKeepsInv(e, es, k, st.files);
      AddFilesKeepsKeySet(e, k, st.files);
      var r := AddFiles(e, k, st.files);
      assert Inv(r, es + Tagged(k, st.files));
      assert BuildPlan(walk) == r;
      assert Entries(walk) == es + Tagged(k, st.files);
      WalkKeysSnoc(walk);
    }
  }

  /** The map never holds a key twice, whatever the walk lists: a bucket is
      only added for a key that has none. */
  lemma {:induction false} BuildPlanKeysDistinct(walk: seq<WalkStep>)
    ensures KeysDistinct(BuildPlan(walk))
    decreases |walk|
  {
    if walk != [] {
      var n := |walk| - 1;
      var k := BucketKey(walk[n].relRoot);
      BuildPlanKeysDistinct(walk[..n]);
      var p := BuildPlan(walk[..n]);
      var e := EnsureBucket(p, k);
      assert KeysDistinct(e) by {
        if IndexOf(p, k) < 0 {
          assert e == p + [Folder(k, Bucket([], []))];
        }
      }
      var r := AddFiles(e, k, walk[n].files);
      assert BuildPlan(walk) == r;
    }
  }

  /** The classification promise: the map has one bucket per walked
      directory and no key twice; each bucket lists, in walk order, exactly
      the regular files directly inside that directory, images (by the
      lower-cased extension) in one list and everything else in the other. */
  lemma PlanClassifiesWalk(walk: seq<WalkStep>)
    requires WellFormedWalk(walk)
    ensures var plan := BuildPlan(walk);
            && KeysDistinct(plan)
            && KeySet(plan) == WalkKeys(walk)
            && (forall j :: 0 <= j < |plan| ==>
                  && plan[j].bucket.images == Selected(Entries(walk), plan[j].key, true)
                  && plan[j].bucket.documents == Selected(Entries(walk), plan[j].key, false))
  {
    BuildPlanInv(walk);
  }

  // ---------------------------------------------------------------------
  // Counting files.

  function FolderSize(f: Folder): nat
  {
    |f.bucket.images| + |f.bucket.documents|
  }

  /** The sum of a per-folder quantity over a plan. */
  function Sum(plan: Plan, g: Folder -> nat): nat
  {
    if plan == [] then 0 else Sum(plan[..|plan| - 1], g) + g(plan[|plan| - 1])
  }

  lemma {:induction false} SumAppend(a: Plan, b: Plan, g: Folder -> nat)
    ensures Sum(a + b, g) == Sum(a, g) + Sum(b, g)
    decreases |b|
  {
    if b == [] {
      assert a + b == a;
    } else {
      var n := |b| - 1;
      assert (a + b)[..|a + b| - 1] == a + b[..n];
      SumAppend(a, b[..n], g);
    }
  }

  /** `total_files`: the number of files over all buckets. */
  function TotalFiles(plan: Plan): nat
  {
    Sum(plan, FolderSize)
  }

  /** The number of regular files among the entries. */
  function RegularFiles(es: seq<Entry>): nat
  {
    if es == [] then 0 else RegularFiles(es[..|es| - 1]) + (if es[|es| - 1].file.isFile then 1 else 0)
  }

  lemma {:induction false} SumUpdate(plan: Plan, i: nat, f: Folder, g: Folder -> nat)
    requires i < |plan|
    ensures Sum(plan[i := f], g) == Sum(plan, g) - g(plan[i]) + g(f)
    decreases |plan|
  {
    var n := |plan| - 1;
    if i < n {
      assert plan[i := f][..n] == plan[..n][i := f];
      SumUpdate(plan[..n], i, f, g);
    } else {
      assert plan[i := f][..n] == plan[..n];
    }
  }

  lemma {:induction false} AddFilesCounts(plan: Plan, k: string, files: seq<FileEntry>)
    requires IndexOf(plan, k) >= 0
    ensures TotalFiles(AddFiles(plan, k, files))
            == TotalFiles(plan) + RegularFiles(Tagged(k, files))
    decreases |files|
  {
    var es := Tagged(k, files);
    if files != [] {
      var n := |files| - 1;
      AddFilesCounts(plan, k, files[..n]);
      var p := AddFiles(plan, k, files[..n]);
      assert p[IndexOf(plan, k)].key == k;
      assert es[..n] == Tagged(k, files[..n]);
      if files[n].isFile {
        SumUpdate(p, IndexOf(p, k), AddFile(p, k, files[n])[IndexOf(p, k)], FolderSize);
        assert AddFile(p, k, files[n]) == p[IndexOf(p, k) := AddFile(p, k, files[n])[IndexOf(p, k)]];
      }
    }
  }

  lemma {:induction false} RegularFilesAppend(a: seq<Entry>, b: seq<Entry>)
    ensures RegularFiles(a + b) == RegularFiles(a) + RegularFiles(b)
    decreases |b|
  {
    if b == [] {
      assert a + b == a;
    } else {
      var n := |b| - 1;
      assert (a + b)[..|a + b| - 1] == a + b[..n];
      RegularFilesAppend(a, b[..n]);
    }
  }

  /** Every regular file the walk lists is counted once in `total_files`;
      entries that are not regular files are dropped without a trace. */
  lemma {:induction false} TotalFilesCountsRegularFiles(walk: seq<WalkStep>)
    ensures TotalFiles(BuildPlan(walk)) == RegularFiles(Entries(walk))
    decreases |walk|
  {
    if walk != [] {
      var n := |walk| - 1;
      var st := walk[n];
      var k := BucketKey(st.relRoot);
      TotalFilesCountsRegularFiles(walk[..n]);
      var p := BuildPlan(walk[..n]);
      var e := EnsureBucket(p, k);
      if IndexOf(p, k) < 0 {
        assert e[..|e| - 1] == p;
      }
      assert TotalFiles(e) == TotalFiles(p);
      AddFilesCounts(e, k, st.files);
      RegularFilesAppend(Entries(walk[..n]), StepEntries(st));
    }
  }
}
