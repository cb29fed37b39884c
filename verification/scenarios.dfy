/** Worked examples of whole runs on small trees. */
module Scenarios {
  import opened Optional
  import opened Paths
  import opened Stats
  import opened Classifier
  import opened Batcher
  import opened Uploader
  import opened Command
  import opened Accounting
  import opened Delivery
  import opened Properties
  import opened Runs

  const MiB: nat := 1024 * 1024

  /** A top folder holding `a.jpg` (2 MiB) and a sub-folder `sub` holding
      `b.png` (60 MiB, over the limit) and `c.txt` (1 KiB). */
  function MixedTree(): seq<WalkStep>
  {
    [ WalkStep(".", [FileEntry("a.jpg", true, 2 * MiB, true)]),
      WalkStep("sub", [FileEntry("b.png", true, 60 * MiB, true), FileEntry("c.txt", true, 1024, true)]) ]
  }

  /** A name made of a dot-free stem and one extension splits there. */
  lemma SimpleNameExtension(stem: string, ext: string)
    requires stem != [] && Dot !in stem && Sep !in stem
    requires |ext| > 0 && ext[0] == Dot && Dot !in ext[1..] && Sep !in ext[1..]
    ensures SplitExt(stem + ext).1 == ext
  {
    var p := stem + ext;
    var s := RFind(p, Sep);
    assert s == -1;
    var d := RFind(p, Dot);
    assert p[|stem|] == Dot;
    assert d == |stem|;
    assert p[0] == stem[0] != Dot;
    assert HasNonDot(p, s + 1, d);
    assert p[d..] == ext;
  }

  /** A simple lower-case name `stem.ext` is an image exactly when `.ext` is
      one of the image extensions. */
  lemma SimpleNameKind(stem: string, ext: string)
    requires stem != [] && Dot !in stem && Sep !in stem
    requires |ext| > 0 && ext[0] == Dot && Dot !in ext[1..] && Sep !in ext[1..]
    requires Lower(ext) == ext
    ensures IsImagePath(stem + ext) <==> ext in ImageExtensions
  {
    SimpleNameExtension(stem, ext);
  }

  function PhotoA(): Item { Item("", "a.jpg", 2 * MiB, true) }
  function PhotoB(): Item { Item("sub", "b.png", 60 * MiB, true) }
  function TextC(): Item { Item("sub", "c.txt", 1024, true) }

  /** The plan the scan of the mixed tree should build. */
  function MixedPlan(): Plan
  {
    [ Folder("", Bucket([PhotoA()], [])), Folder("sub", Bucket([PhotoB()], [TextC()])) ]
  }

  /** Adding a regular file puts it at the end of its bucket's list of the
      kind its path has. */
  lemma AddRegularFile(plan: Plan, k: string, f: FileEntry)
    requires IndexOf(plan, k) >= 0 && f.isFile
    ensures var i := IndexOf(plan, k);
            var b := plan[i].bucket;
            var it := Item(k, f.name, f.size, f.readable);
            AddFile(plan, k, f) ==
              if IsImagePath(Join(k, f.name)) then plan[i := Folder(k, b.(images := b.images + [it]))]
              else plan[i := Folder(k, b.(documents := b.documents + [it]))]
  {
  }

  lemma BuildPlanLast(walk: seq<WalkStep>)
    requires walk != []
    ensures var k := BucketKey(walk[|walk| - 1].relRoot);
            BuildPlan(walk) == AddFiles(EnsureBucket(BuildPlan(walk[..|walk| - 1]), k), k, walk[|walk| - 1].files)
  {
  }

  lemma AddFilesLast(plan: Plan, k: string, files: seq<FileEntry>)
    requires IndexOf(plan, k) >= 0 && files != []
    ensures var p := AddFiles(plan, k, files[..|files| - 1]);
            IndexOf(p, k) >= 0 && AddFiles(plan, k, files) == AddFile(p, k, files[|files| - 1])
  {
  }

  lemma UpdateLast(p: Plan, f: Folder, g: Folder)
    ensures (p + [f])[|p| := g] == p + [g]
  {
  }

  /** The scan of a top directory holding one image. */
  lemma TopFolderPlan(ea: FileEntry)
    requires ea.isFile && IsImagePath(ea.name)
    ensures BuildPlan([WalkStep(".", [ea])]) == [Folder("", Bucket([Item("", ea.name, ea.size, ea.readable)], []))]
  {
    var w1 := [WalkStep(".", [ea])];
    var p0 := [Folder("", Bucket([], []))];
    assert w1[..0] == [];
    assert BuildPlan(w1[..0]) == [];
    assert BucketKey(w1[0].relRoot) == "";
    assert EnsureBucket([], "") == p0;
    BuildPlanLast(w1);
    assert BuildPlan(w1) == AddFiles(p0, "", [ea]);
    AddFilesLast(p0, "", [ea]);
    assert [ea][..0] == [];
    assert AddFiles(p0, "", []) == p0;
    assert IndexOf(p0, "") == 0;
    assert Join("", ea.name) == ea.name;
    AddRegularFile(p0, "", ea);
    var ia := Item("", ea.name, ea.size, ea.readable);
    assert AddFile(p0, "", ea) == p0[0 := Folder("", Bucket([] + [ia], []))];
    assert [] + [ia] == [ia];
  }

  /** A sub-directory with an image and then a document, scanned after the
      top directory. */
  lemma SubFolderPlan(p1: Plan, k: string, eb: FileEntry, ec: FileEntry)
    requires |p1| == 1 && p1[0].key != k
    requires eb.isFile && ec.isFile
    requires IsImagePath(Join(k, eb.name)) && !IsImagePath(Join(k, ec.name))
    ensures AddFiles(EnsureBucket(p1, k), k, [eb, ec]) ==
              p1 + [Folder(k, Bucket([Item(k, eb.name, eb.size, eb.readable)], [Item(k, ec.name, ec.size, ec.readable)]))]
  {
    var p2 := EnsureBucket(p1, k);
    var ib := Item(k, eb.name, eb.size, eb.readable);
    var ic := Item(k, ec.name, ec.size, ec.readable);
    var p3 := p1 + [Folder(k, Bucket([ib], []))];
    assert AddFiles(p2, k, [eb, ec]) == AddFile(AddFiles(p2, k, [eb]), k, ec) by {
      AddFilesLast(p2, k, [eb, ec]);
      assert [eb, ec][..1] == [eb];
    }
    assert AddFiles(p2, k, [eb]) == p3 by {
      FirstFilePlan(p1, k, eb);
    }
    assert AddFile(p3, k, ec) == p1 + [Folder(k, Bucket([ib], [ic]))] by {
      assert IndexOf(p3, k) == 1;
      AddRegularFile(p3, k, ec);
      assert AddFile(p3, k, ec) == p3[1 := Folder(k, Bucket([ib], [] + [ic]))];
      assert [] + [ic] == [ic];
      UpdateLast(p1, Folder(k, Bucket([ib], [])), Folder(k, Bucket([ib], [ic])));
    }
  }

  /** The first image of a new sub-directory opens its bucket. */
  lemma FirstFilePlan(p1: Plan, k: string, eb: FileEntry)
    requires |p1| == 1 && p1[0].key != k
    requires eb.isFile && IsImagePath(Join(k, eb.name))
    ensures AddFiles(EnsureBucket(p1, k), k, [eb]) == p1 + [Folder(k, Bucket([Item(k, eb.name, eb.size, eb.readable)], []))]
  {
    var p2 := p1 + [Folder(k, Bucket([], []))];
    var ib := Item(k, eb.name, eb.size, eb.readable);
    assert EnsureBucket(p1, k) == p2 by {
      assert IndexOf(p1, k) == -1;
    }
    assert IndexOf(p2, k) == 1;
    assert AddFiles(p2, k, [eb]) == AddFile(p2, k, eb) by {
      AddFilesLast(p2, k, [eb]);
      assert [eb][..0] == [];
      assert AddFiles(p2, k, []) == p2;
    }
    AddRegularFile(p2, k, eb);
    assert AddFile(p2, k, eb) == p2[1 := Folder(k, Bucket([] + [ib], []))];
    assert [] + [ib] == [ib];
    UpdateLast(p1, Folder(k, Bucket([], [])), Folder(k, Bucket([ib], [])));
  }

  /** The scan of a top directory with one image and one sub-directory with
      an image and a document. */
  lemma TwoFolderPlan(k: string, ea: FileEntry, eb: FileEntry, ec: FileEntry)
    requires k != [] && k != "."
    requires ea.isFile && eb.isFile && ec.isFile
    requires IsImagePath(ea.name) && IsImagePath(Join(k, eb.name)) && !IsImagePath(Join(k, ec.name))
    ensures BuildPlan([WalkStep(".", [ea]), WalkStep(k, [eb, ec])]) ==
              [ Folder("", Bucket([Item("", ea.name, ea.size, ea.readable)], [])),
                Folder(k, Bucket([Item(k, eb.name, eb.size, eb.readable)], [Item(k, ec.name, ec.size, ec.readable)])) ]
  {
    var p1 := [Folder("", Bucket([Item("", ea.name, ea.size, ea.readable)], []))];
    var f1 := Folder(k, Bucket([Item(k, eb.name, eb.size, eb.readable)], [Item(k, ec.name, ec.size, ec.readable)]));
    TopFolderPlan(ea);
    SubFolderPlan(p1, k, eb, ec);
    TwoStepsCompose(WalkStep(".", [ea]), WalkStep(k, [eb, ec]), p1, f1);
  }

  /** The plans of the two steps combine into the plan of the two-step walk. */
  lemma TwoStepsCompose(s0: WalkStep, s1: WalkStep, p1: Plan, f1: Folder)
    requires |p1| == 1 && BuildPlan([s0]) == p1
    requires var k := BucketKey(s1.relRoot);
             AddFiles(EnsureBucket(p1, k), k, s1.files) == p1 + [f1]
    ensures BuildPlan([s0, s1]) == [p1[0], f1]
  {
    assert BuildPlan([s0, s1]) == p1 + [f1] by {
      TwoStepsPlan(s0, s1);
    }
    SingletonAppend(p1, f1);
  }

  lemma SingletonAppend<T>(p: seq<T>, x: T)
    requires |p| == 1
    ensures p + [x] == [p[0], x]
  {
  }

  /** A two-step walk is the second step's files added to the first step's plan. */
  lemma TwoStepsPlan(s0: WalkStep, s1: WalkStep)
    ensures var k := BucketKey(s1.relRoot);
            BuildPlan([s0, s1]) == AddFiles(EnsureBucket(BuildPlan([s0]), k), k, s1.files)
  {
    assert [s0, s1][..1] == [s0];
    BuildPlanLast([s0, s1]);
  }

  /** The scan puts the photo in the top bucket and both files of `sub` in
      its own bucket, the oversized image still among the images. */
  lemma MixedTreePlan()
    ensures BuildPlan(MixedTree()) == MixedPlan()
  {
    MixedTreeKinds();
    TwoFolderPlan("sub", FileEntry("a.jpg", true, 2 * MiB, true),
                  FileEntry("b.png", true, 60 * MiB, true), FileEntry("c.txt", true, 1024, true));
  }

  /** The kinds of the mixed tree's files, by their paths in the walk. */
  lemma MixedTreeKinds()
    ensures IsImagePath("a.jpg") && IsImagePath(Join("sub", "b.png")) && !IsImagePath(Join("sub", "c.txt"))
  {
    assert IsImagePath("a.jpg") by {
      assert "a.jpg" == "a" + ".jpg";
      assert Lower(".jpg") == ".jpg";
      SimpleNameKind("a", ".jpg");
    }
    PngUnderSub();
    TxtUnderSub();
  }

  lemma PngUnderSub()
    ensures IsImagePath(Join("sub", "b.png"))
  {
    assert IsImagePath("b.png") by {
      assert "b.png" == "b" + ".png";
      assert Lower(".png") == ".png";
      SimpleNameKind("b", ".png");
    }
    assert IsRelDir("sub") && IsFileName("b.png");
    ImageTestUsesNameOnly("sub", "b.png");
  }

  lemma TxtUnderSub()
    ensures !IsImagePath(Join("sub", "c.txt"))
  {
    assert !IsImagePath("c.txt") by {
      assert "c.txt" == "c" + ".txt";
      assert Lower(".txt") == ".txt";
      SimpleNameKind("c", ".txt");
    }
    assert IsRelDir("sub") && IsFileName("c.txt");
    ImageTestUsesNameOnly("sub", "c.txt");
  }

  lemma OneSlice<T>(xs: seq<T>)
    requires 0 < |xs| <= BatchSize
    ensures Slices(xs) == [xs]
  {
    assert (|xs| + BatchSize - 1) / BatchSize == 1;
    assert |Slices(xs)| == 1;
    assert Min(BatchSize * 0 + BatchSize, |xs|) == |xs|;
    assert Slices(xs)[0] == xs[0..|xs|] == xs;
  }

  lemma SumOfTwo(f0: Folder, f1: Folder, g: Folder -> nat)
    ensures Sum([f0, f1], g) == g(f0) + g(f1)
  {
    assert [f0, f1][..1] == [f0];
    assert [f0][..0] == [];
    assert Sum([f0], g) == g(f0);
  }

  /** The counts the mixed tree's plan gives: three files, one rejected,
      two sends with albums on and document groups off. */
  lemma MixedPlanCounts()
    ensures TotalFiles(MixedPlan()) == 3
    ensures Sum(MixedPlan(), FolderRejected) == 1
    ensures Sum(MixedPlan(), FolderSends(true, false)) == 2
  {
    var p := MixedPlan();
    assert Screen(PhotoA()) == Accept && Screen(PhotoB()) == TooLarge && Screen(TextC()) == Accept;
    SumOfTwo(p[0], p[1], FolderSize);
    SumOfTwo(p[0], p[1], FolderRejected);
    SumOfTwo(p[0], p[1], FolderSends(true, false));
    assert p == [p[0], p[1]];
    OneSlice([PhotoA()]);
    OneSlice([PhotoB()]);
    assert Accepted([PhotoA()]) == [PhotoA()];
    assert Accepted([PhotoB()]) == [];
    assert Accepted([TextC()]) == [TextC()];
    assert RejectedCount([PhotoB()]) == 1;
    assert RejectedCount([TextC()]) == 0;
    assert Groups([[PhotoA()]]) == [[PhotoA()]];
    assert Groups([[PhotoB()]]) == [];
  }

  /** The first worked example: with the default settings and a transport
      that never fails, the run reports three files, two successes (the
      one-photo album and the text file), no failure and one skip (the
      oversized image). */
  lemma MixedTreeReport(net: Transport, topics: Topics)
    requires Reliable(net)
    ensures var o := UploadCommand(Defaults, ["photos"], true, "photos", MixedTree(), net, topics, None);
            && o.Completed?
            && o.run.stats == UploadStats(3, 2, 0, 1)
  {
    MixedTreePlan();
    MixedPlanCounts();
    PhotosAccepted();
    ReliableReport(Defaults, ["photos"], true, "photos", MixedTree(), net, topics, None);
  }

  lemma PhotosAccepted()
    ensures PathAccepted(JoinArgs(["photos"]), true)
  {
    assert JoinArgs(["photos"]) == "photos";
    assert !HasDotDot("photos");
  }
}
