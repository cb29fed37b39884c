/** Promises about a whole `/upload` run: how it ends, what the counters
    add up to, the order folders are visited in, where requests go, and what
    the transport can and cannot change. */
module Properties {
  import opened Optional
  import opened Paths
  import opened Stats
  import opened Retry
  import opened Classifier
  import opened Batcher
  import opened Sorting
  import opened Uploader
  import opened Command
  import opened Accounting

  /** The order the folder loop visits the map in. */
  function VisitOrder(walk: seq<WalkStep>): Plan
  {
    SortByKey(BuildPlan(walk))
  }

  // ---------------------------------------------------------------------
  // Request counts.

  lemma ImagesLogLength(images: seq<Item>, cfg: Config, captionFolder: string, topic: Option<nat>)
    ensures |ImagesLog(images, cfg, captionFolder, topic)| == Sends(images, cfg.albumMode)
  {
    if cfg.albumMode {
      AlbumBuilderKeepsAccepted(cfg.albumCaptions, captionFolder);
      GroupLogItems(Slices(images), AlbumBuilder(cfg.albumCaptions, captionFolder), topic);
    }
  }

  lemma DocumentsLogLength(docs: seq<Item>, cfg: Config, topic: Option<nat>)
    ensures |DocumentsLog(docs, cfg, topic)| == Sends(docs, cfg.docGroup)
  {
    if cfg.docGroup {
      DocumentBuilderKeepsAccepted(cfg.docCaptions);
      GroupLogItems(Slices(docs), DocumentBuilder(cfg.docCaptions), topic);
    }
  }

  /** A plan's log holds one request per counted send. */
  lemma {:induction false} PlannedLogLength(plan: Plan, cfg: Config, rootName: string, topics: Topics)
    ensures |PlannedLog(plan, cfg, rootName, topics)| == Sum(plan, FolderSends(cfg.albumMode, cfg.docGroup))
    decreases |plan|
  {
    if plan != [] {
      var n := |plan| - 1;
      var f := plan[n];
      var topic := TopicId(cfg, f.key, topics);
      PlannedLogLength(plan[..n], cfg, rootName, topics);
      ImagesLogLength(f.bucket.images, cfg, CaptionFolder(f.key, rootName), topic);
      DocumentsLogLength(f.bucket.documents, cfg, topic);
    }
  }

  // ---------------------------------------------------------------------
  // How the command ends.

  /** The number of status-message calls a run over `plan` makes when none
      of them raises: the opening one, then either the "Folder is empty"
      edit or one edit per non-empty phase and the final report. */
  function StatusCalls(plan: Plan): nat
  {
    if TotalFiles(plan) == 0 then 2 else Sum(plan, FolderEdits) + 2
  }

  /** Some status-message call the run actually makes raises. */
  predicate StatusFails(status: StatusFailure, plan: Plan)
  {
    status.Some? && status.value < StatusCalls(plan)
  }

  /** After the path checks, the command ends in exactly one of three ways:
      aborted when one of the status calls it makes raises, otherwise
      "Folder is empty" for a plan without files and a completed run for
      one with files. */
  lemma TreeEnds(plan: Plan, cfg: Config, rootName: string, net: Transport, topics: Topics, status: StatusFailure)
    ensures UploadTree(plan, cfg, rootName, net, topics, status).Aborted? <==> StatusFails(status, plan)
    ensures UploadTree(plan, cfg, rootName, net, topics, status).EmptyFolder?
            <==> TotalFiles(plan) == 0 && !StatusFails(status, plan)
    ensures UploadTree(plan, cfg, rootName, net, topics, status).Completed?
            <==> TotalFiles(plan) > 0 && !StatusFails(status, plan)
  {
    if TotalFiles(plan) > 0 {
      SortPreservesSum(plan, FolderEdits);
      assert StatusCalls(plan) == Sum(SortByKey(plan), FolderEdits) + 2;
    }
  }

  /** The command stops with "Folder is empty" exactly when the path passes
      the checks, the walk lists no regular file and neither status call
      raises; it completes exactly when there are files and no status call
      raises. */
  lemma EmptyFolderIffNoFiles(cfg: Config, args: seq<string>, isDir: bool, rootName: string,
                              walk: seq<WalkStep>, net: Transport, topics: Topics, status: StatusFailure)
    ensures UploadCommand(cfg, args, isDir, rootName, walk, net, topics, status).EmptyFolder?
            <==> && args != [] && PathAccepted(JoinArgs(args), isDir) && RegularFiles(Entries(walk)) == 0
                 && !StatusFails(status, BuildPlan(walk))
    ensures UploadCommand(cfg, args, isDir, rootName, walk, net, topics, status).Completed?
            <==> && args != [] && PathAccepted(JoinArgs(args), isDir) && RegularFiles(Entries(walk)) > 0
                 && !StatusFails(status, BuildPlan(walk))
  {
    TotalFilesCountsRegularFiles(walk);
    TreeEnds(BuildPlan(walk), cfg, rootName, net, topics, status);
  }

  /** A run that gets past the checks walks the sorted plan from the reset
      state. */
  lemma CompletedRun(cfg: Config, args: seq<string>, isDir: bool, rootName: string,
                     walk: seq<WalkStep>, net: Transport, topics: Topics, status: StatusFailure)
    requires UploadCommand(cfg, args, isDir, rootName, walk, net, topics, status).Completed?
    ensures UploadCommand(cfg, args, isDir, rootName, walk, net, topics, status).run
            == Folders(VisitOrder(walk), cfg, rootName, net, topics, Start())
    ensures args != [] && PathAccepted(JoinArgs(args), isDir) && TotalFiles(BuildPlan(walk)) > 0
  {
  }

  // ---------------------------------------------------------------------
  // The counters of a completed run.

  /** A completed run's counters: `total` is the sum of the other three; one
      skip per rejected file; one success or failure per request sent, and
      one request per counted send of the plan. */
  lemma CompletedCounts(cfg: Config, args: seq<string>, isDir: bool, rootName: string,
                        walk: seq<WalkStep>, net: Transport, topics: Topics, status: StatusFailure)
    requires UploadCommand(cfg, args, isDir, rootName, walk, net, topics, status).Completed?
    ensures var run := UploadCommand(cfg, args, isDir, rootName, walk, net, topics, status).run;
            var plan := BuildPlan(walk);
            && Balanced(run.stats)
            && run.stats.skipped == Sum(plan, FolderRejected)
            && run.stats.success + run.stats.failed == Sum(plan, FolderSends(cfg.albumMode, cfg.docGroup))
            && |run.log| == run.stats.success + run.stats.failed
  {
    var plan := BuildPlan(walk);
    var order := VisitOrder(walk);
    CompletedRun(cfg, args, isDir, rootName, walk, net, topics, status);
    FoldersAccounts(order, cfg, rootName, net, topics, Start());
    FoldersRequests(order, cfg, rootName, net, topics, Start());
    SortPreservesSum(plan, FolderRejected);
    SortPreservesSum(plan, FolderSends(cfg.albumMode, cfg.docGroup));
    PlannedLogLength(order, cfg, rootName, topics);
  }

  /** A completed run's requests are exactly the planned ones, folder by
      folder in visiting order; they do not depend on the transport. */
  lemma CompletedLog(cfg: Config, args: seq<string>, isDir: bool, rootName: string,
                     walk: seq<WalkStep>, net: Transport, topics: Topics, status: StatusFailure)
    requires UploadCommand(cfg, args, isDir, rootName, walk, net, topics, status).Completed?
    ensures UploadCommand(cfg, args, isDir, rootName, walk, net, topics, status).run.log
            == PlannedLog(VisitOrder(walk), cfg, rootName, topics)
  {
    CompletedRun(cfg, args, isDir, rootName, walk, net, topics, status);
    FoldersRequests(VisitOrder(walk), cfg, rootName, net, topics, Start());
  }

  /** The sum of two per-folder quantities is the per-folder sum. */
  lemma {:induction false} SumPointwise(plan: Plan, g: Folder -> nat, h: Folder -> nat, gh: Folder -> nat)
    requires forall f :: gh(f) == g(f) + h(f)
    ensures Sum(plan, gh) == Sum(plan, g) + Sum(plan, h)
    decreases |plan|
  {
    if plan != [] {
      SumPointwise(plan[..|plan| - 1], g, h, gh);
    }
  }

  /** With albums and document groups both off, every request carries one
      file, so `total` counts every regular file of the tree exactly once —
      the "success out of total files" figure of the final report is then
      a true fraction. */
  lemma OneByOneCountsEveryFile(cfg: Config, args: seq<string>, isDir: bool, rootName: string,
                                walk: seq<WalkStep>, net: Transport, topics: Topics, status: StatusFailure)
    requires UploadCommand(cfg, args, isDir, rootName, walk, net, topics, status).Completed?
    requires !cfg.albumMode && !cfg.docGroup
    ensures var run := UploadCommand(cfg, args, isDir, rootName, walk, net, topics, status).run;
            run.stats.total == RegularFiles(Entries(walk))
  {
    var plan := BuildPlan(walk);
    CompletedCounts(cfg, args, isDir, rootName, walk, net, topics, status);
    forall f: Folder ensures FolderSize(f) == FolderRejected(f) + FolderSends(cfg.albumMode, cfg.docGroup)(f) {
      AcceptedPlusRejected(f.bucket.images);
      AcceptedPlusRejected(f.bucket.documents);
    }
    SumPointwise(plan, FolderRejected, FolderSends(cfg.albumMode, cfg.docGroup), FolderSize);
    TotalFilesCountsRegularFiles(walk);
  }

  /** The transport decides only whether each request succeeded: the
      requests made, the skips and `total` are the same under any two
      transports. */
  lemma TransportOnlySplitsOutcomes(cfg: Config, args: seq<string>, isDir: bool, rootName: string,
                                    walk: seq<WalkStep>, net1: Transport, net2: Transport, topics: Topics, status: StatusFailure)
    ensures var o1 := UploadCommand(cfg, args, isDir, rootName, walk, net1, topics, status);
            var o2 := UploadCommand(cfg, args, isDir, rootName, walk, net2, topics, status);
            && o1.Completed? == o2.Completed?
            && o1.Aborted? == o2.Aborted?
            && (!o1.Completed? && !o1.Aborted? ==> o1 == o2)
            && (o1.Completed? ==>
                  && o1.run.log == o2.run.log
                  && o1.run.stats.skipped == o2.run.stats.skipped
                  && o1.run.stats.total == o2.run.stats.total)
  {
    var o1 := UploadCommand(cfg, args, isDir, rootName, walk, net1, topics, status);
    if o1.Completed? {
      CompletedLog(cfg, args, isDir, rootName, walk, net1, topics, status);
      CompletedLog(cfg, args, isDir, rootName, walk, net2, topics, status);
      CompletedCounts(cfg, args, isDir, rootName, walk, net1, topics, status);
      CompletedCounts(cfg, args, isDir, rootName, walk, net2, topics, status);
    }
  }
}
