/** Runs cut short by a status-message call that raises. The opening
    message, the per-phase edits and the final report all sit outside the
    send-with-retry loop, so their exceptions reach the command's outer
    handler: the remaining folders are never uploaded, and the counters
    keep whatever the run had reached. */
module Aborts {
  import opened Optional
  import opened Stats
  import opened Classifier
  import opened Batcher
  import opened Sorting
  import opened Uploader
  import opened Command
  import opened Accounting
  import opened Delivery
  import opened Properties

  // ---------------------------------------------------------------------
  // The requests sent before the failing edit.

  /** The requests a folder has sent when its `j`-th status edit raises:
      none before the image edit, the image phase's before the document
      edit. */
  function PartialLog(f: Folder, j: nat, cfg: Config, rootName: string, topics: Topics): seq<Request>
  {
    if j == 0 && f.bucket.images != [] then []
    else ImagesLog(f.bucket.images, cfg, CaptionFolder(f.key, rootName), TopicId(cfg, f.key, topics))
  }

  /** The requests of a loop whose per-phase edit number `k` (from zero)
      raises: every earlier folder's, then the failing folder's part. */
  function StoppedLog(plan: Plan, k: nat, cfg: Config, rootName: string, topics: Topics): seq<Request>
    requires k < Sum(plan, FolderEdits)
    decreases |plan|
  {
    var n := |plan| - 1;
    if k < Sum(plan[..n], FolderEdits) then StoppedLog(plan[..n], k, cfg, rootName, topics)
    else PlannedLog(plan[..n], cfg, rootName, topics) + PartialLog(plan[n], k - Sum(plan[..n], FolderEdits), cfg, rootName, topics)
  }

  lemma PrefixExtends<T>(a: seq<T>, b: seq<T>, c: seq<T>)
    requires a <= b
    ensures a <= b + c
  {
    assert (b + c)[..|a|] == b[..|a|];
  }

  lemma PrefixUnder<T>(a: seq<T>, x: seq<T>, y: seq<T>)
    requires x <= y
    ensures a + x <= a + y
  {
    assert (a + y)[..|a + x|] == a + y[..|x|];
  }

  /** The failing folder's requests come from the start of its planned ones. */
  lemma PartialLogIsPrefix(f: Folder, j: nat, cfg: Config, rootName: string, topics: Topics)
    ensures PartialLog(f, j, cfg, rootName, topics) <= FolderLog(f, cfg, rootName, topics)
  {
    var topic := TopicId(cfg, f.key, topics);
    PrefixExtends(ImagesLog(f.bucket.images, cfg, CaptionFolder(f.key, rootName), topic),
                  ImagesLog(f.bucket.images, cfg, CaptionFolder(f.key, rootName), topic),
                  DocumentsLog(f.bucket.documents, cfg, topic));
  }

  /** A cut-short loop's requests start the planned ones: nothing is sent
      that a completed run would not have sent first. */
  lemma {:induction false} StoppedLogIsPrefix(plan: Plan, k: nat, cfg: Config, rootName: string, topics: Topics)
    requires k < Sum(plan, FolderEdits)
    ensures StoppedLog(plan, k, cfg, rootName, topics) <= PlannedLog(plan, cfg, rootName, topics)
    decreases |plan|
  {
    var n := |plan| - 1;
    var head := PlannedLog(plan[..n], cfg, rootName, topics);
    var last := FolderLog(plan[n], cfg, rootName, topics);
    assert PlannedLog(plan, cfg, rootName, topics) == head + last;
    if k < Sum(plan[..n], FolderEdits) {
      StoppedLogIsPrefix(plan[..n], k, cfg, rootName, topics);
      PrefixExtends(StoppedLog(plan[..n], k, cfg, rootName, topics), head, last);
    } else {
      var j := k - Sum(plan[..n], FolderEdits);
      PartialLogIsPrefix(plan[n], j, cfg, rootName, topics);
      PrefixUnder(head, PartialLog(plan[n], j, cfg, rootName, topics), last);
    }
  }

  // ---------------------------------------------------------------------
  // The cut-short loop against its plan.

  /** The failing folder adds exactly its partial requests to the log. */
  lemma StoppedFolderLog(f: Folder, j: nat, cfg: Config, rootName: string, net: Transport, topics: Topics,
                         st: RunState)
    ensures StoppedFolder(f, j, cfg, rootName, net, topics, st).log == st.log + PartialLog(f, j, cfg, rootName, topics)
  {
    var st1 := OpenTopic(cfg, f.key, topics, st.(visited := st.visited + [f.key]));
    ImagesEffect(f.bucket.images, cfg, CaptionFolder(f.key, rootName), TopicId(cfg, f.key, topics), st1, net);
  }

  /** The cut-short loop's requests are the stopped plan's, whatever the
      transport. */
  lemma {:induction false} StoppedFoldersLog(plan: Plan, k: nat, cfg: Config, rootName: string, net: Transport,
                                             topics: Topics, st: RunState)
    requires k < Sum(plan, FolderEdits)
    ensures StoppedFolders(plan, k, cfg, rootName, net, topics, st).log == st.log + StoppedLog(plan, k, cfg, rootName, topics)
    decreases |plan|
  {
    var n := |plan| - 1;
    if k < Sum(plan[..n], FolderEdits) {
      StoppedFoldersLog(plan[..n], k, cfg, rootName, net, topics, st);
    } else {
      var j := k - Sum(plan[..n], FolderEdits);
      var mid := Folders(plan[..n], cfg, rootName, net, topics, st);
      FoldersRequests(plan[..n], cfg, rootName, net, topics, st);
      StoppedFolderLog(plan[n], j, cfg, rootName, net, topics, mid);
      AppendAssoc(st.log, PlannedLog(plan[..n], cfg, rootName, topics), PartialLog(plan[n], j, cfg, rootName, topics));
    }
  }

  /** The failing folder keeps the balance and the tally. */
  lemma StoppedFolderKeeps(f: Folder, j: nat, cfg: Config, rootName: string, net: Transport, topics: Topics,
                           st: RunState)
    requires Balanced(st.stats) && Tallied(st, net)
    ensures var r := StoppedFolder(f, j, cfg, rootName, net, topics, st);
            Balanced(r.stats) && Tallied(r, net)
  {
    var cf := CaptionFolder(f.key, rootName);
    var topic := TopicId(cfg, f.key, topics);
    var st1 := OpenTopic(cfg, f.key, topics, st.(visited := st.visited + [f.key]));
    var images := f.bucket.images;
    ImagesEffect(images, cfg, cf, topic, st1, net);
    if images != [] {
      if cfg.albumMode {
        GroupedTallies(Slices(images), AlbumBuilder(cfg.albumCaptions, cf), topic, st1, net);
      } else {
        IndividuallyTallies(images, PhotoRequest(cfg.imageCaptions, topic), st1, net);
      }
    }
  }

  /** The cut-short loop keeps the balance and the tally. */
  lemma {:induction false} StoppedFoldersKeep(plan: Plan, k: nat, cfg: Config, rootName: string, net: Transport,
                                              topics: Topics, st: RunState)
    requires k < Sum(plan, FolderEdits)
    requires Balanced(st.stats) && Tallied(st, net)
    ensures var r := StoppedFolders(plan, k, cfg, rootName, net, topics, st);
            Balanced(r.stats) && Tallied(r, net)
    decreases |plan|
  {
    var n := |plan| - 1;
    if k < Sum(plan[..n], FolderEdits) {
      StoppedFoldersKeep(plan[..n], k, cfg, rootName, net, topics, st);
    } else {
      var mid := Folders(plan[..n], cfg, rootName, net, topics, st);
      FoldersAccounts(plan[..n], cfg, rootName, net, topics, st);
      FoldersTally(plan[..n], cfg, rootName, net, topics, st);
      StoppedFolderKeeps(plan[n], k - Sum(plan[..n], FolderEdits), cfg, rootName, net, topics, mid);
    }
  }

  /** A loop cut short from the reset state sent a prefix of the plan's
      requests. */
  lemma StoppedFoldersPrefix(order: Plan, k: nat, cfg: Config, rootName: string, net: Transport, topics: Topics)
    requires k < Sum(order, FolderEdits)
    ensures StoppedFolders(order, k, cfg, rootName, net, topics, Start()).log <= PlannedLog(order, cfg, rootName, topics)
  {
    StoppedFoldersLog(order, k, cfg, rootName, net, topics, Start());
    StoppedLogIsPrefix(order, k, cfg, rootName, topics);
  }

  /** The requests of the run a raising status call leaves behind start the
      planned ones. */
  lemma StoppedRunLog(order: Plan, c: nat, cfg: Config, rootName: string, net: Transport, topics: Topics)
    requires 1 <= c <= Sum(order, FolderEdits) + 1
    ensures StoppedRun(order, c, cfg, rootName, net, topics).log <= PlannedLog(order, cfg, rootName, topics)
  {
    var r := StoppedRun(order, c, cfg, rootName, net, topics);
    if c <= Sum(order, FolderEdits) {
      assert r == StoppedFolders(order, c - 1, cfg, rootName, net, topics, Start());
      StoppedFoldersPrefix(order, c - 1, cfg, rootName, net, topics);
    } else {
      assert r == Folders(order, cfg, rootName, net, topics, Start());
      FoldersRequests(order, cfg, rootName, net, topics, Start());
    }
  }

  /** The counters of the run a raising status call leaves behind balance
      and agree with the transport. */
  lemma StoppedRunCounts(order: Plan, c: nat, cfg: Config, rootName: string, net: Transport, topics: Topics)
    requires 1 <= c <= Sum(order, FolderEdits) + 1
    ensures Balanced(StoppedRun(order, c, cfg, rootName, net, topics).stats)
    ensures Tallied(StoppedRun(order, c, cfg, rootName, net, topics), net)
  {
    if c <= Sum(order, FolderEdits) {
      StoppedFromStart(order, c - 1, cfg, rootName, net, topics);
    } else {
      CompletedFromStart(order, cfg, rootName, net, topics);
    }
  }

  lemma StoppedFromStart(order: Plan, k: nat, cfg: Config, rootName: string, net: Transport, topics: Topics)
    requires k < Sum(order, FolderEdits)
    ensures Balanced(StoppedFolders(order, k, cfg, rootName, net, topics, Start()).stats)
    ensures Tallied(StoppedFolders(order, k, cfg, rootName, net, topics, Start()), net)
  {
    StartTallied(net);
    StoppedFoldersKeep(order, k, cfg, rootName, net, topics, Start());
  }

  lemma CompletedFromStart(order: Plan, cfg: Config, rootName: string, net: Transport, topics: Topics)
    ensures Balanced(Folders(order, cfg, rootName, net, topics, Start()).stats)
    ensures Tallied(Folders(order, cfg, rootName, net, topics, Start()), net)
  {
    FoldersAccounts(order, cfg, rootName, net, topics, Start());
    RunTallies(order, cfg, rootName, net, topics);
  }

  /** After the path checks: an aborted run sent a prefix of the sorted
      plan's requests. */
  lemma TreeAbortedPrefix(plan: Plan, cfg: Config, rootName: string, net: Transport, topics: Topics,
                          status: StatusFailure)
    requires UploadTree(plan, cfg, rootName, net, topics, status).Aborted?
    ensures UploadTree(plan, cfg, rootName, net, topics, status).run.log <= PlannedLog(SortByKey(plan), cfg, rootName, topics)
  {
    if status != Some(0) && TotalFiles(plan) > 0 {
      StoppedRunLog(SortByKey(plan), status.value, cfg, rootName, net, topics);
    } else {
      assert Start().log == [];
    }
  }

  /** After the path checks: an aborted run's counters balance and agree
      with the transport. */
  lemma TreeAbortedCounts(plan: Plan, cfg: Config, rootName: string, net: Transport, topics: Topics,
                          status: StatusFailure)
    requires UploadTree(plan, cfg, rootName, net, topics, status).Aborted?
    ensures Balanced(UploadTree(plan, cfg, rootName, net, topics, status).run.stats)
    ensures Tallied(UploadTree(plan, cfg, rootName, net, topics, status).run, net)
  {
    var run := UploadTree(plan, cfg, rootName, net, topics, status).run;
    if status != Some(0) && TotalFiles(plan) > 0 {
      assert run == StoppedRun(SortByKey(plan), status.value, cfg, rootName, net, topics);
      StoppedRunCounts(SortByKey(plan), status.value, cfg, rootName, net, topics);
    } else {
      assert run == Start();
      StartTallied(net);
    }
  }

  /** After the path checks: whether the run aborts and what it sent do not
      depend on the transport. */
  lemma TreeAbortedLog(plan: Plan, cfg: Config, rootName: string, net1: Transport, net2: Transport,
                       topics: Topics, status: StatusFailure)
    requires UploadTree(plan, cfg, rootName, net1, topics, status).Aborted?
    ensures UploadTree(plan, cfg, rootName, net2, topics, status).Aborted?
    ensures UploadTree(plan, cfg, rootName, net1, topics, status).run.log
            == UploadTree(plan, cfg, rootName, net2, topics, status).run.log
  {
    if status != Some(0) && TotalFiles(plan) > 0 {
      var order := SortByKey(plan);
      var c := status.value;
      if c <= Sum(order, FolderEdits) {
        StoppedFoldersLog(order, c - 1, cfg, rootName, net1, topics, Start());
        StoppedFoldersLog(order, c - 1, cfg, rootName, net2, topics, Start());
      } else {
        FoldersRequests(order, cfg, rootName, net1, topics, Start());
        FoldersRequests(order, cfg, rootName, net2, topics, Start());
      }
    }
  }

  // ---------------------------------------------------------------------
  // The whole command.

  /** The command aborts exactly when the path passes the checks and one of
      the status calls it makes raises. */
  lemma AbortedIffStatusFails(cfg: Config, args: seq<string>, isDir: bool, rootName: string,
                              walk: seq<WalkStep>, net: Transport, topics: Topics, status: StatusFailure)
    ensures UploadCommand(cfg, args, isDir, rootName, walk, net, topics, status).Aborted?
            <==> args != [] && PathAccepted(JoinArgs(args), isDir) && StatusFails(status, BuildPlan(walk))
  {
    TreeEnds(BuildPlan(walk), cfg, rootName, net, topics, status);
  }

  /** An aborted run sent a prefix of the planned requests, and its counters
      still balance: one success or failure per request sent, the
      successes being the calls the transport let through. */
  lemma AbortedRun(cfg: Config, args: seq<string>, isDir: bool, rootName: string,
                   walk: seq<WalkStep>, net: Transport, topics: Topics, status: StatusFailure)
    requires UploadCommand(cfg, args, isDir, rootName, walk, net, topics, status).Aborted?
    ensures var run := UploadCommand(cfg, args, isDir, rootName, walk, net, topics, status).run;
            && run.log <= PlannedLog(VisitOrder(walk), cfg, rootName, topics)
            && Balanced(run.stats)
            && run.stats.success + run.stats.failed == |run.log|
            && run.stats.success == Delivered(net, |run.log|)
  {
    TreeAbortedPrefix(BuildPlan(walk), cfg, rootName, net, topics, status);
    TreeAbortedCounts(BuildPlan(walk), cfg, rootName, net, topics, status);
  }

  /** When only the final report raises, the run behind it is the completed
      run: every planned request was sent and counted. */
  lemma FinalReportFailureKeepsTheRun(cfg: Config, args: seq<string>, isDir: bool, rootName: string,
                                      walk: seq<WalkStep>, net: Transport, topics: Topics)
    requires args != [] && PathAccepted(JoinArgs(args), isDir) && TotalFiles(BuildPlan(walk)) > 0
    ensures var o := UploadCommand(cfg, args, isDir, rootName, walk, net, topics, Some(StatusCalls(BuildPlan(walk)) - 1));
            var done := UploadCommand(cfg, args, isDir, rootName, walk, net, topics, None);
            && o.Aborted? && done.Completed? && o.run == done.run
  {
    SortPreservesSum(BuildPlan(walk), FolderEdits);
  }

  /** Whether a run aborts and which requests it sent before, do not depend
      on the transport. */
  lemma AbortedLogIgnoresTransport(cfg: Config, args: seq<string>, isDir: bool, rootName: string,
                                   walk: seq<WalkStep>, net1: Transport, net2: Transport, topics: Topics,
                                   status: StatusFailure)
    requires UploadCommand(cfg, args, isDir, rootName, walk, net1, topics, status).Aborted?
    ensures var o1 := UploadCommand(cfg, args, isDir, rootName, walk, net1, topics, status);
            var o2 := UploadCommand(cfg, args, isDir, rootName, walk, net2, topics, status);
            o2.Aborted? && o1.run.log == o2.run.log
  {
    TreeAbortedLog(BuildPlan(walk), cfg, rootName, net1, net2, topics, status);
  }
}
