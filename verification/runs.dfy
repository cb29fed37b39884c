/** Promises about the report of a completed `/upload`: how successes and
    failures follow from the transport, the order and coverage of the folder
    walk, the topic counters, the shape of every request, and why a failed
    topic creation leaves the uploads as they would be with topics off. */
module Runs {
  import opened Optional
  import opened Stats
  import opened Classifier
  import opened Sorting
  import opened Uploader
  import opened Command
  import opened Accounting
  import opened Delivery
  import opened LogShape
  import opened Properties

  // ---------------------------------------------------------------------
  // Successes and failures.

  /** `success` counts the requests the retry engine returned from, and
      every other request sent is a failure. */
  lemma CompletedTallies(cfg: Config, args: seq<string>, isDir: bool, rootName: string,
                         walk: seq<WalkStep>, net: Transport, topics: Topics, status: StatusFailure)
    requires UploadCommand(cfg, args, isDir, rootName, walk, net, topics, status).Completed?
    ensures var run := UploadCommand(cfg, args, isDir, rootName, walk, net, topics, status).run;
            && run.stats.success == Delivered(net, |run.log|)
            && run.stats.failed == |run.log| - run.stats.success
  {
    var run := UploadCommand(cfg, args, isDir, rootName, walk, net, topics, status).run;
    RunTallies(VisitOrder(walk), cfg, rootName, net, topics);
    CompletedRun(cfg, args, isDir, rootName, walk, net, topics, status);
    TalliedSplit(run, net);
  }

  /** Over a transport that never fails, nothing is counted as failed. */
  lemma ReliableRunFailsNothing(cfg: Config, args: seq<string>, isDir: bool, rootName: string,
                                walk: seq<WalkStep>, net: Transport, topics: Topics, status: StatusFailure)
    requires UploadCommand(cfg, args, isDir, rootName, walk, net, topics, status).Completed?
    requires Reliable(net)
    ensures var run := UploadCommand(cfg, args, isDir, rootName, walk, net, topics, status).run;
            run.stats.failed == 0 && run.stats.success == |run.log|
  {
    var run := UploadCommand(cfg, args, isDir, rootName, walk, net, topics, status).run;
    CompletedTallies(cfg, args, isDir, rootName, walk, net, topics, status);
    ReliableDeliversAll(net, |run.log|);
  }

  /** Over a transport that never fails, the final counters are determined
      by the plan alone: one skip per rejected file, one success per
      counted send, and no failure. */
  lemma ReliableReport(cfg: Config, args: seq<string>, isDir: bool, rootName: string,
                       walk: seq<WalkStep>, net: Transport, topics: Topics, status: StatusFailure)
    requires UploadCommand(cfg, args, isDir, rootName, walk, net, topics, status).Completed?
    requires Reliable(net)
    ensures var run := UploadCommand(cfg, args, isDir, rootName, walk, net, topics, status).run;
            var rejected := Sum(BuildPlan(walk), FolderRejected);
            var sends := Sum(BuildPlan(walk), FolderSends(cfg.albumMode, cfg.docGroup));
            run.stats == UploadStats(rejected + sends, sends, 0, rejected)
  {
    var run := UploadCommand(cfg, args, isDir, rootName, walk, net, topics, status).run;
    var plan := BuildPlan(walk);
    var rejected := Sum(plan, FolderRejected);
    var sends := Sum(plan, FolderSends(cfg.albumMode, cfg.docGroup));
    assert Balanced(run.stats) && run.stats.skipped == rejected && run.stats.success + run.stats.failed == sends by {
      CompletedCounts(cfg, args, isDir, rootName, walk, net, topics, status);
    }
    assert run.stats.failed == 0 by {
      ReliableRunFailsNothing(cfg, args, isDir, rootName, walk, net, topics, status);
    }
    CountersReport(run.stats, rejected, sends);
  }

  /** Balanced counters with a known number of skips and sends, none of
      them failed, are the whole report. */
  lemma CountersReport(s: UploadStats, rejected: nat, sends: nat)
    requires Balanced(s) && s.skipped == rejected && s.success + s.failed == sends && s.failed == 0
    ensures s == UploadStats(rejected + sends, sends, 0, rejected)
  {
  }

  /** Over a transport that is never reachable, every request sent is a
      failure. */
  lemma UnreachableRunSucceedsNothing(cfg: Config, args: seq<string>, isDir: bool, rootName: string,
                                      walk: seq<WalkStep>, net: Transport, topics: Topics, status: StatusFailure)
    requires UploadCommand(cfg, args, isDir, rootName, walk, net, topics, status).Completed?
    requires Unreachable(net)
    ensures var run := UploadCommand(cfg, args, isDir, rootName, walk, net, topics, status).run;
            run.stats.success == 0 && run.stats.failed == |run.log|
  {
    var run := UploadCommand(cfg, args, isDir, rootName, walk, net, topics, status).run;
    CompletedTallies(cfg, args, isDir, rootName, walk, net, topics, status);
    UnreachableDeliversNone(net, |run.log|);
  }

  // ---------------------------------------------------------------------
  // The folder walk.

  /** The keys of the folders of a plan that hold a file. */
  function OccupiedKeySet(plan: Plan): set<string>
  {
    set f | f in plan && Occupied(f) :: f.key
  }

  /** The loop visits exactly the occupied folders' keys. */
  lemma {:induction false} OccupiedKeysMembers(plan: Plan)
    ensures forall k :: k in OccupiedKeys(plan) <==> k in OccupiedKeySet(plan)
    decreases |plan|
  {
    if plan != [] {
      var n := |plan| - 1;
      var init := plan[..n];
      OccupiedKeysMembers(init);
      assert plan == init + [plan[n]];
      forall k ensures k in OccupiedKeySet(plan) <==> k in OccupiedKeySet(init) || (Occupied(plan[n]) && k == plan[n].key) {
        if k in OccupiedKeySet(plan) {
          var f :| f in plan && Occupied(f) && f.key == k;
          if f != plan[n] {
            assert f in init;
          }
        }
        if k in OccupiedKeySet(init) {
          var f :| f in init && Occupied(f) && f.key == k;
          assert f in plan;
        }
      }
    }
  }

  /** Every key visited within a plan is below a bound all its keys are
      below. */
  lemma {:induction false} OccupiedKeysBelow(plan: Plan, bound: string)
    requires forall i :: 0 <= i < |plan| ==> StrLt(plan[i].key, bound)
    ensures forall x :: 0 <= x < |OccupiedKeys(plan)| ==> StrLt(OccupiedKeys(plan)[x], bound)
    decreases |plan|
  {
    if plan != [] {
      var n := |plan| - 1;
      OccupiedKeysBelow(plan[..n], bound);
    }
  }

  /** Over a plan with strictly ascending keys, the visited keys are
      strictly ascending too. */
  lemma {:induction false} OccupiedKeysAscending(plan: Plan)
    requires forall i, j :: 0 <= i < j < |plan| ==> StrLt(plan[i].key, plan[j].key)
    ensures StrictlyAscending(OccupiedKeys(plan))
    decreases |plan|
  {
    if plan != [] {
      var n := |plan| - 1;
      var a := OccupiedKeys(plan[..n]);
      var b := if Occupied(plan[n]) then [plan[n].key] else [];
      OccupiedKeysAscending(plan[..n]);
      OccupiedKeysBelow(plan[..n], plan[n].key);
      var c := a + b;
      assert OccupiedKeys(plan) == c;
      forall i, j | 0 <= i < j < |c| ensures StrLt(c[i], c[j]) {
        if j < |a| {
          assert c[i] == a[i] && c[j] == a[j];
        } else {
          assert c[i] == a[i] && c[j] == plan[n].key;
        }
      }
    }
  }

  /** A completed run visits every folder that holds a file and no other,
      once each, in ascending key order — the top directory first. */
  lemma VisitsInOrder(cfg: Config, args: seq<string>, isDir: bool, rootName: string,
                      walk: seq<WalkStep>, net: Transport, topics: Topics, status: StatusFailure)
    requires UploadCommand(cfg, args, isDir, rootName, walk, net, topics, status).Completed?
    ensures var run := UploadCommand(cfg, args, isDir, rootName, walk, net, topics, status).run;
            && StrictlyAscending(run.visited)
            && (forall k :: k in run.visited <==> k in OccupiedKeySet(BuildPlan(walk)))
  {
    CompletedProgress(cfg, args, isDir, rootName, walk, net, topics, status);
    VisitOrderKeys(walk);
  }

  /** The occupied keys in visiting order are strictly ascending and are
      exactly the occupied keys of the scanned plan. */
  lemma VisitOrderKeys(walk: seq<WalkStep>)
    ensures StrictlyAscending(OccupiedKeys(VisitOrder(walk)))
    ensures forall k :: k in OccupiedKeys(VisitOrder(walk)) <==> k in OccupiedKeySet(BuildPlan(walk))
  {
    var plan := BuildPlan(walk);
    var order := SortByKey(plan);
    assert StrictlyAscending(OccupiedKeys(order)) by {
      BuildPlanKeysDistinct(walk);
      SortKeepsDistinct(plan);
      SortByKeySorted(plan);
      SortedDistinctAscending(order);
      OccupiedKeysAscending(order);
    }
    assert OccupiedKeySet(order) == OccupiedKeySet(plan) by {
      forall f ensures f in order <==> f in plan {
        assert f in order <==> f in multiset(order);
        assert f in plan <==> f in multiset(plan);
      }
    }
    OccupiedKeysMembers(order);
  }

  // ---------------------------------------------------------------------
  // Topics.

  /** No topic creation gets as far as a topic. */
  ghost predicate AllTopicsFail(topics: Topics)
  {
    forall name :: topics(name).NotCreated?
  }

  /** Topic names fit the service's limit and are never empty. */
  predicate NamesFit(names: seq<string>)
  {
    forall x :: 0 <= x < |names| ==> 0 < |names[x]| <= TopicNameLimit
  }

  lemma NamesFitAppend(a: seq<string>, b: seq<string>)
    requires NamesFit(a) && NamesFit(b)
    ensures NamesFit(a + b)
  {
    var c := a + b;
    forall x | 0 <= x < |c| ensures 0 < |c[x]| <= TopicNameLimit {
      if x < |a| { assert c[x] == a[x]; } else { assert c[x] == b[x - |a|]; }
    }
  }

  /** At most one topic attempt per visited folder and at most one created
      topic per attempt; none at all with topics off. */
  lemma {:induction false} TopicCountsBounded(plan: Plan, cfg: Config, topics: Topics)
    ensures CreatedCount(plan, cfg, topics) <= |TopicNames(plan, cfg)| <= |OccupiedKeys(plan)|
    ensures !cfg.topicsEnabled ==> |TopicNames(plan, cfg)| == 0
    ensures AllTopicsFail(topics) ==> CreatedCount(plan, cfg, topics) == 0
    decreases |plan|
  {
    if plan != [] {
      TopicCountsBounded(plan[..|plan| - 1], cfg, topics);
    }
  }

  /** Every name tried is a non-empty prefix of a folder key, at most 128
      characters long. */
  lemma {:induction false} TopicNamesFit(plan: Plan, cfg: Config)
    ensures NamesFit(TopicNames(plan, cfg))
    decreases |plan|
  {
    if plan != [] {
      var n := |plan| - 1;
      var b := if Occupied(plan[n]) && WantsTopic(cfg, plan[n].key) then [TopicName(plan[n].key)] else [];
      TopicNamesFit(plan[..n], cfg);
      assert NamesFit(b);
      NamesFitAppend(TopicNames(plan[..n], cfg), b);
    }
  }

  /** A completed run's topic counters: `topics_created` never exceeds the
      attempts, which never exceed the folders visited; with topics off there
      are none, and when every creation fails none is counted; each name
      tried fits the limit. */
  lemma CompletedTopics(cfg: Config, args: seq<string>, isDir: bool, rootName: string,
                        walk: seq<WalkStep>, net: Transport, topics: Topics, status: StatusFailure)
    requires UploadCommand(cfg, args, isDir, rootName, walk, net, topics, status).Completed?
    ensures var run := UploadCommand(cfg, args, isDir, rootName, walk, net, topics, status).run;
            && run.topicsCreated <= |run.topicAttempts| <= |run.visited|
            && (!cfg.topicsEnabled ==> |run.topicAttempts| == 0 && run.topicsCreated == 0)
            && (AllTopicsFail(topics) ==> run.topicsCreated == 0)
            && NamesFit(run.topicAttempts)
  {
    var order := VisitOrder(walk);
    CompletedRun(cfg, args, isDir, rootName, walk, net, topics, status);
    FoldersProgress(order, cfg, rootName, net, topics, Start());
    TopicCountsBounded(order, cfg, topics);
    TopicNamesFit(order, cfg);
  }

  // ---------------------------------------------------------------------
  // Requests.

  /** Every request of a completed run carries one to ten accepted files of
      a single kind; with topics off none goes to a forum thread. */
  lemma CompletedRequestsWellFormed(cfg: Config, args: seq<string>, isDir: bool, rootName: string,
                                    walk: seq<WalkStep>, net: Transport, topics: Topics, status: StatusFailure)
    requires UploadCommand(cfg, args, isDir, rootName, walk, net, topics, status).Completed?
    ensures var run := UploadCommand(cfg, args, isDir, rootName, walk, net, topics, status).run;
            && WellFormedLog(run.log)
            && (!cfg.topicsEnabled ==> AllTo(run.log, None))
  {
    CompletedLog(cfg, args, isDir, rootName, walk, net, topics, status);
    PlannedLogWellFormed(VisitOrder(walk), cfg, rootName, topics);
    if !cfg.topicsEnabled {
      TopicsOffNoThreads(VisitOrder(walk), cfg, rootName, topics);
    }
  }

  /** When every topic creation fails, each folder's uploads go to the main
      chat, exactly as with topics off. */
  lemma {:induction false} PlannedLogWithoutTopics(plan: Plan, cfg: Config, rootName: string, topics: Topics)
    requires AllTopicsFail(topics)
    ensures PlannedLog(plan, cfg, rootName, topics) == PlannedLog(plan, cfg.(topicsEnabled := false), rootName, topics)
    decreases |plan|
  {
    if plan != [] {
      var n := |plan| - 1;
      var f := plan[n];
      PlannedLogWithoutTopics(plan[..n], cfg, rootName, topics);
      assert TopicId(cfg, f.key, topics) == None;
      assert FolderLog(f, cfg, rootName, topics) == FolderLog(f, cfg.(topicsEnabled := false), rootName, topics);
    }
  }

  /** The whole report of a completed run follows from its requests and its
      plan: `total` is the sum of the other three, one skip per rejected
      file, one success per returned call, one failure per other request. */
  lemma CompletedReport(cfg: Config, args: seq<string>, isDir: bool, rootName: string,
                        walk: seq<WalkStep>, net: Transport, topics: Topics, status: StatusFailure)
    requires UploadCommand(cfg, args, isDir, rootName, walk, net, topics, status).Completed?
    ensures var run := UploadCommand(cfg, args, isDir, rootName, walk, net, topics, status).run;
            && Balanced(run.stats)
            && run.stats.skipped == Sum(BuildPlan(walk), FolderRejected)
            && run.stats.success + run.stats.failed == |run.log|
            && run.stats.success == Delivered(net, |run.log|)
  {
    CompletedCounts(cfg, args, isDir, rootName, walk, net, topics, status);
    CompletedTallies(cfg, args, isDir, rootName, walk, net, topics, status);
  }

  /** Two balanced reports that agree on skips, requests and deliveries are
      the same report. */
  lemma ReportDetermined(s: UploadStats, t: UploadStats)
    requires Balanced(s) && Balanced(t)
    requires s.skipped == t.skipped && s.success == t.success
    requires s.success + s.failed == t.success + t.failed
    ensures s == t
  {
  }

  /** What a completed run records about folders and topics. */
  lemma CompletedProgress(cfg: Config, args: seq<string>, isDir: bool, rootName: string,
                          walk: seq<WalkStep>, net: Transport, topics: Topics, status: StatusFailure)
    requires UploadCommand(cfg, args, isDir, rootName, walk, net, topics, status).Completed?
    ensures var run := UploadCommand(cfg, args, isDir, rootName, walk, net, topics, status).run;
            && run.visited == OccupiedKeys(VisitOrder(walk))
            && run.topicsCreated == CreatedCount(VisitOrder(walk), cfg, topics)
  {
    CompletedRun(cfg, args, isDir, rootName, walk, net, topics, status);
    FoldersProgress(VisitOrder(walk), cfg, rootName, net, topics, Start());
  }

  /** With every topic creation failing, a completed run sends what it would
      send with topics off. */
  lemma TopicFailureSameRequests(cfg: Config, args: seq<string>, isDir: bool, rootName: string,
                                 walk: seq<WalkStep>, net: Transport, topics: Topics, status: StatusFailure)
    requires AllTopicsFail(topics)
    requires UploadCommand(cfg, args, isDir, rootName, walk, net, topics, status).Completed?
    ensures var o' := UploadCommand(cfg.(topicsEnabled := false), args, isDir, rootName, walk, net, topics, status);
            && o'.Completed?
            && UploadCommand(cfg, args, isDir, rootName, walk, net, topics, status).run.log == o'.run.log
  {
    var cfg' := cfg.(topicsEnabled := false);
    TopicsDoNotChangeTheEnd(cfg, args, isDir, rootName, walk, net, topics, status);
    CompletedLog(cfg, args, isDir, rootName, walk, net, topics, status);
    CompletedLog(cfg', args, isDir, rootName, walk, net, topics, status);
    PlannedLogWithoutTopics(VisitOrder(walk), cfg, rootName, topics);
  }

  /** Whether the command gets as far as uploading does not depend on the
      topic settings. */
  lemma TopicsDoNotChangeTheEnd(cfg: Config, args: seq<string>, isDir: bool, rootName: string,
                                walk: seq<WalkStep>, net: Transport, topics: Topics, status: StatusFailure)
    ensures var o := UploadCommand(cfg, args, isDir, rootName, walk, net, topics, status);
            var o' := UploadCommand(cfg.(topicsEnabled := false), args, isDir, rootName, walk, net, topics, status);
            && o.Completed? == o'.Completed?
            && o.Aborted? == o'.Aborted?
            && (!o.Completed? && !o.Aborted? ==> o == o')
  {
  }

  /** A topic creation that fails is harmless: a completed run sends the
      same requests, reports the same counters and visits the same folders
      as with topics off, and counts no topic as created. */
  lemma TopicFailureHarmless(cfg: Config, args: seq<string>, isDir: bool, rootName: string,
                             walk: seq<WalkStep>, net: Transport, topics: Topics, status: StatusFailure)
    requires cfg.topicsEnabled && AllTopicsFail(topics)
    requires UploadCommand(cfg, args, isDir, rootName, walk, net, topics, status).Completed?
    ensures var run := UploadCommand(cfg, args, isDir, rootName, walk, net, topics, status).run;
            var o' := UploadCommand(cfg.(topicsEnabled := false), args, isDir, rootName, walk, net, topics, status);
            && o'.Completed?
            && run.log == o'.run.log
            && run.stats == o'.run.stats
            && run.visited == o'.run.visited
            && run.topicsCreated == 0 == o'.run.topicsCreated
  {
    var cfg' := cfg.(topicsEnabled := false);
    TopicFailureSameRequests(cfg, args, isDir, rootName, walk, net, topics, status);
    CompletedReport(cfg, args, isDir, rootName, walk, net, topics, status);
    CompletedReport(cfg', args, isDir, rootName, walk, net, topics, status);
    ReportDetermined(UploadCommand(cfg, args, isDir, rootName, walk, net, topics, status).run.stats,
                     UploadCommand(cfg', args, isDir, rootName, walk, net, topics, status).run.stats);
    CompletedProgress(cfg, args, isDir, rootName, walk, net, topics, status);
    CompletedProgress(cfg', args, isDir, rootName, walk, net, topics, status);
    TopicCountsBounded(VisitOrder(walk), cfg, topics);
    TopicCountsBounded(VisitOrder(walk), cfg', topics);
  }
}
