/** What a run adds to the counters and to the request log, phase by phase,
    folder by folder, and for the whole plan. The requests turn out not to
    depend on the transport at all: only the split between `success` and
    `failed` does. */
module Accounting {
  import opened Optional
  import opened Stats
  import opened Classifier
  import opened Batcher
  import opened Uploader
  import opened Command

  /** The number of requests a phase sends: one per group in grouped mode,
      one per accepted file otherwise. */
  function Sends(xs: seq<Item>, grouped: bool): nat
  {
    if grouped then |Groups(Slices(xs))| else |Accepted(xs)|
  }

  /** The requests of the image phase, decided by the plan alone. */
  function ImagesLog(images: seq<Item>, cfg: Config, captionFolder: string, topic: Option<nat>): seq<Request>
  {
    if cfg.albumMode then GroupLog(Slices(images), AlbumBuilder(cfg.albumCaptions, captionFolder), topic)
    else MapRequests(Accepted(images), PhotoRequest(cfg.imageCaptions, topic))
  }

  /** The requests of the document phase. */
  function DocumentsLog(docs: seq<Item>, cfg: Config, topic: Option<nat>): seq<Request>
  {
    if cfg.docGroup then GroupLog(Slices(docs), DocumentBuilder(cfg.docCaptions), topic)
    else MapRequests(Accepted(docs), DocumentRequest(cfg.docCaptions, topic))
  }

  /** The caption folder of an album: the top directory's own name for files
      at the top, the relative path otherwise. */
  function CaptionFolder(key: string, rootName: string): string
  {
    if key == [] then rootName else key
  }

  /** The requests of one folder: its images first, then its documents. */
  function FolderLog(f: Folder, cfg: Config, rootName: string, topics: Topics): seq<Request>
  {
    var topic := TopicId(cfg, f.key, topics);
    ImagesLog(f.bucket.images, cfg, CaptionFolder(f.key, rootName), topic)
      + DocumentsLog(f.bucket.documents, cfg, topic)
  }

  /** The requests of a whole plan, folder after folder. */
  function PlannedLog(plan: Plan, cfg: Config, rootName: string, topics: Topics): seq<Request>
    decreases |plan|
  {
    if plan == [] then []
    else
      var n := |plan| - 1;
      PlannedLog(plan[..n], cfg, rootName, topics) + FolderLog(plan[n], cfg, rootName, topics)
  }

  function FolderRejected(f: Folder): nat
  {
    RejectedCount(f.bucket.images) + RejectedCount(f.bucket.documents)
  }

  function FolderSends(albumMode: bool, docGroup: bool): Folder -> nat
  {
    (f: Folder) => Sends(f.bucket.images, albumMode) + Sends(f.bucket.documents, docGroup)
  }

  // ---------------------------------------------------------------------
  // One phase.

  lemma AlbumBuilderKeepsAccepted(captionOn: bool, captionFolder: string)
    ensures KeepsAccepted(AlbumBuilder(captionOn, captionFolder))
  {
    forall b: seq<Item> ensures MediaItems(AlbumBuilder(captionOn, captionFolder)(b)) == Accepted(b) {
      AlbumCaptionRule(b, captionOn, captionFolder);
    }
  }

  lemma DocumentBuilderKeepsAccepted(captionOn: bool)
    ensures KeepsAccepted(DocumentBuilder(captionOn))
  {
    forall b: seq<Item> ensures MediaItems(DocumentBuilder(captionOn)(b)) == Accepted(b) {
      DocumentCaptionRule(b, captionOn);
    }
  }

  /** Skips counted slice by slice add up to the skips of the whole list. */
  lemma RejectedInAllSlices(xs: seq<Item>)
    ensures RejectedInSlices(Slices(xs)) == RejectedCount(xs)
  {
    SlicesPartition(xs);
    RejectedInFlatten(Slices(xs));
  }

  /** The per-item and per-slice loops share one account: a skip for every
      rejected file, and a success or a failure for every request. */
  lemma {:induction false} PhaseAccounts(xs: seq<Item>, grouped: bool, mk: Item -> Request,
                                         media: seq<Item> -> seq<Media>, topic: Option<nat>,
                                         st: RunState, net: Transport)
    requires KeepsAccepted(media)
    ensures var r := if grouped then Grouped(Slices(xs), media, topic, st, net) else Individually(xs, mk, st, net);
            && r.stats.skipped == st.stats.skipped + RejectedCount(xs)
            && r.stats.success + r.stats.failed == st.stats.success + st.stats.failed + Sends(xs, grouped)
            && r.stats.total == st.stats.total + RejectedCount(xs) + Sends(xs, grouped)
            && SameProgress(r, st)
  {
    if grouped {
      GroupedAccounts(Slices(xs), media, topic, st, net);
      RejectedInAllSlices(xs);
    } else {
      IndividuallyAccounts(xs, mk, st, net);
      AcceptedPlusRejected(xs);
    }
  }

  /** The image phase's effect on the counters and the log. */
  lemma ImagesEffect(images: seq<Item>, cfg: Config, captionFolder: string, topic: Option<nat>,
                     st: RunState, net: Transport)
    ensures var r := UploadImages(images, cfg, captionFolder, topic, st, net);
            && r.log == st.log + ImagesLog(images, cfg, captionFolder, topic)
            && r.stats.skipped == st.stats.skipped + RejectedCount(images)
            && r.stats.success + r.stats.failed == st.stats.success + st.stats.failed + Sends(images, cfg.albumMode)
            && r.stats.total == st.stats.total + RejectedCount(images) + Sends(images, cfg.albumMode)
            && SameProgress(r, st)
  {
    var media := AlbumBuilder(cfg.albumCaptions, captionFolder);
    var mk := PhotoRequest(cfg.imageCaptions, topic);
    if images == [] {
      assert Slices(images) == [];
      assert Accepted(images) == [];
    } else {
      AlbumBuilderKeepsAccepted(cfg.albumCaptions, captionFolder);
      PhaseAccounts(images, cfg.albumMode, mk, media, topic, st, net);
      if cfg.albumMode {
        GroupedLog(Slices(images), media, topic, st, net);
      } else {
        IndividuallyLog(images, mk, st, net);
      }
    }
  }

  /** The document phase's effect on the counters and the log. */
  lemma DocumentsEffect(docs: seq<Item>, cfg: Config, topic: Option<nat>, st: RunState, net: Transport)
    ensures var r := UploadDocuments(docs, cfg, topic, st, net);
            && r.log == st.log + DocumentsLog(docs, cfg, topic)
            && r.stats.skipped == st.stats.skipped + RejectedCount(docs)
            && r.stats.success + r.stats.failed == st.stats.success + st.stats.failed + Sends(docs, cfg.docGroup)
            && r.stats.total == st.stats.total + RejectedCount(docs) + Sends(docs, cfg.docGroup)
            && SameProgress(r, st)
  {
    var media := DocumentBuilder(cfg.docCaptions);
    var mk := DocumentRequest(cfg.docCaptions, topic);
    if docs == [] {
      assert Slices(docs) == [];
      assert Accepted(docs) == [];
    } else {
      DocumentBuilderKeepsAccepted(cfg.docCaptions);
      PhaseAccounts(docs, cfg.docGroup, mk, media, topic, st, net);
      if cfg.docGroup {
        GroupedLog(Slices(docs), media, topic, st, net);
      } else {
        IndividuallyLog(docs, mk, st, net);
      }
    }
  }

  // ---------------------------------------------------------------------
  // One folder.

  /** The keys of the folders the loop works on, in loop order. */
  function OccupiedKeys(plan: Plan): seq<string>
    decreases |plan|
  {
    if plan == [] then []
    else
      var n := |plan| - 1;
      OccupiedKeys(plan[..n]) + (if Occupied(plan[n]) then [plan[n].key] else [])
  }

  /** The topic names tried, in loop order. */
  function TopicNames(plan: Plan, cfg: Config): seq<string>
    decreases |plan|
  {
    if plan == [] then []
    else
      var n := |plan| - 1;
      TopicNames(plan[..n], cfg)
        + (if Occupied(plan[n]) && WantsTopic(cfg, plan[n].key) then [TopicName(plan[n].key)] else [])
  }

  /** Whether the topic step counts a folder's topic as created. */
  predicate CountsTopic(f: Folder, cfg: Config, topics: Topics)
  {
    Occupied(f) && WantsTopic(cfg, f.key) && !topics(TopicName(f.key)).NotCreated?
  }

  /** The number of topics counted as created over a plan. */
  function CreatedCount(plan: Plan, cfg: Config, topics: Topics): nat
    decreases |plan|
  {
    if plan == [] then 0
    else
      var n := |plan| - 1;
      CreatedCount(plan[..n], cfg, topics) + (if CountsTopic(plan[n], cfg, topics) then 1 else 0)
  }

  /** A folder without files plans no requests and no skips. */
  lemma EmptyFolderPlansNothing(f: Folder, cfg: Config, rootName: string, topics: Topics)
    requires !Occupied(f)
    ensures FolderLog(f, cfg, rootName, topics) == []
    ensures FolderRejected(f) == 0 && FolderSends(cfg.albumMode, cfg.docGroup)(f) == 0
  {
    assert Slices(f.bucket.images) == [] && Slices(f.bucket.documents) == [];
    assert Accepted(f.bucket.images) == [] && Accepted(f.bucket.documents) == [];
  }

  /** One folder's effect on the counters: its skips, and one outcome per
      request. */
  lemma FolderAccounts(f: Folder, cfg: Config, rootName: string, net: Transport, topics: Topics, st: RunState)
    ensures var r := UploadFolder(f, cfg, rootName, net, topics, st);
            && r.stats.skipped == st.stats.skipped + FolderRejected(f)
            && r.stats.success + r.stats.failed == st.stats.success + st.stats.failed + FolderSends(cfg.albumMode, cfg.docGroup)(f)
            && r.stats.total == st.stats.total + FolderRejected(f) + FolderSends(cfg.albumMode, cfg.docGroup)(f)
  {
    if Occupied(f) {
      var topic := TopicId(cfg, f.key, topics);
      var cf := CaptionFolder(f.key, rootName);
      var st1 := OpenTopic(cfg, f.key, topics, st.(visited := st.visited + [f.key]));
      var st2 := UploadImages(f.bucket.images, cfg, cf, topic, st1, net);
      ImagesEffect(f.bucket.images, cfg, cf, topic, st1, net);
      DocumentsEffect(f.bucket.documents, cfg, topic, st2, net);
      assert st1.stats == st.stats;
      assert UploadFolder(f, cfg, rootName, net, topics, st) == UploadDocuments(f.bucket.documents, cfg, topic, st2, net);
      assert FolderSends(cfg.albumMode, cfg.docGroup)(f) == Sends(f.bucket.images, cfg.albumMode) + Sends(f.bucket.documents, cfg.docGroup);
    } else {
      EmptyFolderPlansNothing(f, cfg, rootName, topics);
    }
  }

  /** One folder's requests are exactly its planned requests, images first. */
  lemma FolderRequests(f: Folder, cfg: Config, rootName: string, net: Transport, topics: Topics, st: RunState)
    ensures UploadFolder(f, cfg, rootName, net, topics, st).log == st.log + FolderLog(f, cfg, rootName, topics)
  {
    if Occupied(f) {
      var topic := TopicId(cfg, f.key, topics);
      var cf := CaptionFolder(f.key, rootName);
      var st1 := OpenTopic(cfg, f.key, topics, st.(visited := st.visited + [f.key]));
      var st2 := UploadImages(f.bucket.images, cfg, cf, topic, st1, net);
      ImagesEffect(f.bucket.images, cfg, cf, topic, st1, net);
      DocumentsEffect(f.bucket.documents, cfg, topic, st2, net);
      var il := ImagesLog(f.bucket.images, cfg, cf, topic);
      var dl := DocumentsLog(f.bucket.documents, cfg, topic);
      var r := UploadFolder(f, cfg, rootName, net, topics, st);
      assert r == UploadDocuments(f.bucket.documents, cfg, topic, st2, net);
      assert r.log == st2.log + dl;
      assert st2.log == st.log + il;
      assert FolderLog(f, cfg, rootName, topics) == il + dl;
    } else {
      EmptyFolderPlansNothing(f, cfg, rootName, topics);
    }
  }

  /** One folder's effect on the progress record: the folder is listed and
      its topic tried only if it holds a file. */
  lemma FolderProgress(f: Folder, cfg: Config, rootName: string, net: Transport, topics: Topics, st: RunState)
    ensures var r := UploadFolder(f, cfg, rootName, net, topics, st);
            && r.visited == st.visited + (if Occupied(f) then [f.key] else [])
            && r.topicAttempts == st.topicAttempts
                 + (if Occupied(f) && WantsTopic(cfg, f.key) then [TopicName(f.key)] else [])
            && r.topicsCreated == st.topicsCreated + (if CountsTopic(f, cfg, topics) then 1 else 0)
  {
    if Occupied(f) {
      var topic := TopicId(cfg, f.key, topics);
      var cf := CaptionFolder(f.key, rootName);
      var st1 := OpenTopic(cfg, f.key, topics, st.(visited := st.visited + [f.key]));
      var st2 := UploadImages(f.bucket.images, cfg, cf, topic, st1, net);
      ImagesEffect(f.bucket.images, cfg, cf, topic, st1, net);
      DocumentsEffect(f.bucket.documents, cfg, topic, st2, net);
    }
  }

  // ---------------------------------------------------------------------
  // The folder loop.

  /** The loop's counters are the sums of the folders' shares. */
  lemma {:induction false} FoldersAccounts(plan: Plan, cfg: Config, rootName: string, net: Transport,
                                           topics: Topics, st: RunState)
    ensures var r := Folders(plan, cfg, rootName, net, topics, st);
            && r.stats.skipped == st.stats.skipped + Sum(plan, FolderRejected)
            && r.stats.success + r.stats.failed == st.stats.success + st.stats.failed + Sum(plan, FolderSends(cfg.albumMode, cfg.docGroup))
            && r.stats.total == st.stats.total + Sum(plan, FolderRejected) + Sum(plan, FolderSends(cfg.albumMode, cfg.docGroup))
    decreases |plan|
  {
    if plan != [] {
      var n := |plan| - 1;
      var mid := Folders(plan[..n], cfg, rootName, net, topics, st);
      FoldersAccounts(plan[..n], cfg, rootName, net, topics, st);
      FolderAccounts(plan[n], cfg, rootName, net, topics, mid);
    }
  }

  /** The loop's requests are the planned requests, whatever the transport. */
  lemma {:induction false} FoldersRequests(plan: Plan, cfg: Config, rootName: string, net: Transport,
                                           topics: Topics, st: RunState)
    ensures Folders(plan, cfg, rootName, net, topics, st).log == st.log + PlannedLog(plan, cfg, rootName, topics)
    decreases |plan|
  {
    if plan != [] {
      var n := |plan| - 1;
      var mid := Folders(plan[..n], cfg, rootName, net, topics, st);
      FoldersRequests(plan[..n], cfg, rootName, net, topics, st);
      FolderRequests(plan[n], cfg, rootName, net, topics, mid);
      var r := Folders(plan, cfg, rootName, net, topics, st);
      assert r == UploadFolder(plan[n], cfg, rootName, net, topics, mid);
      var a := PlannedLog(plan[..n], cfg, rootName, topics);
      var b := FolderLog(plan[n], cfg, rootName, topics);
      assert r.log == mid.log + b;
      assert mid.log == st.log + a;
      assert PlannedLog(plan, cfg, rootName, topics) == a + b;
      AppendAssoc(st.log, a, b);
    }
  }

  /** The loop lists the occupied folders in plan order and tries a topic
      for each occupied sub-folder when topics are on. */
  lemma {:induction false} FoldersProgress(plan: Plan, cfg: Config, rootName: string, net: Transport,
                                           topics: Topics, st: RunState)
    ensures var r := Folders(plan, cfg, rootName, net, topics, st);
            && r.visited == st.visited + OccupiedKeys(plan)
            && r.topicAttempts == st.topicAttempts + TopicNames(plan, cfg)
            && r.topicsCreated == st.topicsCreated + CreatedCount(plan, cfg, topics)
    decreases |plan|
  {
    if plan != [] {
      var n := |plan| - 1;
      var mid := Folders(plan[..n], cfg, rootName, net, topics, st);
      FoldersProgress(plan[..n], cfg, rootName, net, topics, st);
      FolderProgress(plan[n], cfg, rootName, net, topics, mid);
    }
  }
}
