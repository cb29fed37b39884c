/** The shape of the planned requests: every file sent passed the screen,
    every group holds one to ten entries, a folder's image requests come
    before its document requests, and every request goes to the folder's
    topic. */
module LogShape {
  import opened Optional
  import opened Classifier
  import opened Batcher
  import opened Uploader
  import opened Command
  import opened Accounting

  /** Every request goes to the same thread. */
  predicate AllTo(rs: seq<Request>, topic: Option<nat>)
  {
    forall j :: 0 <= j < |rs| ==> rs[j].topic == topic
  }

  predicate AllImages(rs: seq<Request>)
  {
    forall j :: 0 <= j < |rs| ==> IsImageRequest(rs[j])
  }

  predicate AllDocuments(rs: seq<Request>)
  {
    forall j :: 0 <= j < |rs| ==> IsDocumentRequest(rs[j])
  }

  lemma WellFormedLogAppend(a: seq<Request>, b: seq<Request>)
    requires WellFormedLog(a) && WellFormedLog(b)
    ensures WellFormedLog(a + b)
  {
    var c := a + b;
    forall j | 0 <= j < |c| ensures WellFormedRequest(c[j]) {
      if j < |a| { assert c[j] == a[j]; } else { assert c[j] == b[j - |a|]; }
    }
  }

  /** The requests of the per-item loop: one file each, accepted. */
  lemma OneByOneWellFormed(xs: seq<Item>, mk: Item -> Request)
    requires forall it :: RequestItems(mk(it)) == [it] && !mk(it).SendMediaGroup?
    ensures WellFormedLog(MapRequests(Accepted(xs), mk))
  {
    var rs := MapRequests(Accepted(xs), mk);
    forall j | 0 <= j < |rs| ensures WellFormedRequest(rs[j]) {
      var it := Accepted(xs)[j];
      assert rs[j] == mk(it);
      assert RequestItems(rs[j]) == [it];
    }
  }

  /** The requests of the per-slice loop: one to ten accepted files each. */
  lemma GroupsWellFormed(xs: seq<Item>, media: seq<Item> -> seq<Media>, topic: Option<nat>)
    requires KeepsAccepted(media)
    ensures WellFormedLog(GroupLog(Slices(xs), media, topic))
  {
    var rs := GroupLog(Slices(xs), media, topic);
    var g := Groups(Slices(xs));
    GroupLogItems(Slices(xs), media, topic);
    GroupsBounded(xs);
    forall j | 0 <= j < |rs| ensures WellFormedRequest(rs[j]) {
      var items := RequestItems(rs[j]);
      assert items == g[j];
      assert |items| == |rs[j].media|;
      forall m | 0 <= m < |items| ensures Screen(items[m]) == Accept {
        assert g[j][m].size <= MaxFileSize && g[j][m].readable;
      }
    }
  }

  lemma AlbumBuilderBuildsPhotos(captionOn: bool, captionFolder: string)
    ensures BuildsKind(AlbumBuilder(captionOn, captionFolder), true)
  {
    forall b: seq<Item>, j | 0 <= j < |AlbumBuilder(captionOn, captionFolder)(b)|
      ensures AlbumBuilder(captionOn, captionFolder)(b)[j].Photo?
    {
      AlbumCaptionRule(b, captionOn, captionFolder);
    }
  }

  lemma DocumentBuilderBuildsDocuments(captionOn: bool)
    ensures BuildsKind(DocumentBuilder(captionOn), false)
  {
    forall b: seq<Item>, j | 0 <= j < |DocumentBuilder(captionOn)(b)|
      ensures !DocumentBuilder(captionOn)(b)[j].Photo?
    {
      DocumentCaptionRule(b, captionOn);
    }
  }

  /** The image phase sends only images, only to the folder's thread, and
      only well-formed requests. */
  lemma ImagesLogShape(images: seq<Item>, cfg: Config, captionFolder: string, topic: Option<nat>)
    ensures var rs := ImagesLog(images, cfg, captionFolder, topic);
            AllImages(rs) && AllTo(rs, topic) && WellFormedLog(rs)
  {
    var rs := ImagesLog(images, cfg, captionFolder, topic);
    if cfg.albumMode {
      var media := AlbumBuilder(cfg.albumCaptions, captionFolder);
      AlbumBuilderKeepsAccepted(cfg.albumCaptions, captionFolder);
      AlbumBuilderBuildsPhotos(cfg.albumCaptions, captionFolder);
      GroupLogKinds(Slices(images), media, topic, true);
      GroupsWellFormed(images, media, topic);
    } else {
      OneByOneWellFormed(images, PhotoRequest(cfg.imageCaptions, topic));
    }
  }

  /** The document phase sends only documents, the same way. */
  lemma DocumentsLogShape(docs: seq<Item>, cfg: Config, topic: Option<nat>)
    ensures var rs := DocumentsLog(docs, cfg, topic);
            AllDocuments(rs) && AllTo(rs, topic) && WellFormedLog(rs)
  {
    if cfg.docGroup {
      DocumentGroupsShape(docs, cfg.docCaptions, topic);
    } else {
      OneByOneWellFormed(docs, DocumentRequest(cfg.docCaptions, topic));
    }
  }

  lemma DocumentGroupsShape(docs: seq<Item>, captionOn: bool, topic: Option<nat>)
    ensures var rs := GroupLog(Slices(docs), DocumentBuilder(captionOn), topic);
            AllDocuments(rs) && AllTo(rs, topic) && WellFormedLog(rs)
  {
    var media := DocumentBuilder(captionOn);
    var rs := GroupLog(Slices(docs), media, topic);
    DocumentBuilderKeepsAccepted(captionOn);
    DocumentBuilderBuildsDocuments(captionOn);
    GroupLogKinds(Slices(docs), media, topic, false);
    GroupsWellFormed(docs, media, topic);
    forall j | 0 <= j < |rs| ensures IsDocumentRequest(rs[j]) {
      assert rs[j].SendMediaGroup?;
      forall m | 0 <= m < |rs[j].media| ensures rs[j].media[m].Document? {
        assert !rs[j].media[m].Photo?;
      }
    }
  }

  /** Within a folder, every image request precedes every document request,
      and all of them go to the folder's topic — none at all for the top
      folder or with topics off. */
  lemma ImagesBeforeDocuments(f: Folder, cfg: Config, rootName: string, topics: Topics)
    ensures var rs := FolderLog(f, cfg, rootName, topics);
            var topic := TopicId(cfg, f.key, topics);
            var k := |ImagesLog(f.bucket.images, cfg, CaptionFolder(f.key, rootName), topic)|;
            && k <= |rs|
            && AllImages(rs[..k])
            && AllDocuments(rs[k..])
            && AllTo(rs, topic)
            && WellFormedLog(rs)
            && (!cfg.topicsEnabled || f.key == [] ==> topic.None?)
  {
    var topic := TopicId(cfg, f.key, topics);
    var il := ImagesLog(f.bucket.images, cfg, CaptionFolder(f.key, rootName), topic);
    var dl := DocumentsLog(f.bucket.documents, cfg, topic);
    ImagesLogShape(f.bucket.images, cfg, CaptionFolder(f.key, rootName), topic);
    DocumentsLogShape(f.bucket.documents, cfg, topic);
    var rs := FolderLog(f, cfg, rootName, topics);
    assert rs == il + dl;
    assert rs[..|il|] == il && rs[|il|..] == dl by {
      PartsOfAppend(il, dl);
    }
    WellFormedLogAppend(il, dl);
    AllToAppend(il, dl, topic);
  }

  lemma PartsOfAppend<T>(a: seq<T>, b: seq<T>)
    ensures (a + b)[..|a|] == a && (a + b)[|a|..] == b
  {
  }

  /** Every request a plan makes is well-formed. */
  lemma {:induction false} PlannedLogWellFormed(plan: Plan, cfg: Config, rootName: string, topics: Topics)
    ensures WellFormedLog(PlannedLog(plan, cfg, rootName, topics))
    decreases |plan|
  {
    if plan != [] {
      var n := |plan| - 1;
      PlannedLogWellFormed(plan[..n], cfg, rootName, topics);
      ImagesBeforeDocuments(plan[n], cfg, rootName, topics);
      WellFormedLogAppend(PlannedLog(plan[..n], cfg, rootName, topics), FolderLog(plan[n], cfg, rootName, topics));
    }
  }

  /** With topics off, no request of a plan goes to a forum thread. */
  lemma {:induction false} TopicsOffNoThreads(plan: Plan, cfg: Config, rootName: string, topics: Topics)
    requires !cfg.topicsEnabled
    ensures AllTo(PlannedLog(plan, cfg, rootName, topics), None)
    decreases |plan|
  {
    if plan != [] {
      var n := |plan| - 1;
      var a := PlannedLog(plan[..n], cfg, rootName, topics);
      var b := FolderLog(plan[n], cfg, rootName, topics);
      TopicsOffNoThreads(plan[..n], cfg, rootName, topics);
      ImagesBeforeDocuments(plan[n], cfg, rootName, topics);
      assert PlannedLog(plan, cfg, rootName, topics) == a + b;
      AllToAppend(a, b, None);
    }
  }

  lemma AllToAppend(a: seq<Request>, b: seq<Request>, topic: Option<nat>)
    requires AllTo(a, topic) && AllTo(b, topic)
    ensures AllTo(a + b, topic)
  {
    var c := a + b;
    forall j | 0 <= j < |c| ensures c[j].topic == topic {
      if j < |a| { assert c[j] == a[j]; } else { assert c[j] == b[j - |a|]; }
    }
  }
}
