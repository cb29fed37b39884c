/** The upload orchestration of `upload_command` and its four upload
    routines, with the messaging service, the file system and the clock
    replaced by inputs (scripted call outcomes, per-entry facts) and outputs
    (the request log, the stats counters, the recorded sleeps). */
module Uploader {
  import opened Optional
  import opened Paths
  import opened Stats
  import opened Retry
  import opened Classifier
  import opened Batcher
  import opened Sorting

  /** The six per-chat toggles read at the start of a run. */
  datatype Config = Config(
    topicsEnabled: bool,
    albumMode: bool,
    docGroup: bool,
    albumCaptions: bool,
    docCaptions: bool,
    imageCaptions: bool)

  /** The values a chat that never toggled anything gets. */
  const Defaults: Config := Config(false, true, false, false, true, false)

  /** One entry of a media group: a photo with an optional caption, or a
      document sent under its file name with an optional caption. */
  datatype Media =
    | Photo(item: Item, caption: Option<string>)
    | Document(item: Item, fileName: string, caption: Option<string>)

  /** A retry-wrapped call to the messaging service; `topic` is the forum
      thread to post into, if any. */
  datatype Request =
    | SendPhoto(item: Item, caption: Option<string>, topic: Option<nat>)
    | SendDocument(item: Item, fileName: string, caption: Option<string>, topic: Option<nat>)
    | SendMediaGroup(media: seq<Media>, topic: Option<nat>)

  /** `net(k, i)`: what the service does on attempt `i` of call number `k`
      (calls are numbered from 0 in the order they are made). */
  type Transport = (nat, nat) -> CallOutcome<nat>

  /** What the topic-creation block ends with for a folder: no topic (not a
      forum, no permission, or creation raised), a topic whose header message
      was posted, or a topic created whose header message then raised — it
      is counted as created but uploads go to the default destination. */
  datatype TopicOutcome = NotCreated | Created(id: nat) | CreatedHeaderFailed

  /** Everything a run produces: the counters, the requests in order, the
      sleeps in order, the folders processed, and for topics the names of
      the folders whose topic block was entered (topics on, not the top
      folder; the name is actually built only in a forum chat where the bot
      may manage topics) and the number of topics counted as created. */
  datatype RunState = RunState(
    stats: UploadStats,
    log: seq<Request>,
    sleeps: seq<nat>,
    visited: seq<string>,
    topicAttempts: seq<string>,
    topicsCreated: nat)

  function MediaItems(ms: seq<Media>): (r: seq<Item>)
    ensures |r| == |ms|
    ensures forall j :: 0 <= j < |ms| ==> r[j] == ms[j].item
  {
    seq(|ms|, j requires 0 <= j < |ms| => ms[j].item)
  }

  /** The files a request uploads. */
  function RequestItems(r: Request): seq<Item>
  {
    match r
    case SendPhoto(it, _, _) => [it]
    case SendDocument(it, _, _, _) => [it]
    case SendMediaGroup(ms, _) => MediaItems(ms)
  }

  /** Requests that upload images and requests that upload documents. */
  predicate IsImageRequest(r: Request)
  {
    r.SendPhoto? || (r.SendMediaGroup? && forall j :: 0 <= j < |r.media| ==> r.media[j].Photo?)
  }

  predicate IsDocumentRequest(r: Request)
  {
    r.SendDocument? || (r.SendMediaGroup? && forall j :: 0 <= j < |r.media| ==> r.media[j].Document?)
  }

  /** A request the source can issue: every file in it passed the screen, and
      a media group holds between one and ten entries. */
  predicate WellFormedRequest(r: Request)
  {
    && (forall j :: 0 <= j < |RequestItems(r)| ==> Screen(RequestItems(r)[j]) == Accept)
    && (r.SendMediaGroup? ==> 1 <= |r.media| <= BatchSize)
  }

  predicate WellFormedLog(log: seq<Request>)
  {
    forall j :: 0 <= j < |log| ==> WellFormedRequest(log[j])
  }

  /** Issue one request through the retry engine and record its outcome:
      `success` when the engine returned, `failed` when it raised. */
  function Send(st: RunState, req: Request, net: Transport): (r: RunState)
    ensures r.log == st.log + [req]
    ensures r.stats.total == st.stats.total + 1
    ensures r.stats.skipped == st.stats.skipped
    ensures r.stats.success + r.stats.failed == st.stats.success + st.stats.failed + 1
    ensures r.visited == st.visited && r.topicAttempts == st.topicAttempts && r.topicsCreated == st.topicsCreated
  {
    var attempt := CallWithRetry(net, |st.log|);
    var action := if attempt.result.Returned? then Success else Failed;
    st.(stats := Update(st.stats, action), log := st.log + [req], sleeps := st.sleeps + attempt.sleeps)
  }

  /** Call number `k`, wrapped in the retry engine. */
  function CallWithRetry(net: Transport, k: nat): Retry.Run<nat>
  {
    RetryWithBackoff((i: nat) => net(k, i))
  }

  /** Record a skipped file. */
  function Skip(st: RunState): RunState
  {
    st.(stats := Update(st.stats, Skipped))
  }

  /** The per-item loop shared by `upload_images_individual` and
      `upload_documents`: screen each file, skip it or send it alone. */
  function Individually(items: seq<Item>, mk: Item -> Request, st: RunState, net: Transport): RunState
    decreases |items|
  {
    if items == [] then st
    else
      var st' := if Screen(items[0]) == Accept then Send(st, mk(items[0]), net) else Skip(st);
      Individually(items[1..], mk, st', net)
  }

  /** The per-slice loop shared by `upload_media_groups` and
      `upload_document_groups`: skip each rejected file of the slice, build
      the group from the others, and send the group if it is not empty. */
  function Grouped(ss: seq<seq<Item>>, media: seq<Item> -> seq<Media>, topic: Option<nat>,
                   st: RunState, net: Transport): RunState
    decreases |ss|
  {
    if ss == [] then st
    else
      var st1 := SkipRejected(ss[0], st);
      var group := media(ss[0]);
      var st2 := if group == [] then st1 else Send(st1, SendMediaGroup(group, topic), net);
      Grouped(ss[1..], media, topic, st2, net)
  }

  function SkipRejected(batch: seq<Item>, st: RunState): (r: RunState)
    ensures r.stats.total == st.stats.total + RejectedCount(batch)
    ensures r.stats.skipped == st.stats.skipped + RejectedCount(batch)
    ensures r.stats.success == st.stats.success && r.stats.failed == st.stats.failed
    ensures r.log == st.log && r.visited == st.visited
    ensures r.topicAttempts == st.topicAttempts && r.topicsCreated == st.topicsCreated
    decreases |batch|
  {
    if batch == [] then st
    else SkipRejected(batch[1..], if Screen(batch[0]) == Accept then st else Skip(st))
  }

  // ---------------------------------------------------------------------
  // Captions.

  /** Caption of an individually sent image: the name of the directory
      holding the file, or "Root" for a file at the top. */
  function ImageCaption(it: Item): string
  {
    var parent := Dirname(RelPath(it));
    if parent != [] then Basename(parent) else "Root"
  }

  /** The name a document is sent under, and its caption. */
  function DocumentName(it: Item): string
  {
    Basename(RelPath(it))
  }

  predicate WellFormedItem(it: Item)
  {
    IsRelDir(it.dir) && IsFileName(it.name)
  }

  /** An image's caption names its immediate parent directory: the last
      component of its bucket key, or "Root" for the top directory. */
  lemma ImageCaptionNamesParent(it: Item)
    requires WellFormedItem(it)
    ensures ImageCaption(it) == if it.dir == [] then "Root" else Basename(it.dir)
    ensures Sep !in ImageCaption(it)
  {
    JoinSplitRoundTrip(it.dir, it.name);
  }

  /** A document is named and captioned with its bare file name. */
  lemma DocumentNameIsFileName(it: Item)
    requires WellFormedItem(it)
    ensures DocumentName(it) == it.name
  {
    JoinSplitRoundTrip(it.dir, it.name);
  }

  /** The album built from a slice: accepted files in slice order, the
      caption on the entry built from position 0 of the unfiltered slice. */
  function AlbumMedia(batch: seq<Item>, idx: nat, captionOn: bool, folder: string): seq<Media>
    requires idx <= |batch|
    decreases |batch| - idx
  {
    if idx == |batch| then []
    else
      (if Screen(batch[idx]) == Accept
       then [Photo(batch[idx], if captionOn && idx == 0 then Some(folder) else None)]
       else [])
      + AlbumMedia(batch, idx + 1, captionOn, folder)
  }

  /** The document group built from a slice: accepted files in slice order,
      each under its file name and, when captions are on, captioned with it. */
  function DocumentMedia(batch: seq<Item>, captionOn: bool): seq<Media>
  {
    if batch == [] then []
    else
      (if Screen(batch[0]) == Accept
       then [Document(batch[0], DocumentName(batch[0]), if captionOn then Some(DocumentName(batch[0])) else None)]
       else [])
      + DocumentMedia(batch[1..], captionOn)
  }

  lemma MediaItemsAppend(a: seq<Media>, b: seq<Media>)
    ensures MediaItems(a + b) == MediaItems(a) + MediaItems(b)
  {
  }

  /** The album entries built from position `idx` on are the accepted
      files from there, in order. */
  lemma {:induction false} AlbumItemsFrom(batch: seq<Item>, idx: nat, captionOn: bool, folder: string)
    requires idx <= |batch|
    ensures MediaItems(AlbumMedia(batch, idx, captionOn, folder)) == Accepted(batch[idx..])
    decreases |batch| - idx
  {
    if idx == |batch| {
      assert batch[idx..] == [];
    } else {
      var rest := AlbumMedia(batch, idx + 1, captionOn, folder);
      var head := if Screen(batch[idx]) == Accept
                  then [Photo(batch[idx], if captionOn && idx == 0 then Some(folder) else None)]
                  else [];
      var tail := batch[idx..];
      var m := AlbumMedia(batch, idx, captionOn, folder);
      assert m == head + rest;
      assert MediaItems(m) == MediaItems(head) + MediaItems(rest) by {
        MediaItemsAppend(head, rest);
      }
      assert MediaItems(rest) == Accepted(tail[1..]) by {
        AlbumItemsFrom(batch, idx + 1, captionOn, folder);
        assert tail[1..] == batch[idx + 1..];
      }
      assert Accepted(tail) == MediaItems(head) + Accepted(tail[1..]) by {
        AcceptedCons(tail);
        assert MediaItems(head) == if Screen(tail[0]) == Accept then [tail[0]] else [];
      }
    }
  }

  lemma AcceptedCons(xs: seq<Item>)
    requires xs != []
    ensures Accepted(xs) == (if Screen(xs[0]) == Accept then [xs[0]] else []) + Accepted(xs[1..])
  {
  }

  /** Photos without a caption. */
  predicate PlainPhotos(m: seq<Media>)
  {
    forall j :: 0 <= j < |m| ==> m[j] == Photo(m[j].item, None)
  }

  lemma PlainPhotosAppend(a: seq<Media>, b: seq<Media>)
    requires PlainPhotos(a) && PlainPhotos(b)
    ensures PlainPhotos(a + b)
  {
    var c := a + b;
    forall j | 0 <= j < |c| ensures c[j] == Photo(c[j].item, None) {
      if j < |a| { assert c[j] == a[j]; } else { assert c[j] == b[j - |a|]; }
    }
  }

  /** Past position 0 no album entry carries a caption. */
  lemma {:induction false} AlbumPlainFrom(batch: seq<Item>, idx: nat, captionOn: bool, folder: string)
    requires 0 < idx <= |batch|
    ensures PlainPhotos(AlbumMedia(batch, idx, captionOn, folder))
    decreases |batch| - idx
  {
    if idx < |batch| {
      var head := if Screen(batch[idx]) == Accept then [Photo(batch[idx], None)] else [];
      AlbumPlainFrom(batch, idx + 1, captionOn, folder);
      PlainPhotosAppend(head, AlbumMedia(batch, idx + 1, captionOn, folder));
    }
  }

  /** The caption part of the album rule: all photos, and only an entry
      built from the slice's first file can carry the caption. */
  lemma AlbumCaptions(batch: seq<Item>, captionOn: bool, folder: string)
    ensures var m := AlbumMedia(batch, 0, captionOn, folder);
            && (forall j :: 0 <= j < |m| ==> m[j].Photo?)
            && (forall j :: 0 <= j < |m| ==>
                  (m[j].caption.Some? <==> j == 0 && captionOn && Screen(batch[0]) == Accept))
            && (forall j :: 0 <= j < |m| && m[j].caption.Some? ==> m[j].caption.value == folder)
  {
    if batch != [] {
      var m := AlbumMedia(batch, 0, captionOn, folder);
      var rest := AlbumMedia(batch, 1, captionOn, folder);
      var head := if Screen(batch[0]) == Accept then [Photo(batch[0], if captionOn then Some(folder) else None)] else [];
      AlbumPlainFrom(batch, 1, captionOn, folder);
      assert m == head + rest;
      forall j | 0 <= j < |m|
        ensures m[j].Photo?
        ensures m[j].caption.Some? <==> j == 0 && captionOn && Screen(batch[0]) == Accept
        ensures m[j].caption.Some? ==> m[j].caption.value == folder
      {
        if j >= |head| {
          assert m[j] == rest[j - |head|];
        } else {
          assert j == 0 && m[0] == head[0];
        }
      }
    }
  }

  /** The album caption rule: the album is the slice's accepted files in
      order, all photos, and only its first entry can carry the caption —
      when album captions are on and the slice's first file was not skipped.
      A skipped first file takes the caption with it. */
  lemma AlbumCaptionRule(batch: seq<Item>, captionOn: bool, folder: string)
    ensures var m := AlbumMedia(batch, 0, captionOn, folder);
            && MediaItems(m) == Accepted(batch)
            && (forall j :: 0 <= j < |m| ==> m[j].Photo?)
            && (forall j :: 0 <= j < |m| ==>
                  (m[j].caption.Some? <==> j == 0 && captionOn && Screen(batch[0]) == Accept))
            && (forall j :: 0 <= j < |m| && m[j].caption.Some? ==> m[j].caption.value == folder)
  {
    AlbumItemsFrom(batch, 0, captionOn, folder);
    assert batch[0..] == batch;
    AlbumCaptions(batch, captionOn, folder);
  }

  /** A document entry as the document groups build it. */
  predicate NamedDocuments(m: seq<Media>, captionOn: bool)
  {
    forall j :: 0 <= j < |m| ==>
      m[j].Document? && m[j].fileName == DocumentName(m[j].item)
      && m[j].caption == if captionOn then Some(DocumentName(m[j].item)) else None
  }

  lemma NamedDocumentsAppend(a: seq<Media>, b: seq<Media>, captionOn: bool)
    requires NamedDocuments(a, captionOn) && NamedDocuments(b, captionOn)
    ensures NamedDocuments(a + b, captionOn)
  {
    var c := a + b;
    forall j | 0 <= j < |c|
      ensures c[j].Document? && c[j].fileName == DocumentName(c[j].item)
      ensures c[j].caption == if captionOn then Some(DocumentName(c[j].item)) else None
    {
      if j < |a| { assert c[j] == a[j]; } else { assert c[j] == b[j - |a|]; }
    }
  }

  lemma {:induction false} DocumentItems(batch: seq<Item>, captionOn: bool)
    ensures MediaItems(DocumentMedia(batch, captionOn)) == Accepted(batch)
    decreases |batch|
  {
    if batch != [] {
      var it := batch[0];
      var head := if Screen(it) == Accept
                  then [Document(it, DocumentName(it), if captionOn then Some(DocumentName(it)) else None)]
                  else [];
      DocumentItems(batch[1..], captionOn);
      MediaItemsAppend(head, DocumentMedia(batch[1..], captionOn));
      assert MediaItems(head) == if Screen(it) == Accept then [it] else [];
    }
  }

  lemma {:induction false} DocumentEntries(batch: seq<Item>, captionOn: bool)
    ensures NamedDocuments(DocumentMedia(batch, captionOn), captionOn)
    decreases |batch|
  {
    if batch != [] {
      var it := batch[0];
      var head := if Screen(it) == Accept
                  then [Document(it, DocumentName(it), if captionOn then Some(DocumentName(it)) else None)]
                  else [];
      DocumentEntries(batch[1..], captionOn);
      NamedDocumentsAppend(head, DocumentMedia(batch[1..], captionOn), captionOn);
    }
  }

  /** The document group is the slice's accepted files in order, each named
      by its file name, captioned with it exactly when captions are on. */
  lemma DocumentCaptionRule(batch: seq<Item>, captionOn: bool)
    ensures var m := DocumentMedia(batch, captionOn);
            && MediaItems(m) == Accepted(batch)
            && (forall j :: 0 <= j < |m| ==>
                  m[j].Document? && m[j].fileName == DocumentName(m[j].item)
                  && m[j].caption == if captionOn then Some(DocumentName(m[j].item)) else None)
  {
    DocumentItems(batch, captionOn);
    DocumentEntries(batch, captionOn);
  }

  // ---------------------------------------------------------------------
  // Accounting of the two upload loops.

  /** The folder-level parts of the state are left alone. */
  predicate SameProgress(a: RunState, b: RunState)
  {
    a.visited == b.visited && a.topicAttempts == b.topicAttempts && a.topicsCreated == b.topicsCreated
  }

  /** The request built for each file, in order. */
  function MapRequests(xs: seq<Item>, mk: Item -> Request): (r: seq<Request>)
    ensures |r| == |xs|
    ensures forall j :: 0 <= j < |xs| ==> r[j] == mk(xs[j])
  {
    seq(|xs|, j requires 0 <= j < |xs| => mk(xs[j]))
  }

  /** Per-item mode: each file yields exactly one update — `skipped` when it
      fails the screen, otherwise `success` or `failed` for its one request. */
  lemma {:induction false} IndividuallyAccounts(items: seq<Item>, mk: Item -> Request, st: RunState, net: Transport)
    ensures var r := Individually(items, mk, st, net);
            && r.stats.total == st.stats.total + |items|
            && r.stats.skipped == st.stats.skipped + RejectedCount(items)
            && r.stats.success + r.stats.failed == st.stats.success + st.stats.failed + |Accepted(items)|
            && SameProgress(r, st)
    decreases |items|
  {
    if items != [] {
      var st' := if Screen(items[0]) == Accept then Send(st, mk(items[0]), net) else Skip(st);
      IndividuallyAccounts(items[1..], mk, st', net);
    }
  }

  /** The requests of the per-item loop are the accepted files' requests,
      in order, appended to the log. */
  lemma {:induction false} IndividuallyLog(items: seq<Item>, mk: Item -> Request, st: RunState, net: Transport)
    ensures Individually(items, mk, st, net).log == st.log + MapRequests(Accepted(items), mk)
    decreases |items|
  {
    if items == [] {
      assert MapRequests(Accepted(items), mk) == [];
    } else {
      var head := if Screen(items[0]) == Accept then [items[0]] else [];
      var st' := if Screen(items[0]) == Accept then Send(st, mk(items[0]), net) else Skip(st);
      var tail := Accepted(items[1..]);
      var r := Individually(items, mk, st, net);
      assert r == Individually(items[1..], mk, st', net);
      IndividuallyLog(items[1..], mk, st', net);
      assert r.log == st'.log + MapRequests(tail, mk);
      assert st'.log == st.log + MapRequests(head, mk);
      AppendAssoc(st.log, MapRequests(head, mk), MapRequests(tail, mk));
      MapRequestsAppend(head, tail, mk);
      assert Accepted(items) == head + tail;
    }
  }

  lemma AppendAssoc<T>(x: seq<T>, y: seq<T>, z: seq<T>)
    ensures (x + y) + z == x + (y + z)
  {
  }

  lemma MapRequestsAppend(a: seq<Item>, b: seq<Item>, mk: Item -> Request)
    ensures MapRequests(a + b, mk) == MapRequests(a, mk) + MapRequests(b, mk)
  {
  }

  /** The requests the per-slice loop issues: one media group for each slice
      whose group is not empty, in slice order. */
  function GroupLog(ss: seq<seq<Item>>, media: seq<Item> -> seq<Media>, topic: Option<nat>): (r: seq<Request>)
    ensures |r| <= |ss|
    ensures forall j :: 0 <= j < |r| ==> r[j].SendMediaGroup? && r[j].topic == topic && r[j].media != []
    decreases |ss|
  {
    if ss == [] then []
    else
      (if media(ss[0]) == [] then [] else [SendMediaGroup(media(ss[0]), topic)])
      + GroupLog(ss[1..], media, topic)
  }

  /** The group builders used by the source put exactly a slice's accepted
      files into its group. */
  ghost predicate KeepsAccepted(media: seq<Item> -> seq<Media>)
  {
    forall b :: MediaItems(media(b)) == Accepted(b)
  }

  /** Grouped mode: each slice adds one `skipped` per rejected file, and one
      `success` or `failed` for its group when the group is not empty — a
      group counts once however many files it holds. */
  lemma {:induction false} GroupedAccounts(ss: seq<seq<Item>>, media: seq<Item> -> seq<Media>, topic: Option<nat>,
                                           st: RunState, net: Transport)
    requires KeepsAccepted(media)
    ensures var r := Grouped(ss, media, topic, st, net);
            var g := Groups(ss);
            && r.stats.skipped == st.stats.skipped + RejectedInSlices(ss)
            && r.stats.success + r.stats.failed == st.stats.success + st.stats.failed + |g|
            && r.stats.total == st.stats.total + RejectedInSlices(ss) + |g|
            && SameProgress(r, st)
    decreases |ss|
  {
    if ss != [] {
      var st1 := SkipRejected(ss[0], st);
      var group := media(ss[0]);
      assert group == [] <==> Accepted(ss[0]) == [] by {
        assert |MediaItems(group)| == |group|;
      }
      var st2 := if group == [] then st1 else Send(st1, SendMediaGroup(group, topic), net);
      GroupedAccounts(ss[1..], media, topic, st2, net);
    }
  }

  /** The per-slice loop appends exactly its group requests to the log. */
  lemma {:induction false} GroupedLog(ss: seq<seq<Item>>, media: seq<Item> -> seq<Media>, topic: Option<nat>,
                                      st: RunState, net: Transport)
    ensures Grouped(ss, media, topic, st, net).log == st.log + GroupLog(ss, media, topic)
    decreases |ss|
  {
    if ss == [] {
    } else {
      var st1 := SkipRejected(ss[0], st);
      var group := media(ss[0]);
      var head := if group == [] then [] else [SendMediaGroup(group, topic)];
      var st2 := if group == [] then st1 else Send(st1, SendMediaGroup(group, topic), net);
      calc {
        Grouped(ss, media, topic, st, net).log;
        Grouped(ss[1..], media, topic, st2, net).log;
        { GroupedLog(ss[1..], media, topic, st2, net); }
        st2.log + GroupLog(ss[1..], media, topic);
        { assert st2.log == st.log + head; }
        st.log + head + GroupLog(ss[1..], media, topic);
        st.log + (head + GroupLog(ss[1..], media, topic));
        st.log + GroupLog(ss, media, topic);
      }
    }
  }

  /** With a builder that keeps the accepted files, the group requests are
      the slices' non-empty accepted subsequences, one request each. */
  lemma {:induction false} GroupLogItems(ss: seq<seq<Item>>, media: seq<Item> -> seq<Media>, topic: Option<nat>)
    requires KeepsAccepted(media)
    ensures var r := GroupLog(ss, media, topic);
            var g := Groups(ss);
            |r| == |g| && forall j :: 0 <= j < |r| ==> RequestItems(r[j]) == g[j]
    decreases |ss|
  {
    if ss != [] {
      GroupLogItems(ss[1..], media, topic);
      var group := media(ss[0]);
      assert MediaItems(group) == Accepted(ss[0]);
      assert group == [] <==> Accepted(ss[0]) == [] by {
        assert |MediaItems(group)| == |group|;
      }
      var r := GroupLog(ss, media, topic);
      var rest := GroupLog(ss[1..], media, topic);
      if group == [] {
        assert r == rest;
      } else {
        assert r == [SendMediaGroup(group, topic)] + rest;
        forall j | 0 <= j < |r| ensures RequestItems(r[j]) == Groups(ss)[j] {
          if j > 0 {
            assert r[j] == rest[j - 1];
          }
        }
      }
    }
  }

  /** The media entries of a group builder are all photos, or all documents. */
  ghost predicate BuildsKind(media: seq<Item> -> seq<Media>, photos: bool)
  {
    forall b, j :: 0 <= j < |media(b)| ==> media(b)[j].Photo? == photos
  }

  /** Every media group in the requests holds only photos, or only
      documents. */
  predicate GroupsOfKind(rs: seq<Request>, photos: bool)
  {
    forall j :: 0 <= j < |rs| && rs[j].SendMediaGroup? ==>
      forall m :: 0 <= m < |rs[j].media| ==> rs[j].media[m].Photo? == photos
  }

  lemma {:induction false} GroupLogKinds(ss: seq<seq<Item>>, media: seq<Item> -> seq<Media>, topic: Option<nat>, photos: bool)
    requires BuildsKind(media, photos)
    ensures GroupsOfKind(GroupLog(ss, media, topic), photos)
    decreases |ss|
  {
    if ss != [] {
      GroupLogKinds(ss[1..], media, topic, photos);
      var r := GroupLog(ss, media, topic);
      var rest := GroupLog(ss[1..], media, topic);
      var head := if media(ss[0]) == [] then [] else [SendMediaGroup(media(ss[0]), topic)];
      assert r == head + rest;
      assert GroupsOfKind(head, photos);
      GroupsOfKindAppend(head, rest, photos);
    }
  }

  lemma GroupsOfKindAppend(a: seq<Request>, b: seq<Request>, photos: bool)
    requires GroupsOfKind(a, photos) && GroupsOfKind(b, photos)
    ensures GroupsOfKind(a + b, photos)
  {
    var c := a + b;
    forall j | 0 <= j < |c| && c[j].SendMediaGroup?
      ensures forall m :: 0 <= m < |c[j].media| ==> c[j].media[m].Photo? == photos
    {
      if j < |a| { assert c[j] == a[j]; } else { assert c[j] == b[j - |a|]; }
    }
  }
}
