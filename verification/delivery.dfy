/** Which requests count as `success`: calls are numbered by their position
    in the request log, and call `k` succeeds exactly when the retry engine
    returns for it. Everything else that was sent counts as `failed`. */
module Delivery {
  import opened Optional
  import opened Stats
  import opened Classifier
  import opened Retry
  import opened Batcher
  import opened Uploader
  import opened Command

  /** How many of the calls numbered below `n` the retry engine returned
      from. */
  function Delivered(net: Transport, n: nat): (d: nat)
    ensures d <= n
  {
    if n == 0 then 0
    else Delivered(net, n - 1) + (if CallWithRetry(net, n - 1).result.Returned? then 1 else 0)
  }

  /** The counters agree with the transport: successes are the returned
      calls so far, and every call so far is a success or a failure. */
  predicate Tallied(st: RunState, net: Transport)
  {
    st.stats.success == Delivered(net, |st.log|) && st.stats.success + st.stats.failed == |st.log|
  }

  lemma TalliedSplit(st: RunState, net: Transport)
    requires Tallied(st, net)
    ensures st.stats.success == Delivered(net, |st.log|)
    ensures st.stats.failed == |st.log| - st.stats.success
  {
  }

  lemma SendTallies(st: RunState, req: Request, net: Transport)
    requires Tallied(st, net)
    ensures Tallied(Send(st, req, net), net)
  {
  }

  lemma {:induction false} IndividuallyTallies(items: seq<Item>, mk: Item -> Request, st: RunState, net: Transport)
    requires Tallied(st, net)
    ensures Tallied(Individually(items, mk, st, net), net)
    decreases |items|
  {
    if items != [] {
      var st' := if Screen(items[0]) == Accept then Send(st, mk(items[0]), net) else Skip(st);
      if Screen(items[0]) == Accept {
        SendTallies(st, mk(items[0]), net);
      }
      IndividuallyTallies(items[1..], mk, st', net);
    }
  }

  lemma {:induction false} GroupedTallies(ss: seq<seq<Item>>, media: seq<Item> -> seq<Media>, topic: Option<nat>,
                                          st: RunState, net: Transport)
    requires Tallied(st, net)
    ensures Tallied(Grouped(ss, media, topic, st, net), net)
    decreases |ss|
  {
    if ss != [] {
      var st1 := SkipRejected(ss[0], st);
      var group := media(ss[0]);
      var st2 := if group == [] then st1 else Send(st1, SendMediaGroup(group, topic), net);
      if group != [] {
        SendTallies(st1, SendMediaGroup(group, topic), net);
      }
      GroupedTallies(ss[1..], media, topic, st2, net);
    }
  }

  lemma FolderTallies(f: Folder, cfg: Config, rootName: string, net: Transport, topics: Topics, st: RunState)
    requires Tallied(st, net)
    ensures Tallied(UploadFolder(f, cfg, rootName, net, topics, st), net)
  {
    if Occupied(f) {
      var topic := TopicId(cfg, f.key, topics);
      var cf := if f.key == [] then rootName else f.key;
      var st1 := OpenTopic(cfg, f.key, topics, st.(visited := st.visited + [f.key]));
      assert Tallied(st1, net);
      var images := f.bucket.images;
      var docs := f.bucket.documents;
      if images != [] {
        if cfg.albumMode {
          GroupedTallies(Slices(images), AlbumBuilder(cfg.albumCaptions, cf), topic, st1, net);
        } else {
          IndividuallyTallies(images, PhotoRequest(cfg.imageCaptions, topic), st1, net);
        }
      }
      var st2 := UploadImages(images, cfg, cf, topic, st1, net);
      assert Tallied(st2, net);
      if docs != [] {
        if cfg.docGroup {
          GroupedTallies(Slices(docs), DocumentBuilder(cfg.docCaptions), topic, st2, net);
        } else {
          IndividuallyTallies(docs, DocumentRequest(cfg.docCaptions, topic), st2, net);
        }
      }
    }
  }

  lemma {:induction false} FoldersTally(plan: Plan, cfg: Config, rootName: string, net: Transport,
                                        topics: Topics, st: RunState)
    requires Tallied(st, net)
    ensures Tallied(Folders(plan, cfg, rootName, net, topics, st), net)
    decreases |plan|
  {
    if plan != [] {
      var n := |plan| - 1;
      FoldersTally(plan[..n], cfg, rootName, net, topics, st);
      FolderTallies(plan[n], cfg, rootName, net, topics, Folders(plan[..n], cfg, rootName, net, topics, st));
    }
  }

  /** The reset state balances and agrees with any transport: nothing sent,
      nothing counted. */
  lemma StartTallied(net: Transport)
    ensures Balanced(Start().stats) && Tallied(Start(), net)
  {
  }

  /** A run from the reset state keeps the tally throughout. */
  lemma RunTallies(plan: Plan, cfg: Config, rootName: string, net: Transport, topics: Topics)
    ensures Tallied(Folders(plan, cfg, rootName, net, topics, Start()), net)
  {
    FoldersTally(plan, cfg, rootName, net, topics, Start());
  }

  /** A transport whose first attempt at every call succeeds. */
  ghost predicate Reliable(net: Transport)
  {
    forall k: nat :: net(k, 0).Ok?
  }

  /** Over a reliable transport every call is delivered. */
  lemma {:induction false} ReliableDeliversAll(net: Transport, n: nat)
    requires Reliable(net)
    ensures Delivered(net, n) == n
  {
    if n > 0 {
      ReliableDeliversAll(net, n - 1);
      var k := n - 1;
      assert net(k, 0).Ok?;
      FirstOkReturned((i: nat) => net(k, i), net(k, 0).value);
    }
  }

  /** A transport on which every attempt of every call hits a network error. */
  ghost predicate Unreachable(net: Transport)
  {
    forall k: nat, i: nat :: net(k, i).Network?
  }

  /** Over a transport that is never reachable no call is delivered: each one
      is retried to exhaustion and raises its last network error. */
  lemma {:induction false} UnreachableDeliversNone(net: Transport, n: nat)
    requires Unreachable(net)
    ensures Delivered(net, n) == 0
  {
    if n > 0 {
      UnreachableDeliversNone(net, n - 1);
      var k := n - 1;
      AlwaysTransient((i: nat) => net(k, i));
    }
  }
}
