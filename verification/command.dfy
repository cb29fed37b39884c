/** `upload_command`: argument and path checks, the scan into buckets, the
    empty-folder stop, and the sorted walk over the buckets with optional
    forum topics, images before documents in each folder. */
module Command {
  import opened Optional
  import opened Paths
  import opened Stats
  import opened Retry
  import opened Classifier
  import opened Batcher
  import opened Sorting
  import opened Uploader

  /** The longest topic name the service accepts. */
  const TopicNameLimit: nat := 128

  /** The topic name for a sub-folder: its relative path cut to the limit. */
  function TopicName(key: string): (n: string)
    ensures |n| <= TopicNameLimit
    ensures |n| <= |key| && n == key[..|n|]
    ensures |n| == if |key| <= TopicNameLimit then |key| else TopicNameLimit
  {
    if |key| <= TopicNameLimit then key else key[..TopicNameLimit]
  }

  /** What topic creation does for a name: the forum check, the permission
      check, the creation and the header message, reduced to their end. */
  type Topics = string -> TopicOutcome

  /** A folder gets a topic attempt exactly when topics are on and the folder
      is not the top directory. */
  predicate WantsTopic(cfg: Config, key: string)
  {
    cfg.topicsEnabled && key != []
  }

  /** The thread the folder's uploads go to: only a topic whose header
      message went out keeps its id. */
  function TopicId(cfg: Config, key: string, topics: Topics): (t: Option<nat>)
    ensures t.Some? ==> WantsTopic(cfg, key) && topics(TopicName(key)) == Created(t.value)
    ensures WantsTopic(cfg, key) && topics(TopicName(key)).Created? ==> t == Some(topics(TopicName(key)).id)
  {
    if WantsTopic(cfg, key) && topics(TopicName(key)).Created? then Some(topics(TopicName(key)).id) else None
  }

  /** Record the topic attempt for a folder: the name tried, and one more
      created topic unless creation itself failed. */
  function OpenTopic(cfg: Config, key: string, topics: Topics, st: RunState): (r: RunState)
    ensures r.stats == st.stats && r.log == st.log && r.sleeps == st.sleeps && r.visited == st.visited
    ensures r.topicAttempts == st.topicAttempts + (if WantsTopic(cfg, key) then [TopicName(key)] else [])
    ensures r.topicsCreated == st.topicsCreated
              + (if WantsTopic(cfg, key) && !topics(TopicName(key)).NotCreated? then 1 else 0)
  {
    if WantsTopic(cfg, key) then
      var name := TopicName(key);
      st.(topicAttempts := st.topicAttempts + [name],
          topicsCreated := st.topicsCreated + if topics(name).NotCreated? then 0 else 1)
    else st
  }

  /** The one-second pause after a non-empty image or document phase. */
  function Cooldown(st: RunState): RunState
  {
    st.(sleeps := st.sleeps + [1])
  }

  /** The request for an individually sent image. */
  function PhotoRequest(captionOn: bool, topic: Option<nat>): Item -> Request
  {
    it => SendPhoto(it, if captionOn then Some(ImageCaption(it)) else None, topic)
  }

  /** The request for an individually sent document. */
  function DocumentRequest(captionOn: bool, topic: Option<nat>): Item -> Request
  {
    it => SendDocument(it, DocumentName(it), if captionOn then Some(DocumentName(it)) else None, topic)
  }

  /** The album builder: the caption is the top folder's name for files at
      the top, the bucket key otherwise. */
  function AlbumBuilder(captionOn: bool, captionFolder: string): seq<Item> -> seq<Media>
  {
    b => AlbumMedia(b, 0, captionOn, captionFolder)
  }

  function DocumentBuilder(captionOn: bool): seq<Item> -> seq<Media>
  {
    b => DocumentMedia(b, captionOn)
  }

  /** The image phase of a folder: albums or one request per image, then the
      pause; nothing at all for a folder without images. */
  function UploadImages(images: seq<Item>, cfg: Config, captionFolder: string, topic: Option<nat>,
                        st: RunState, net: Transport): RunState
  {
    if images == [] then st
    else if cfg.albumMode then Cooldown(Grouped(Slices(images), AlbumBuilder(cfg.albumCaptions, captionFolder), topic, st, net))
    else Cooldown(Individually(images, PhotoRequest(cfg.imageCaptions, topic), st, net))
  }

  /** The document phase of a folder, the same way. */
  function UploadDocuments(docs: seq<Item>, cfg: Config, topic: Option<nat>, st: RunState, net: Transport): RunState
  {
    if docs == [] then st
    else if cfg.docGroup then Cooldown(Grouped(Slices(docs), DocumentBuilder(cfg.docCaptions), topic, st, net))
    else Cooldown(Individually(docs, DocumentRequest(cfg.docCaptions, topic), st, net))
  }

  /** A folder is worked on only if it holds a file. */
  predicate Occupied(f: Folder)
  {
    f.bucket.images != [] || f.bucket.documents != []
  }

  /** One iteration of the folder loop. */
  function UploadFolder(f: Folder, cfg: Config, rootName: string, net: Transport, topics: Topics,
                        st: RunState): RunState
  {
    if !Occupied(f) then st
    else
      var st1 := OpenTopic(cfg, f.key, topics, st.(visited := st.visited + [f.key]));
      var topic := TopicId(cfg, f.key, topics);
      var captionFolder := if f.key == [] then rootName else f.key;
      var st2 := UploadImages(f.bucket.images, cfg, captionFolder, topic, st1, net);
      UploadDocuments(f.bucket.documents, cfg, topic, st2, net)
  }

  /** The folder loop over a plan, in plan order. */
  function Folders(plan: Plan, cfg: Config, rootName: string, net: Transport, topics: Topics,
                   st: RunState): RunState
    decreases |plan|
  {
    if plan == [] then st
    else
      var n := |plan| - 1;
      UploadFolder(plan[n], cfg, rootName, net, topics, Folders(plan[..n], cfg, rootName, net, topics, st))
  }

  /** The state right after `reset_stats`. */
  function Start(): (st: RunState)
    ensures st.stats == Reset()
    ensures |st.log| == 0 && |st.visited| == 0 && |st.topicAttempts| == 0 && st.topicsCreated == 0
  {
    RunState(Reset(), [], [], [], [], 0)
  }

  /** How the command ends. `Aborted` is the outer exception handler: a
      status-message call raised, and the counters stay where the run had
      brought them. */
  datatype Outcome =
    | MissingPath
    | InvalidPath
    | EmptyFolder
    | Completed(run: RunState)
    | Aborted(run: RunState)

  /** The status-message calls sit outside the retry loop and inside the
      command's outer `try`. Numbered in the order the command makes them:
      call 0 is `get_chat` with the first reply; then, for a tree without
      files, call 1 is the "Folder is empty" edit; otherwise each occupied
      folder makes one edit before its images and one before its documents,
      and the last call is the final report. `Some(c)` says call `c` is the
      first to raise; `None` says none does. */
  type StatusFailure = Option<nat>

  /** The status edits one folder makes: one per non-empty phase. */
  function FolderEdits(f: Folder): (n: nat)
    ensures n <= 2
    ensures n > 0 <==> Occupied(f)
  {
    (if f.bucket.images != [] then 1 else 0) + (if f.bucket.documents != [] then 1 else 0)
  }

  /** A folder whose edit number `j` raises: its topic block has run; its
      images went out only if the failing edit is the one before the
      documents. */
  function StoppedFolder(f: Folder, j: nat, cfg: Config, rootName: string, net: Transport, topics: Topics,
                         st: RunState): RunState
  {
    var st1 := OpenTopic(cfg, f.key, topics, st.(visited := st.visited + [f.key]));
    if j == 0 && f.bucket.images != [] then st1
    else
      var captionFolder := if f.key == [] then rootName else f.key;
      UploadImages(f.bucket.images, cfg, captionFolder, TopicId(cfg, f.key, topics), st1, net)
  }

  /** The folder loop when its status edit number `k` (from 0) raises: the
      folders before the one making that edit run in full, that one runs up
      to the edit, and nothing after it runs. */
  function StoppedFolders(plan: Plan, k: nat, cfg: Config, rootName: string, net: Transport, topics: Topics,
                          st: RunState): RunState
    requires k < Sum(plan, FolderEdits)
    decreases |plan|
  {
    var n := |plan| - 1;
    if k < Sum(plan[..n], FolderEdits) then StoppedFolders(plan[..n], k, cfg, rootName, net, topics, st)
    else StoppedFolder(plan[n], k - Sum(plan[..n], FolderEdits), cfg, rootName, net, topics,
                       Folders(plan[..n], cfg, rootName, net, topics, st))
  }

  /** The command arguments joined by single spaces. */
  function JoinArgs(args: seq<string>): (p: string)
    ensures args == [] ==> p == []
    ensures |args| == 1 ==> p == args[0]
    decreases |args|
  {
    if args == [] then []
    else if |args| == 1 then args[0]
    else args[0] + " " + JoinArgs(args[1..])
  }

  /** `str.split(c)`: the pieces between the occurrences of `c`, empty
      pieces included, so there is always at least one. */
  function SplitOn(s: string, c: char): (r: seq<string>)
    ensures |r| >= 1
    decreases |s|
  {
    if s == [] then [[]]
    else
      var rest := SplitOn(s[1..], c);
      if s[0] == c then [[]] + rest else [[s[0]] + rest[0]] + rest[1..]
  }

  /** A piece without the separator splits to itself. */
  lemma {:induction false} SplitOnPiece(w: string, c: char)
    requires c !in w
    ensures SplitOn(w, c) == [w]
    decreases |w|
  {
    if w != [] {
      SplitOnPiece(w[1..], c);
      assert [w[0]] + w[1..] == w;
    }
  }

  /** Splitting stops at the first separator. */
  lemma {:induction false} SplitOnFirst(w: string, t: string, c: char)
    requires c !in w
    ensures SplitOn(w + [c] + t, c) == [w] + SplitOn(t, c)
    decreases |w|
  {
    if w == [] {
      assert w + [c] + t == [c] + t;
      assert ([c] + t)[1..] == t;
    } else {
      assert (w + [c] + t)[1..] == w[1..] + [c] + t;
      SplitOnFirst(w[1..], t, c);
      assert [w[0]] + w[1..] == w;
    }
  }

  /** Joining arguments that hold no space and splitting the result on
      spaces gives the arguments back: the joined path loses nothing. */
  lemma {:induction false} JoinArgsRoundTrip(args: seq<string>)
    requires args != []
    requires forall i :: 0 <= i < |args| ==> ' ' !in args[i]
    ensures SplitOn(JoinArgs(args), ' ') == args
    decreases |args|
  {
    if |args| == 1 {
      SplitOnPiece(args[0], ' ');
    } else {
      JoinArgsRoundTrip(args[1..]);
      SplitOnFirst(args[0], JoinArgs(args[1..]), ' ');
      assert [args[0]] + args[1..] == args;
    }
  }

  /** The path check: no `..` anywhere in the text, and a directory. */
  predicate PathAccepted(path: string, isDir: bool)
  {
    !HasDotDot(path) && isDir
  }

  /** The whole command. `isDir` is what the file system says about the
      joined path, `rootName` is the base name of its absolute form, `walk`
      is its walk, top directory first, and `status` says which
      status-message call raises, if any. */
  function UploadCommand(cfg: Config, args: seq<string>, isDir: bool, rootName: string,
                         walk: seq<WalkStep>, net: Transport, topics: Topics, status: StatusFailure): (o: Outcome)
    ensures o.MissingPath? <==> args == []
    ensures o.InvalidPath? <==> args != [] && !PathAccepted(JoinArgs(args), isDir)
  {
    if args == [] then MissingPath
    else if !PathAccepted(JoinArgs(args), isDir) then InvalidPath
    else UploadTree(BuildPlan(walk), cfg, rootName, net, topics, status)
  }

  /** What follows the path checks: the opening status message, then the
      "Folder is empty" edit for a tree without files, otherwise the loop
      over the sorted plan and the final report. */
  function UploadTree(plan: Plan, cfg: Config, rootName: string, net: Transport, topics: Topics,
                      status: StatusFailure): Outcome
  {
    if status == Some(0) then Aborted(Start())
    else if TotalFiles(plan) == 0 then
      if status == Some(1) then Aborted(Start()) else EmptyFolder
    else
      var order := SortByKey(plan);
      if status.Some? && status.value <= Sum(order, FolderEdits) + 1 then
        Aborted(StoppedRun(order, status.value, cfg, rootName, net, topics))
      else Completed(Folders(order, cfg, rootName, net, topics, Start()))
  }

  /** Where the run stands when status call `c` (one to the number of
      per-phase edits plus one) raises: inside the loop for a per-phase
      edit, after it for the final report. */
  function StoppedRun(order: Plan, c: nat, cfg: Config, rootName: string, net: Transport, topics: Topics): RunState
    requires 1 <= c <= Sum(order, FolderEdits) + 1
  {
    if c <= Sum(order, FolderEdits) then StoppedFolders(order, c - 1, cfg, rootName, net, topics, Start())
    else Folders(order, cfg, rootName, net, topics, Start())
  }
}
