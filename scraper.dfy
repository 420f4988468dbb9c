/** `process_post` and `download_python_snippets`: one artifact file per
    Python post, written once, over a filesystem modelled as a map from
    path to file content. */
module Scraper {

  import opened Wrappers
  import opened Decimal
  import opened Posts
  import opened PostsLog
  import opened Snippets

  /** `f'{post_id}'`. */
  function IdText(id: PostId): (text: string)
  {
    match id
    case IntId(n) => IntToText(n)
    case StrId(s) => s
  }

  /** `posts_dir / f'{post_id}.py'`. */
  function OutFile(postsDir: string, id: PostId): string
  {
    postsDir + "/" + IdText(id) + ".py"
  }

  /** The artifact path parses back: the directory, a '/', the identifier's
      text, and the suffix ".py". */
  lemma OutFileParts(postsDir: string, id: PostId)
    ensures var path := OutFile(postsDir, id);
            && |path| == |postsDir| + 1 + |IdText(id)| + 3
            && path[..|postsDir|] == postsDir && path[|postsDir|] == '/'
            && path[|postsDir| + 1..|path| - 3] == IdText(id)
            && path[|path| - 3..] == ".py"
  {
  }

  /** Two posts share an artifact path only when their identifiers print
      the same. */
  lemma OutFileInjective(postsDir: string, a: PostId, b: PostId)
    requires OutFile(postsDir, a) == OutFile(postsDir, b)
    ensures IdText(a) == IdText(b)
  {
    OutFileParts(postsDir, a);
    OutFileParts(postsDir, b);
  }

  /** Distinct integer identifiers get distinct artifact paths. */
  lemma IntIdsHaveDistinctPaths(postsDir: string, m: int, n: int)
    requires m != n
    ensures OutFile(postsDir, IntId(m)) != OutFile(postsDir, IntId(n))
  {
    if OutFile(postsDir, IntId(m)) == OutFile(postsDir, IntId(n)) {
      OutFileInjective(postsDir, IntId(m), IntId(n));
      IntToTextInjective(m, n);
    }
  }

  /** A numeric identifier and a string identifier that prints the same share
      one artifact path. */
  lemma IntAndStrIdsShareAPath(postsDir: string)
    ensures OutFile(postsDir, IntId(5)) == OutFile(postsDir, StrId("5"))
  {
    assert NatToText(5) == "5";
  }

  /** What one call of `process_post` did. */
  datatype Outcome =
    | Skipped                  // the artifact existed: nothing was fetched
    | FetchFailed              // fetching the post raised
    | NoSnippets               // no snippet held more than four '\n'
    | Written(content: string) // the artifact was created with this text

  /** Whether fetched snippets lead to an artifact: the fetch succeeded and
      some snippet survives the length filter. */
  predicate Qualifies(fetched: Option<seq<string>>)
  {
    fetched.Some? && KeepLongSnippets(fetched.value) != []
  }

  /** The outcome of `process_post(id, postsDir)` on the filesystem `files`;
      `fetch` is `extract_python_code_snippets(habr.get_post_content(id))`,
      `None` when the fetch raises. */
  function PostOutcome(files: map<string, string>, postsDir: string, id: PostId,
                       fetch: PostId -> Option<seq<string>>): (o: Outcome)
    ensures o == Skipped <==> OutFile(postsDir, id) in files
    ensures o.Written? <==> OutFile(postsDir, id) !in files && Qualifies(fetch(id))
    ensures o.Written? ==> o.content == ArtifactContent(fetch(id).value)
    ensures o == FetchFailed <==> OutFile(postsDir, id) !in files && fetch(id).None?
    ensures o == NoSnippets <==>
              OutFile(postsDir, id) !in files && fetch(id).Some? && KeepLongSnippets(fetch(id).value) == []
  {
    if OutFile(postsDir, id) in files then Skipped
    else match fetch(id)
      case None => FetchFailed
      case Some(codes) =>
        if KeepLongSnippets(codes) == [] then NoSnippets else Written(ArtifactContent(codes))
  }

  /** The filesystem after `process_post(id, postsDir)`. The artifact exists
      afterwards exactly when it existed before or the post qualifies; an
      existing artifact keeps its content; a new one holds the kept snippets
      joined by the delimiter; no other path changes. */
  function AfterPost(files: map<string, string>, postsDir: string, id: PostId,
                     fetch: PostId -> Option<seq<string>>): (after: map<string, string>)
    ensures var path := OutFile(postsDir, id);
            && (path in after <==> path in files || Qualifies(fetch(id)))
            && (path in files ==> after[path] == files[path])
            && (path !in files && Qualifies(fetch(id)) ==>
                  after[path] == ArtifactContent(fetch(id).value))
    ensures forall q :: q != OutFile(postsDir, id) ==>
              (q in after <==> q in files) && (q in files ==> after[q] == files[q])
  {
    match PostOutcome(files, postsDir, id, fetch)
    case Written(content) => files[OutFile(postsDir, id) := content]
    case _ => files
  }

  /** After a call that wrote the artifact or found it, a second call for the
      same post skips without fetching and changes nothing, whatever the
      second fetch would return. */
  lemma SecondCallSkips(files: map<string, string>, postsDir: string, id: PostId,
                        fetch: PostId -> Option<seq<string>>, refetch: PostId -> Option<seq<string>>)
    requires PostOutcome(files, postsDir, id, fetch).Written? ||
             PostOutcome(files, postsDir, id, fetch) == Skipped
    ensures var after := AfterPost(files, postsDir, id, fetch);
            && PostOutcome(after, postsDir, id, refetch) == Skipped
            && AfterPost(after, postsDir, id, refetch) == after
  {
  }

  /** With the same fetched content, calling `process_post` twice has the
      effect of calling it once. */
  lemma ProcessPostIdempotent(files: map<string, string>, postsDir: string, id: PostId,
                              fetch: PostId -> Option<seq<string>>)
    ensures var after := AfterPost(files, postsDir, id, fetch);
            AfterPost(after, postsDir, id, fetch) == after
  {
  }

  /** A call that found no qualifying snippet, or whose fetch failed, leaves
      no trace: a later call fetches again and decides afresh. */
  lemma NoNegativeMarker(files: map<string, string>, postsDir: string, id: PostId,
                         fetch: PostId -> Option<seq<string>>, refetch: PostId -> Option<seq<string>>)
    requires !Qualifies(fetch(id))
    ensures AfterPost(files, postsDir, id, fetch) == files
    ensures PostOutcome(AfterPost(files, postsDir, id, fetch), postsDir, id, refetch) ==
            PostOutcome(files, postsDir, id, refetch)
  {
  }

  /** Calls for posts with distinct artifact paths are independent: either
      order gives the same outcomes and the same filesystem. */
  lemma PostsCommute(files: map<string, string>, postsDir: string, a: PostId, b: PostId,
                     fetch: PostId -> Option<seq<string>>)
    requires OutFile(postsDir, a) != OutFile(postsDir, b)
    ensures AfterPost(AfterPost(files, postsDir, a, fetch), postsDir, b, fetch) ==
            AfterPost(AfterPost(files, postsDir, b, fetch), postsDir, a, fetch)
    ensures PostOutcome(AfterPost(files, postsDir, a, fetch), postsDir, b, fetch) ==
            PostOutcome(files, postsDir, b, fetch)
  {
    var ab := AfterPost(AfterPost(files, postsDir, a, fetch), postsDir, b, fetch);
    var ba := AfterPost(AfterPost(files, postsDir, b, fetch), postsDir, a, fetch);
    assert forall q :: q in ab <==> q in ba;
    assert forall q :: q in ab ==> ab[q] == ba[q];
  }

  /** The files on disk: a map from path to text, which `write_text` updates. */
  class FileSystem {
    var files: map<string, string>

    constructor (initial: map<string, string>)
      ensures files == initial
    {
      files := initial;
    }

    predicate Exists(path: string)
      reads this
    {
      path in files
    }

    /** `Path.write_text`: creates or replaces the file at `path`. */
    method WriteText(path: string, text: string)
      modifies this
      ensures files == old(files)[path := text]
    {
      files := files[path := text];
    }
  }

  /** `process_post`: skips when the artifact exists; otherwise fetches the
      post's snippets, keeps those with more than four '\n', and writes them
      joined by the delimiter unless none is kept. */
  method ProcessPost(fs: FileSystem, postId: PostId, postsDir: string,
                     fetch: PostId -> Option<seq<string>>)
    returns (outcome: Outcome)
    modifies fs
    ensures outcome == PostOutcome(old(fs.files), postsDir, postId, fetch)
    ensures fs.files == AfterPost(old(fs.files), postsDir, postId, fetch)
  {
    var outFile := OutFile(postsDir, postId);
    if fs.Exists(outFile) {
      return Skipped;
    }
    var postContent := fetch(postId);
    if postContent.None? {
      return FetchFailed;
    }
    var codes := KeepLongSnippets(postContent.value);
    if codes == [] {
      return NoSnippets;
    }
    var content := Join(SNIPPETS_DELIMITER, codes);
    fs.WriteText(outFile, content);
    outcome := Written(content);
  }

  /** The filesystem after `process_post` has run for each post in turn. */
  function RunFiles(files: map<string, string>, postsDir: string, posts: seq<Post>,
                    fetch: PostId -> Option<seq<string>>): map<string, string>
    decreases |posts|
  {
    if posts == [] then files
    else
      var last := posts[|posts| - 1];
      AfterPost(RunFiles(files, postsDir, posts[..|posts| - 1], fetch), postsDir, last.id, fetch)
  }

  /** The outcomes of `process_post` for each post in turn. */
  function RunOutcomes(files: map<string, string>, postsDir: string, posts: seq<Post>,
                       fetch: PostId -> Option<seq<string>>): (outcomes: seq<Outcome>)
    ensures |outcomes| == |posts|
    decreases |posts|
  {
    if posts == [] then []
    else
      var init := posts[..|posts| - 1];
      RunOutcomes(files, postsDir, init, fetch) +
        [PostOutcome(RunFiles(files, postsDir, init, fetch), postsDir, posts[|posts| - 1].id, fetch)]
  }

  /** Running one more post extends the outcomes by that post's outcome
      and applies its write to the files. */
  lemma RunStep(files: map<string, string>, postsDir: string, posts: seq<Post>,
                fetch: PostId -> Option<seq<string>>, i: nat)
    requires i < |posts|
    ensures var before := RunFiles(files, postsDir, posts[..i], fetch);
            && RunOutcomes(files, postsDir, posts[..i + 1], fetch) ==
                 RunOutcomes(files, postsDir, posts[..i], fetch) + [PostOutcome(before, postsDir, posts[i].id, fetch)]
            && RunFiles(files, postsDir, posts[..i + 1], fetch) == AfterPost(before, postsDir, posts[i].id, fetch)
  {
    assert posts[..i + 1][..i] == posts[..i];
  }

  /** One outcome per post: the i-th is that of the i-th post on the
      filesystem the earlier posts left. */
  lemma {:induction false} RunOutcomesAt(files: map<string, string>, postsDir: string,
                                         posts: seq<Post>, fetch: PostId -> Option<seq<string>>, i: nat)
    requires i < |posts|
    ensures RunOutcomes(files, postsDir, posts, fetch)[i] ==
              PostOutcome(RunFiles(files, postsDir, posts[..i], fetch), postsDir, posts[i].id, fetch)
    decreases |posts|
  {
    var n := |posts| - 1;
    var init := posts[..n];
    assert posts[..n + 1] == posts;
    RunStep(files, postsDir, posts, fetch, n);
    if i < n {
      RunOutcomesAt(files, postsDir, init, fetch, i);
      assert init[..i] == posts[..i];
    } else {
      assert posts[..i] == init;
    }
  }

  /** A run never changes or removes a file that existed before it. */
  lemma {:induction false} RunKeepsExisting(files: map<string, string>, postsDir: string,
                                            posts: seq<Post>, fetch: PostId -> Option<seq<string>>)
    ensures forall q :: q in files ==>
              q in RunFiles(files, postsDir, posts, fetch) &&
              RunFiles(files, postsDir, posts, fetch)[q] == files[q]
    decreases |posts|
  {
    if posts != [] {
      RunKeepsExisting(files, postsDir, posts[..|posts| - 1], fetch);
    }
  }

  /** Some post among `posts` has artifact path `q` and qualifies. */
  ghost predicate SomeQualifyingPost(posts: seq<Post>, postsDir: string, q: string,
                                     fetch: PostId -> Option<seq<string>>)
  {
    exists i :: 0 <= i < |posts| && OutFile(postsDir, posts[i].id) == q && Qualifies(fetch(posts[i].id))
  }

  /** After a run, a path holds a file exactly when it held one before or a
      post of the run has that artifact path and qualifies. */
  lemma {:induction false} RunFilesKeys(files: map<string, string>, postsDir: string,
                                        posts: seq<Post>, fetch: PostId -> Option<seq<string>>)
    ensures var after := RunFiles(files, postsDir, posts, fetch);
            forall q :: q in after <==> q in files || SomeQualifyingPost(posts, postsDir, q, fetch)
    decreases |posts|
  {
    if posts != [] {
      var init, last := posts[..|posts| - 1], posts[|posts| - 1];
      var before := RunFiles(files, postsDir, init, fetch);
      var after := RunFiles(files, postsDir, posts, fetch);
      var path := OutFile(postsDir, last.id);
      assert after == AfterPost(before, postsDir, last.id, fetch);
      RunFilesKeys(files, postsDir, init, fetch);
      forall q
        ensures q in after <==> q in files || SomeQualifyingPost(posts, postsDir, q, fetch)
      {
        var earlier := SomeQualifyingPost(init, postsDir, q, fetch);
        var now := q == path && Qualifies(fetch(last.id));
        QualifyingPostSplit(init, last, postsDir, q, fetch);
        assert SomeQualifyingPost(posts, postsDir, q, fetch) <==> earlier || now by {
          assert posts == init + [last];
        }
        assert q in before <==> q in files || earlier;
        if q == path {
          assert q in after <==> q in before || Qualifies(fetch(last.id));
        } else {
          assert q in after <==> q in before;
        }
      }
    }
  }

  /** A qualifying post of `init + [last]` is one of `init` or `last`. */
  lemma QualifyingPostSplit(init: seq<Post>, last: Post, postsDir: string, q: string,
                            fetch: PostId -> Option<seq<string>>)
    ensures SomeQualifyingPost(init + [last], postsDir, q, fetch) <==>
              SomeQualifyingPost(init, postsDir, q, fetch) ||
              (OutFile(postsDir, last.id) == q && Qualifies(fetch(last.id)))
  {
    var posts := init + [last];
    if SomeQualifyingPost(init, postsDir, q, fetch) {
      var i :| 0 <= i < |init| && OutFile(postsDir, init[i].id) == q && Qualifies(fetch(init[i].id));
      assert posts[i] == init[i];
    }
    if OutFile(postsDir, last.id) == q && Qualifies(fetch(last.id)) {
      assert posts[|init|] == last;
    }
    if SomeQualifyingPost(posts, postsDir, q, fetch) {
      var i :| 0 <= i < |posts| && OutFile(postsDir, posts[i].id) == q && Qualifies(fetch(posts[i].id));
      if i < |init| {
        assert posts[i] == init[i];
      }
    }
  }

  /** The i-th post of `posts` is the first with artifact path `q` that
      qualifies, and `content` is its artifact. */
  ghost predicate FirstCreator(posts: seq<Post>, postsDir: string, q: string,
                               fetch: PostId -> Option<seq<string>>, i: int, content: string)
  {
    && 0 <= i < |posts| && OutFile(postsDir, posts[i].id) == q
    && Qualifies(fetch(posts[i].id))
    && content == ArtifactContent(fetch(posts[i].id).value)
    && !SomeQualifyingPost(posts[..i], postsDir, q, fetch)
  }

  /** A file a run creates holds the artifact of the first post of the run
      that has its path and qualifies. */
  lemma {:induction false} RunFilesContent(files: map<string, string>, postsDir: string,
                                           posts: seq<Post>, fetch: PostId -> Option<seq<string>>,
                                           q: string)
    requires q in RunFiles(files, postsDir, posts, fetch) && q !in files
    ensures exists i :: FirstCreator(posts, postsDir, q, fetch, i, RunFiles(files, postsDir, posts, fetch)[q])
    decreases |posts|
  {
    var n := |posts| - 1;
    var init, last := posts[..n], posts[n];
    var before := RunFiles(files, postsDir, init, fetch);
    var after := RunFiles(files, postsDir, posts, fetch);
    assert after == AfterPost(before, postsDir, last.id, fetch);
    if q in before {
      assert after[q] == before[q];
      RunFilesContent(files, postsDir, init, fetch, q);
      var i :| FirstCreator(init, postsDir, q, fetch, i, before[q]);
      assert init[..i] == posts[..i];
      assert FirstCreator(posts, postsDir, q, fetch, i, after[q]);
    } else {
      RunFilesKeys(files, postsDir, init, fetch);
      assert !SomeQualifyingPost(init, postsDir, q, fetch);
      assert q == OutFile(postsDir, last.id);
      assert FirstCreator(posts, postsDir, q, fetch, n, after[q]);
    }
  }

  /** When every post of a run already has its artifact or does not qualify,
      the run changes nothing. */
  lemma {:induction false} SettledRunChangesNothing(files: map<string, string>, postsDir: string,
                                                    posts: seq<Post>, fetch: PostId -> Option<seq<string>>)
    requires forall i :: 0 <= i < |posts| ==>
               OutFile(postsDir, posts[i].id) in files || !Qualifies(fetch(posts[i].id))
    ensures RunFiles(files, postsDir, posts, fetch) == files
    decreases |posts|
  {
    if posts != [] {
      var init := posts[..|posts| - 1];
      assert forall i :: 0 <= i < |init| ==> init[i] == posts[i];
      SettledRunChangesNothing(files, postsDir, init, fetch);
    }
  }

  /** Running the whole download twice over the same posts, with the same
      fetched content, leaves the filesystem as one run does. */
  lemma RunIdempotent(files: map<string, string>, postsDir: string,
                      posts: seq<Post>, fetch: PostId -> Option<seq<string>>)
    ensures var once := RunFiles(files, postsDir, posts, fetch);
            RunFiles(once, postsDir, posts, fetch) == once
  {
    var once := RunFiles(files, postsDir, posts, fetch);
    RunFilesKeys(files, postsDir, posts, fetch);
    forall i | 0 <= i < |posts|
      ensures OutFile(postsDir, posts[i].id) in once || !Qualifies(fetch(posts[i].id))
    {
      if Qualifies(fetch(posts[i].id)) {
        assert SomeQualifyingPost(posts, postsDir, OutFile(postsDir, posts[i].id), fetch);
      }
    }
    SettledRunChangesNothing(once, postsDir, posts, fetch);
  }

  /** `download_python_snippets`, run sequentially in submission order: one
      `process_post` for every post `iter_python_posts` yields. A task whose
      fetch raises only loses its own artifact, since the source never
      collects task results; a log line that does not decode ends the
      submissions and is reported in `failedAt` after the submitted tasks
      have run. */
  method DownloadPythonSnippets(fs: FileSystem, postsDir: string, logText: string,
                                decode: string -> Option<Post>,
                                fetch: PostId -> Option<seq<string>>)
    returns (outcomes: seq<Outcome>, failedAt: Option<nat>)
    modifies fs
    ensures var submitted := PythonPostsYielded(logText, decode);
            && outcomes == RunOutcomes(old(fs.files), postsDir, submitted, fetch)
            && fs.files == RunFiles(old(fs.files), postsDir, submitted, fetch)
    ensures failedAt == FailedLine(logText, decode)
  {
    ghost var initial := fs.files;
    var posts;
    posts, failedAt := IterPythonPosts(logText, decode);
    outcomes := [];
    var i := 0;
    while i < |posts|
      invariant 0 <= i <= |posts|
      invariant outcomes == RunOutcomes(initial, postsDir, posts[..i], fetch)
      invariant fs.files == RunFiles(initial, postsDir, posts[..i], fetch)
    {
      var outcome := ProcessPost(fs, posts[i].id, postsDir, fetch);
      RunStep(initial, postsDir, posts, fetch, i);
      outcomes := outcomes + [outcome];
      i := i + 1;
    }
    assert posts[..i] == posts;
  }
}
