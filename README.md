# habr-scraper snippet pipeline, in Dafny

This project models the decision logic of `scraper.py`, which harvests Python
code snippets from Habr posts. The modelled parts are:

- **the post log** `data/posts.jsonl`. It holds one JSON record per line.
  `count_python_posts` counts its lines. `iter_python_posts` decodes each line
  and yields the records that have a hub whose alias is exactly `"python"`.
- **the snippet filter and artifact text**. A snippet extracted from a post is
  kept when it holds more than four `'\n'` characters. The kept snippets are
  joined with `SNIPPETS_DELIMITER`: a blank line, `# ` followed by 40 dashes,
  and a blank line (46 characters).
- **`process_post`**. It works on a filesystem modelled as a map from path to
  text (class `Scraper.FileSystem`). If `posts_dir/<id>.py` exists, it returns
  without fetching. Otherwise it fetches the post's snippets and filters them.
  It writes the joined text to that one path, unless no snippet is kept.
- **`download_python_snippets`**, run sequentially in submission order: one
  `process_post` for every post `iter_python_posts` yields.

Modules, one per concern: `Wrappers` (Option), `Seqs` (count, filter,
positions), `Decimal` (Python's `str` of an int), `Posts` (records and the hub
predicate), `PostsLog` (line splitting, the two log readers), `Snippets`
(delimiter, length filter, `str.join`), `Scraper` (artifact paths, filesystem,
`process_post`, the dispatcher).

The network fetch and the HTML extraction come in as one parameter,
`fetch: PostId -> Option<seq<string>>`. `None` stands for a fetch that raises.
`json.loads`, together with the record lookups `post['hubs']` and
`hub['alias']` (scraper.py:38) and `post['id']` (scraper.py:66), comes in as
`decode: string -> Option<Post>`. `Some` stands for a record that has an
`id` and a `hubs` list whose entries all have an `alias`. `None` stands for a
line that `json.loads` rejects. Records of any other shape are not modelled;
see "## Left out".

Behaviour of the code worth noting:

- `count_python_posts` counts every line of the log, not only the Python
  posts. `PostsLog.CountExceedsYield` shows a one-line log of a "go" post that
  is counted once and yields nothing. The count only sets the progress-bar
  total.
- `download_python_snippets` never asks a finished task for its result
  (`as_completed` is only iterated). So a fetch that raises inside a task
  loses that post's artifact and is not reported. The model gives that task
  the outcome `FetchFailed` and goes on.
- "More than four `'\n'`" is not "at least five lines": a five-line snippet
  without a final newline holds four and is dropped
  (`Snippets.FiveLineSnippetDropped`).
- A line that `json.loads` rejects stops `iter_python_posts`. The posts
  yielded before it have been submitted, and their tasks still run before the
  error leaves the `with` block. `DownloadPythonSnippets` processes them and
  returns the line's index in `failedAt`.

## Model

| member | source | states |
|---|---|---|
| `Seqs.Count` | scraper.py:54 | `code.count('\n')` counts occurrences of `'\n'`: never more than the length |
| `Seqs.CountIsMultiplicity` | scraper.py:54 | the count of `x` in `s` is the multiplicity of `x` in the multiset of `s` |
| `Seqs.CountConcat` | scraper.py:54 | the count of a concatenation is the sum of the counts |
| `Seqs.Filter` | scraper.py:54 | a comprehension with a condition returns no more elements than its input, and each satisfies the condition |
| `Seqs.FilterMultiplicity` | scraper.py:38-39 | an element occurs in a filtered sequence as often as in the input when it satisfies the condition, otherwise never |
| `Decimal.NatToText` | scraper.py:48 | `str` of a natural number is non-empty decimal digits; it starts with `'0'` only when it is exactly `"0"` (so no leading zero, and 0 prints as `"0"`) |
| `Decimal.NatRoundTrip` | scraper.py:48 | reading back the digits of `n` gives `n` |
| `Decimal.IntToText` | scraper.py:48 | `str` of an int is non-empty, starts with `'-'` iff the int is negative, and after the sign holds decimal digits with no leading zero (a lone `"0"` aside) that read back as its absolute value, so the text is Python's canonical `str` |
| `Decimal.IntToTextInjective` | scraper.py:48 | `str` is injective on integers |
| `Posts.AnyHubHasAlias` | scraper.py:38 | `any(hub['alias'] == alias ...)` holds iff some hub's alias equals `alias` |
| `Posts.IsPythonPost` | scraper.py:38 | a record is a Python post iff some hub's alias is exactly `"python"`; `PythonPostCases` gives its cases |
| `Posts.PythonPostCases` | scraper.py:38 | no hubs: not Python; a `"python"` hub anywhere among others: Python; `"Python"`: not Python (exact, case-sensitive) |
| `PostsLog.FirstLineLength` | scraper.py:36 | the first line ends at the first `'\n'` (included) or at the end of the text |
| `PostsLog.Lines` | scraper.py:31-36 | `for line in in_file` gives at most as many lines as characters, none exactly when the text is empty; `LinesRoundTrip`, `LinesShape` and `LineCount` pin the split down |
| `PostsLog.LinesRoundTrip` | scraper.py:36 | the lines of a file concatenate back to its text |
| `PostsLog.LinesShape` | scraper.py:36 | every line is non-empty and holds `'\n'` only at its end; every line but the last ends in `'\n'` |
| `PostsLog.LineCount` | scraper.py:29-31 | the number of lines is the number of `'\n'` plus one for an unterminated last line |
| `PostsLog.CountPythonPosts` | scraper.py:29-31 | the count is the number of lines of the log, whatever the records' hubs |
| `PostsLog.DecodableCount` | scraper.py:37 | every line before the returned index decodes, and the line at that index (if any) does not |
| `PostsLog.PythonPostsYielded` | scraper.py:34-39 | what the generator yields: never more records than the log has lines (so never more than `count_python_posts` reports), each a Python post; `YieldedArePythonPostsInOrder` and `YieldedMultiplicity` say which ones |
| `PostsLog.FailedLine` | scraper.py:36-37 | the line where `json.loads` raises: every earlier line decodes and that line does not; `None` iff every line decodes |
| `PostsLog.IterPythonPosts` | scraper.py:34-39 | yields the Python posts among the records decoded before the first undecodable line, in log order; reports that line |
| `PostsLog.YieldedArePythonPostsInOrder` | scraper.py:36-39 | the yielded records are the decoded records at a strictly increasing list of indices that holds every Python record's index and no other |
| `PostsLog.YieldedMultiplicity` | scraper.py:38-39 | a record is yielded as often as it appears in the log when it has a "python" hub, never otherwise |
| `PostsLog.CountExceedsYield` | scraper.py:29-39 | a one-line log whose record has only a "go" hub (such as `{"id": 1, "hubs": [{"alias": "go"}]}`) counts 1 and yields nothing |
| `PostsLog.FilterExample` | scraper.py:38-39 | records tagged `["python"]`, `["go"]`, `["python","go"]` yield the first and the third, in order |
| `Snippets.Repeat` | scraper.py:17 | `'-' * n` has length `n` and only dashes |
| `Snippets.DelimiterText` | scraper.py:17 | the delimiter is `"\n\n# "`, 40 dashes, `"\n\n"`: 46 characters |
| `Snippets.KeepLongSnippets` | scraper.py:54 | the kept snippets are no more than the input and each has more than four `'\n'` |
| `Snippets.KeptAreLongSnippetsInOrder` | scraper.py:54 | the kept snippets are the input's snippets at a strictly increasing list of indices that holds exactly the snippets with more than four `'\n'` |
| `Snippets.SnippetFilterExample` | scraper.py:54 | of a 3-line and a 6-line snippet only the 6-line one is kept |
| `Snippets.FiveLineSnippetDropped` | scraper.py:54 | a 5-line snippet with no final newline is dropped |
| `Snippets.Join` | scraper.py:58 | `sep.join(parts)`: empty for no parts, and starts with the first part; `JoinLength`, `JoinAt` and `JoinFewParts` pin it down |
| `Snippets.JoinLength` | scraper.py:58 | joining k >= 1 parts gives their total length plus k - 1 separators |
| `Snippets.JoinAt` | scraper.py:58 | the joined text holds each part at its offset, followed by the separator when another part follows |
| `Snippets.JoinFewParts` | scraper.py:58 | joining one part gives it unchanged; two parts are joined by one separator |
| `Snippets.ArtifactContent` | scraper.py:54-58 | the written text is non-empty iff some snippet is kept, and starts with the first kept snippet; `ArtifactLength` gives its length |
| `Snippets.ArtifactLength` | scraper.py:17-58 | the artifact's length is the kept snippets' total length plus 46 per gap |
| `Scraper.IdText` | scraper.py:48 | `f'{post_id}'`; no contract of its own: the int case is `IntToText`, whose contract fixes the text, and the string case is the id itself |
| `Scraper.OutFile` | scraper.py:48 | `posts_dir / f'{post_id}.py'` as text; `OutFileParts` parses it back and `OutFileInjective` follows |
| `Scraper.OutFileParts` | scraper.py:48 | the artifact path is the directory, `'/'`, the id's text, and `.py`, at known positions |
| `Scraper.OutFileInjective` | scraper.py:48 | two posts share an artifact path only when their ids print the same |
| `Scraper.IntIdsHaveDistinctPaths` | scraper.py:48 | distinct integer ids get distinct artifact paths |
| `Scraper.IntAndStrIdsShareAPath` | scraper.py:48 | the number 5 and the string "5" name the same artifact |
| `Scraper.PostOutcome` | scraper.py:47-58 | the call skips iff the artifact exists; it writes iff the artifact is absent and the fetch succeeds with a kept snippet, and what it writes is the joined kept snippets; it reports a failed fetch iff the artifact is absent and the fetch raises, and no snippets iff the artifact is absent and the fetch keeps none |
| `Scraper.AfterPost` | scraper.py:47-58 | the artifact exists afterwards iff it existed or the post qualifies; an existing artifact keeps its text; a new one holds the joined kept snippets; every other path is unchanged |
| `Scraper.SecondCallSkips` | scraper.py:48-50 | after a call that wrote or skipped, a second call skips without fetching and changes nothing |
| `Scraper.ProcessPostIdempotent` | scraper.py:47-58 | with the same fetched content, two calls have the effect of one |
| `Scraper.NoNegativeMarker` | scraper.py:54-56 | a call that keeps no snippet or whose fetch fails changes nothing, so a later call fetches again and decides afresh |
| `Scraper.PostsCommute` | scraper.py:64-68 | calls for posts with distinct artifact paths give the same outcomes and files in either order |
| `Scraper.FileSystem.WriteText` | scraper.py:58 | `write_text` sets the file at that path to the text and nothing else |
| `Scraper.ProcessPost` | scraper.py:47-58 | returns `PostOutcome` and leaves the filesystem as `AfterPost` on the old one |
| `Scraper.RunOutcomes` | scraper.py:64-70 | one outcome per submitted post |
| `Scraper.RunOutcomesAt` | scraper.py:64-70 | the i-th outcome is that of the i-th post on the files the earlier posts left |
| `Scraper.RunFiles` | scraper.py:61-70 | the files after `process_post` has run for each post in turn; `RunKeepsExisting`, `RunFilesKeys`, `RunFilesContent` and `RunIdempotent` pin it down |
| `Scraper.RunKeepsExisting` | scraper.py:48-50 | a run never changes or removes an existing file |
| `Scraper.RunFilesKeys` | scraper.py:61-70 | after a run a path holds a file iff it did before or some submitted post with that path qualifies |
| `Scraper.RunFilesContent` | scraper.py:61-70 | when the posts run one after another, a file the run creates holds the artifact of the first submitted post with that path that qualifies (the threaded source can let a later one win; see "## Left out") |
| `Scraper.SettledRunChangesNothing` | scraper.py:49-50 | a run where every post has its artifact or does not qualify changes nothing |
| `Scraper.RunIdempotent` | scraper.py:61-70 | running the download twice with the same fetched content leaves the files as one run does |
| `Scraper.DownloadPythonSnippets` | scraper.py:61-70 | submits one `process_post` per yielded post, in order; returns their outcomes and the line where the log scan failed, and leaves the files as that sequence of calls does |

## Left out

- `fetch_posts` (listing posts from Habr and writing the log) is network and file output. The log is given as text.
- The Habr client (`iter_posts`, `get_post_content`) and the BeautifulSoup extraction of `<code class="python">` blocks are a remote service and a foreign HTML library. Their combined result per post is the `fetch` parameter. Being a function, it returns the same snippets each time it is asked. `SecondCallSkips` and `NoNegativeMarker` allow a different second fetch.
- `json.loads` is a foreign parser. With the lookups of lines 38 and 66 it is the `decode` parameter. Record fields other than `id` and `hubs[].alias` are not modelled.
- Record-shape errors are not modelled. A record without `hubs`, or with a hub that has no `alias`, makes line 38 raise `KeyError` or `TypeError`. `any` works left to right and stops at the first match, so hubs `[{"alias": "go"}, {}]` raise while `[{"alias": "python"}, {}]` yield. A yielded record without `id` raises at line 66, after the generator has yielded it, and a non-Python record without `id` raises nothing. A `decode` that returns `None` for such a line stops the scan there, with the earlier posts processed and `failedAt` naming the line. That is what the source does in every case but two: a hub without `alias` after the first `"python"` hub (the source yields the record), and a non-Python record without `id` (the source goes on to the next line).
- The log text is taken after Python's newline translation. Universal newlines (`'\r'`, `"\r\n"`) and text decoding are not modelled.
- The `ThreadPoolExecutor` is not modelled. Tasks run one after another in submission order. `PostsCommute` shows that posts with distinct artifact paths do not depend on that order.
- Scraper.RunFilesContent: the check-then-write race between two tasks for the same artifact path is not modelled. Two submitted posts share a path when the log holds a record twice, or holds `IntId(5)` and `StrId("5")` (`IntAndStrIdsShareAPath`). In the source both tasks can pass `out_file.exists()` (scraper.py:49) before either writes. Then both fetch, and the last `write_text` (scraper.py:58) wins. The sequential model instead gives the second post `Skipped` and keeps the first post's artifact.
- `tqdm` progress bars, `logging`, and the call to `count_python_posts` inside `download_python_snippets` are not modelled. That call only sets a progress total.
- `posts_dir.mkdir(exist_ok=True)` is not modelled: directories are not part of the filesystem map.
- Failing `write_text` (permissions, full disk) is not modelled. A write is one map update.
- Path semantics: the artifact path is `posts_dir + "/" + str(id) + ".py"` as text. `pathlib` normalisation is not modelled, nor ids that contain `/` or make the name absolute.
