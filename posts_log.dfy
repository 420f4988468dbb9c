/** The post log `data/posts.jsonl`: one JSON record per line. Two readers
    scan it, `count_python_posts` and `iter_python_posts`. */
module PostsLog {

  import opened Wrappers
  import opened Seqs
  import opened Posts

  /** Length of the first line of a non-empty text, its terminating '\n'
      included when it has one. */
  function FirstLineLength(text: string): (k: nat)
    requires text != []
    ensures 0 < k <= |text|
    ensures '\n' !in text[..k - 1]
    ensures text[k - 1] == '\n' || k == |text|
  {
    if text[0] == '\n' || |text| == 1 then 1
    else
      var rest := FirstLineLength(text[1..]);
      assert text[..rest] == [text[0]] + text[1..][..rest - 1];
      1 + rest
  }

  /** The lines Python's iteration over a text file produces: the text is
      cut after every '\n', each line keeps its '\n', and a non-empty tail
      without one is a last line of its own. */
  function Lines(text: string): (lines: seq<string>)
    ensures |lines| <= |text|
    ensures lines == [] <==> text == []
    decreases |text|
  {
    if text == [] then []
    else
      var k := FirstLineLength(text);
      [text[..k]] + Lines(text[k..])
  }

  /** The lines put back together are the text. */
  lemma {:induction false} LinesRoundTrip(text: string)
    ensures Concat(Lines(text)) == text
    decreases |text|
  {
    if text != [] {
      var k := FirstLineLength(text);
      var head, tail := text[..k], text[k..];
      assert Lines(text) == [head] + Lines(tail);
      LinesRoundTrip(tail);
      ConcatCons(head, Lines(tail));
      assert head + tail == text;
    }
  }

  /** A line is non-empty and holds a '\n' only as its last character;
      every line but the last has one there. */
  ghost predicate WellFormedLine(line: string, isLast: bool)
  {
    && line != []
    && '\n' !in line[..|line| - 1]
    && (!isLast ==> line[|line| - 1] == '\n')
  }

  /** Every line `Lines` produces is well formed. */
  lemma {:induction false} LinesShape(text: string)
    ensures forall j :: 0 <= j < |Lines(text)| ==>
              WellFormedLine(Lines(text)[j], j == |Lines(text)| - 1)
    decreases |text|
  {
    if text != [] {
      var k := FirstLineLength(text);
      var lines, rest := Lines(text), Lines(text[k..]);
      LinesShape(text[k..]);
      assert lines[0] == text[..k];
      assert k == |text| ==> rest == [];
      forall j | 0 <= j < |lines|
        ensures WellFormedLine(lines[j], j == |lines| - 1)
      {
        if j > 0 {
          assert lines[j] == rest[j - 1];
        }
      }
    }
  }

  /** The first line holds one '\n' when it is terminated and none otherwise. */
  lemma FirstLineNewlines(text: string)
    requires text != []
    ensures var k := FirstLineLength(text);
            Count(text[..k], '\n') == if text[k - 1] == '\n' then 1 else 0
  {
    var k := FirstLineLength(text);
    var head := text[..k];
    assert head == head[..k - 1] + [text[k - 1]];
    CountConcat(head[..k - 1], [text[k - 1]], '\n');
    CountIsMultiplicity(head[..k - 1], '\n');
  }

  /** Whether a text ends in a line without a terminating '\n'. */
  predicate EndsOpen(text: string)
  {
    text != [] && text[|text| - 1] != '\n'
  }

  /** The number of lines is the number of '\n' characters, plus one when
      the text ends in an unterminated line. */
  lemma {:induction false} LineCount(text: string)
    ensures |Lines(text)| == Count(text, '\n') + (if EndsOpen(text) then 1 else 0)
    decreases |text|
  {
    if text != [] {
      var k := FirstLineLength(text);
      var head, tail := text[..k], text[k..];
      assert Lines(text) == [head] + Lines(tail);
      assert text == head + tail;
      CountConcat(head, tail, '\n');
      FirstLineNewlines(text);
      if tail == [] {
        assert head == text;
      } else {
        LineCount(tail);
        assert EndsOpen(text) == EndsOpen(tail) by {
          assert text[|text| - 1] == tail[|tail| - 1];
        }
      }
    }
  }

  /** `count_python_posts`: reads the log once and counts its lines, one for
      every position where a line starts. Every line counts, whatever its
      record's hubs are. */
  method CountPythonPosts(text: string) returns (n: nat)
    ensures n == |Lines(text)|
  {
    n := 0;
    var i := 0;
    while i < |text|
      invariant 0 <= i <= |text|
      invariant n == Count(text[..i], '\n') + (if EndsOpen(text[..i]) then 1 else 0)
    {
      if i == 0 || text[i - 1] == '\n' {
        n := n + 1;
      }
      assert text[..i + 1] == text[..i] + [text[i]];
      CountConcat(text[..i], [text[i]], '\n');
      i := i + 1;
    }
    assert text[..i] == text;
    LineCount(text);
  }

  /** How many lines, from the first, `decode` accepts before the first one
      it rejects. */
  function DecodableCount(lines: seq<string>, decode: string -> Option<Post>): (k: nat)
    ensures k <= |lines|
    ensures forall j :: 0 <= j < k ==> decode(lines[j]).Some?
    ensures k < |lines| ==> decode(lines[k]).None?
  {
    if lines == [] || decode(lines[0]).None? then 0
    else 1 + DecodableCount(lines[1..], decode)
  }

  function DecodeAll(lines: seq<string>, decode: string -> Option<Post>): seq<Post>
    requires forall j :: 0 <= j < |lines| ==> decode(lines[j]).Some?
  {
    seq(|lines|, j requires 0 <= j < |lines| => decode(lines[j]).value)
  }

  /** Decoding one more line appends its record. */
  lemma DecodeAllSnoc(lines: seq<string>, decode: string -> Option<Post>, i: nat)
    requires i < |lines|
    requires forall j :: 0 <= j <= i ==> decode(lines[j]).Some?
    ensures DecodeAll(lines[..i + 1], decode) == DecodeAll(lines[..i], decode) + [decode(lines[i]).value]
  {
  }

  /** The decodable prefix ends at the first line that does not decode. */
  lemma {:induction false} DecodableCountAt(lines: seq<string>, decode: string -> Option<Post>, i: nat)
    requires i <= |lines|
    requires forall j :: 0 <= j < i ==> decode(lines[j]).Some?
    requires i < |lines| ==> decode(lines[i]).None?
    ensures DecodableCount(lines, decode) == i
  {
  }

  /** The records of the log up to the first line that does not decode. */
  function DecodedPosts(text: string, decode: string -> Option<Post>): seq<Post>
  {
    var lines := Lines(text);
    DecodeAll(lines[..DecodableCount(lines, decode)], decode)
  }

  /** What `iter_python_posts` yields: the Python posts among the decoded
      records, in log order. */
  function PythonPostsYielded(text: string, decode: string -> Option<Post>): (yielded: seq<Post>)
    ensures |yielded| <= |Lines(text)|
    ensures forall j :: 0 <= j < |yielded| ==> IsPythonPost(yielded[j])
  {
    Filter(DecodedPosts(text, decode), IsPythonPost)
  }

  /** The index of the line on which `json.loads` raises, if any. */
  function FailedLine(text: string, decode: string -> Option<Post>): (failed: Option<nat>)
    ensures var lines := Lines(text);
            match failed
            case Some(k) =>
              && k < |lines| && decode(lines[k]).None?
              && forall j :: 0 <= j < k ==> decode(lines[j]).Some?
            case None => forall j :: 0 <= j < |lines| ==> decode(lines[j]).Some?
  {
    var lines := Lines(text);
    var k := DecodableCount(lines, decode);
    if k < |lines| then Some(k) else None
  }

  /** `iter_python_posts`: decodes the log line by line with `decode` (the
      model of `json.loads`) and yields each record that has a "python" hub.
      A line that does not decode stops the scan: what was yielded before it
      stands, and `failedAt` names the line where the source raises. */
  method IterPythonPosts(text: string, decode: string -> Option<Post>)
    returns (yielded: seq<Post>, failedAt: Option<nat>)
    ensures yielded == PythonPostsYielded(text, decode)
    ensures failedAt == FailedLine(text, decode)
  {
    var lines := Lines(text);
    yielded, failedAt := [], None;
    var i := 0;
    while i < |lines|
      invariant 0 <= i <= |lines|
      invariant forall j :: 0 <= j < i ==> decode(lines[j]).Some?
      invariant yielded == Filter(DecodeAll(lines[..i], decode), IsPythonPost)
    {
      var post := decode(lines[i]);
      if post.None? {
        DecodableCountAt(lines, decode, i);
        failedAt := Some(i);
        return;
      }
      DecodeAllSnoc(lines, decode, i);
      FilterConcat(DecodeAll(lines[..i], decode), [post.value], IsPythonPost);
      if IsPythonPost(post.value) {
        yielded := yielded + [post.value];
      }
      i := i + 1;
    }
    DecodableCountAt(lines, decode, i);
    assert lines[..i] == lines;
  }

  /** The yielded records are exactly the Python records of the decoded log,
      each once, in log order: the j-th yielded record is the record at the
      j-th index of a strictly increasing list holding every index of a
      Python record and no other. */
  lemma YieldedArePythonPostsInOrder(text: string, decode: string -> Option<Post>)
    ensures var posts := DecodedPosts(text, decode);
            var idx := Positions(posts, IsPythonPost);
            var yielded := PythonPostsYielded(text, decode);
            && |yielded| == |idx|
            && StrictlyIncreasing(idx)
            && (forall j :: 0 <= j < |yielded| ==> yielded[j] == posts[idx[j]])
            && (forall i :: 0 <= i < |posts| ==> (i in idx <==> IsPythonPost(posts[i])))
  {
    var posts := DecodedPosts(text, decode);
    PositionsExact(posts, IsPythonPost);
    FilterAtPositions(posts, IsPythonPost);
  }

  /** A record is yielded as many times as it stands in the decoded log when
      it has a "python" hub, and never otherwise. */
  lemma YieldedMultiplicity(text: string, decode: string -> Option<Post>, post: Post)
    ensures multiset(PythonPostsYielded(text, decode))[post] ==
              if IsPythonPost(post) then multiset(DecodedPosts(text, decode))[post] else 0
  {
    FilterMultiplicity(DecodedPosts(text, decode), IsPythonPost, post);
  }

  /** The count and the yield differ as soon as the log holds a record
      without a "python" hub: a one-line log of a "go" post, such as
      `{"id": 1, "hubs": [{"alias": "go"}]}`, is counted once and yields
      nothing. */
  lemma CountExceedsYield(record: string, decode: string -> Option<Post>, id: PostId)
    requires '\n' !in record
    requires decode(record + "\n") == Some(Post(id, [Hub("go")]))
    ensures |Lines(record + "\n")| == 1
    ensures PythonPostsYielded(record + "\n", decode) == []
  {
    var text := record + "\n";
    assert FirstLineLength(text) == |text|;
    assert text[..|text|] == text && text[|text|..] == [];
    assert Lines(text) == [text];
    var go := Post(id, [Hub("go")]);
    assert DecodedPosts(text, decode) == [go];
    assert !IsPythonPost(go) by {
      assert "go" != PYTHON_ALIAS by { assert |"go"| == 2; }
    }
  }

  /** Records tagged ["python"], ["go"] and ["python", "go"] filter to the
      first and the third, in that order. */
  lemma FilterExample()
    ensures var p1 := Post(IntId(1), [Hub("python")]);
            var p2 := Post(IntId(2), [Hub("go")]);
            var p3 := Post(IntId(3), [Hub("python"), Hub("go")]);
            Filter([p1, p2, p3], IsPythonPost) == [p1, p3]
  {
    var p1 := Post(IntId(1), [Hub("python")]);
    var p2 := Post(IntId(2), [Hub("go")]);
    var p3 := Post(IntId(3), [Hub("python"), Hub("go")]);
    assert IsPythonPost(p1) && IsPythonPost(p3);
    assert !IsPythonPost(p2) by {
      assert "go" != PYTHON_ALIAS by { assert |"go"| == 2; }
    }
    assert [p3][1..] == [];
    assert Filter([p3], IsPythonPost) == [p3];
    assert [p2, p3][1..] == [p3];
    assert Filter([p2, p3], IsPythonPost) == [p3];
    assert [p1, p2, p3][1..] == [p2, p3];
  }
}
