/** The snippet side of `process_post`: which extracted code blocks are kept,
    and how the kept ones are joined into the artifact text. */
module Snippets {

  import opened Seqs

  /** Python's `c * n` for a one-character string `c`. */
  function Repeat(c: char, n: nat): (s: string)
    ensures |s| == n && forall i :: 0 <= i < n ==> s[i] == c
  {
    if n == 0 then [] else [c] + Repeat(c, n - 1)
  }

  /** `SNIPPETS_DELIMITER = '\n\n' + '# ' + '-' * 40 + '\n\n'`. */
  const SNIPPETS_DELIMITER: string := "\n\n" + "# " + Repeat('-', 40) + "\n\n"

  /** A snippet is kept when it holds more than this many '\n' characters. */
  const MIN_NEWLINES: nat := 4

  /** The delimiter is a blank line, a Python comment of 40 dashes and a
      blank line: 46 characters. */
  lemma DelimiterText()
    ensures SNIPPETS_DELIMITER == "\n\n# " + "----------------------------------------" + "\n\n"
    ensures |SNIPPETS_DELIMITER| == 46
  {
    assert Repeat('-', 40) == "----------------------------------------";
    assert "\n\n" + "# " == "\n\n# ";
  }

  predicate IsLongSnippet(code: string)
  {
    Count(code, '\n') > MIN_NEWLINES
  }

  /** `[code for code in codes if code.count('\n') > 4]`. */
  function KeepLongSnippets(codes: seq<string>): (kept: seq<string>)
    ensures |kept| <= |codes|
    ensures forall j :: 0 <= j < |kept| ==> Count(kept[j], '\n') > 4
  {
    Filter(codes, IsLongSnippet)
  }

  /** The kept snippets are exactly the snippets with more than four '\n'
      characters, each once, in their original order. */
  lemma KeptAreLongSnippetsInOrder(codes: seq<string>)
    ensures var idx := Positions(codes, IsLongSnippet);
            var kept := KeepLongSnippets(codes);
            && |kept| == |idx|
            && StrictlyIncreasing(idx)
            && (forall j :: 0 <= j < |kept| ==> kept[j] == codes[idx[j]])
            && (forall i :: 0 <= i < |codes| ==> (i in idx <==> Count(codes[i], '\n') > 4))
  {
    PositionsExact(codes, IsLongSnippet);
    FilterAtPositions(codes, IsLongSnippet);
  }

  lemma ThreeLinesHaveTwoNewlines()
    ensures Count("a\nb\nc", '\n') == 2
  {
  }

  lemma SixLinesHaveFiveNewlines()
    ensures Count("a\nb\nc\nd\ne\nf", '\n') == 5
  {
  }

  lemma FiveLinesHaveFourNewlines()
    ensures Count("a\nb\nc\nd\ne", '\n') == 4
  {
  }

  /** A snippet of three lines is dropped and one of six lines is kept. */
  lemma SnippetFilterExample()
    ensures KeepLongSnippets(["a\nb\nc", "a\nb\nc\nd\ne\nf"]) == ["a\nb\nc\nd\ne\nf"]
  {
    ThreeLinesHaveTwoNewlines();
    SixLinesHaveFiveNewlines();
    KeepSecondOfTwo("a\nb\nc", "a\nb\nc\nd\ne\nf");
  }

  lemma KeepSecondOfTwo(short: string, long: string)
    requires !IsLongSnippet(short) && IsLongSnippet(long)
    ensures KeepLongSnippets([short, long]) == [long]
  {
    assert [short, long][1..] == [long];
    assert [long][1..] == [];
    assert Filter([long], IsLongSnippet) == [long];
  }

  /** A snippet of five lines with no final '\n' holds only four '\n'
      characters, so it is dropped. */
  lemma FiveLineSnippetDropped()
    ensures KeepLongSnippets(["a\nb\nc\nd\ne"]) == []
  {
    FiveLinesHaveFourNewlines();
    assert ["a\nb\nc\nd\ne"][1..] == [];
  }

  /** Python's `sep.join(parts)`. */
  function Join(sep: string, parts: seq<string>): (joined: string)
    ensures parts == [] ==> joined == []
    ensures parts != [] ==> |parts[0]| <= |joined| && joined[..|parts[0]|] == parts[0]
  {
    if parts == [] then ""
    else if |parts| == 1 then parts[0]
    else parts[0] + sep + Join(sep, parts[1..])
  }

  function TotalLength(parts: seq<string>): nat
  {
    if parts == [] then 0 else |parts[0]| + TotalLength(parts[1..])
  }

  /** Where the i-th part starts in the joined text. */
  function Offset(sep: string, parts: seq<string>, i: nat): nat
    requires i <= |parts|
  {
    TotalLength(parts[..i]) + i * |sep|
  }

  /** Joining k >= 1 parts yields their total length plus k - 1 separators. */
  lemma {:induction false} JoinLength(sep: string, parts: seq<string>)
    requires |parts| >= 1
    ensures |Join(sep, parts)| == TotalLength(parts) + |sep| * (|parts| - 1)
  {
    if |parts| > 1 {
      JoinLength(sep, parts[1..]);
    }
  }

  /** A slice of `a + b` that lies wholly in `b`. */
  lemma SliceOfConcat(a: string, b: string, x: nat, y: nat)
    requires x <= y <= |b|
    ensures (a + b)[|a| + x..|a| + y] == b[x..y]
  {
  }

  /** Past the first part and its separator, the offsets are those of the
      remaining parts. */
  lemma OffsetStep(sep: string, parts: seq<string>, i: nat)
    requires 0 < i <= |parts|
    ensures Offset(sep, parts, i) == |parts[0]| + |sep| + Offset(sep, parts[1..], i - 1)
  {
    assert parts[..i][1..] == parts[1..][..i - 1];
  }

  /** Joining two or more parts puts the first part and a separator in
      front of the join of the rest. */
  lemma JoinFirst(sep: string, parts: seq<string>)
    requires |parts| > 1
    ensures Join(sep, parts) == (parts[0] + sep) + Join(sep, parts[1..])
    ensures Join(sep, parts)[|parts[0]|..|parts[0]| + |sep|] == sep
  {
    var joined := Join(sep, parts);
    assert joined[|parts[0]|..|parts[0]| + |sep|] == (parts[0] + sep)[|parts[0]|..];
  }

  /** The joined text holds each part at its offset, followed by the
      separator when another part comes after it. */
  lemma {:induction false} JoinAt(sep: string, parts: seq<string>, i: nat)
    requires i < |parts|
    ensures var o, joined := Offset(sep, parts, i), Join(sep, parts);
            && o + |parts[i]| <= |joined|
            && joined[o..o + |parts[i]|] == parts[i]
            && (i + 1 < |parts| ==>
                  o + |parts[i]| + |sep| <= |joined| &&
                  joined[o + |parts[i]|..o + |parts[i]| + |sep|] == sep)
  {
    if i == 0 {
      assert parts[..0] == [];
      if |parts| > 1 {
        JoinFirst(sep, parts);
      }
    } else {
      JoinAt(sep, parts[1..], i - 1);
      JoinAtStep(sep, parts, i);
    }
  }

  /** The step of `JoinAt`: what holds of the i-1-th of the remaining parts
      holds of the i-th part, shifted by the first part and a separator. */
  lemma JoinAtStep(sep: string, parts: seq<string>, i: nat)
    requires 0 < i < |parts|
    requires var o, joined := Offset(sep, parts[1..], i - 1), Join(sep, parts[1..]);
             && o + |parts[i]| <= |joined|
             && joined[o..o + |parts[i]|] == parts[i]
             && (i + 1 < |parts| ==>
                   o + |parts[i]| + |sep| <= |joined| &&
                   joined[o + |parts[i]|..o + |parts[i]| + |sep|] == sep)
    ensures var o, joined := Offset(sep, parts, i), Join(sep, parts);
            && o + |parts[i]| <= |joined|
            && joined[o..o + |parts[i]|] == parts[i]
            && (i + 1 < |parts| ==>
                  o + |parts[i]| + |sep| <= |joined| &&
                  joined[o + |parts[i]|..o + |parts[i]| + |sep|] == sep)
  {
    JoinFirst(sep, parts);
    var head, rest := parts[0] + sep, Join(sep, parts[1..]);
    OffsetStep(sep, parts, i);
    var o := Offset(sep, parts[1..], i - 1);
    SliceOfConcat(head, rest, o, o + |parts[i]|);
    if i + 1 < |parts| {
      SliceOfConcat(head, rest, o + |parts[i]|, o + |parts[i]| + |sep|);
    }
  }

  /** Joining one part yields it unchanged; joining two puts the separator
      between them. */
  lemma JoinFewParts(sep: string, a: string, b: string)
    ensures Join(sep, [a]) == a
    ensures Join(sep, [a, b]) == a + sep + b
  {
    assert [a, b][1..] == [b];
  }

  /** The text `process_post` writes for a list of extracted snippets. */
  function ArtifactContent(codes: seq<string>): (content: string)
    ensures content != [] <==> KeepLongSnippets(codes) != []
    ensures var kept := KeepLongSnippets(codes);
            kept != [] ==> |kept[0]| <= |content| && content[..|kept[0]|] == kept[0]
  {
    Join(SNIPPETS_DELIMITER, KeepLongSnippets(codes))
  }

  /** The artifact is exactly as long as its kept snippets together plus 46
      characters between each two of them. */
  lemma ArtifactLength(codes: seq<string>)
    requires KeepLongSnippets(codes) != []
    ensures |ArtifactContent(codes)| ==
              TotalLength(KeepLongSnippets(codes)) + 46 * (|KeepLongSnippets(codes)| - 1)
  {
    DelimiterText();
    JoinLength(SNIPPETS_DELIMITER, KeepLongSnippets(codes));
  }
}
