/** Sequence helpers shared by the log filter (`iter_python_posts`) and the
    snippet filter of `process_post`. */
module Seqs {

  /** Number of occurrences of `x` in `s`; for a string and one character this
      is Python's `str.count`. */
  function Count<T(==)>(s: seq<T>, x: T): (n: nat)
    ensures n <= |s|
  {
    if s == [] then 0 else (if s[0] == x then 1 else 0) + Count(s[1..], x)
  }

  /** `Count` is the multiplicity of `x` in the multiset of `s`. */
  lemma {:induction false} CountIsMultiplicity<T>(s: seq<T>, x: T)
    ensures Count(s, x) == multiset(s)[x]
  {
    if s != [] {
      CountIsMultiplicity(s[1..], x);
      assert s == [s[0]] + s[1..];
    }
  }

  /** Counting distributes over concatenation. */
  lemma CountConcat<T>(a: seq<T>, b: seq<T>, x: T)
    ensures Count(a + b, x) == Count(a, x) + Count(b, x)
  {
    CountIsMultiplicity(a, x);
    CountIsMultiplicity(b, x);
    CountIsMultiplicity(a + b, x);
  }

  /** The concatenation of all the pieces, in order (Python's `''.join`). */
  function Concat<T>(pieces: seq<seq<T>>): seq<T>
  {
    if pieces == [] then [] else pieces[0] + Concat(pieces[1..])
  }

  /** Concatenating a piece in front of more pieces. */
  lemma ConcatCons<T>(piece: seq<T>, rest: seq<seq<T>>)
    ensures Concat([piece] + rest) == piece + Concat(rest)
  {
    assert ([piece] + rest)[1..] == rest;
  }

  /** The elements of `s` that satisfy `p`, in their original order: a Python
      comprehension `[x for x in s if p(x)]`, or a generator that yields the
      matching elements of `s`. */
  function Filter<T>(s: seq<T>, p: T -> bool): (r: seq<T>)
    ensures |r| <= |s|
    ensures forall j :: 0 <= j < |r| ==> p(r[j])
  {
    if s == [] then [] else (if p(s[0]) then [s[0]] else []) + Filter(s[1..], p)
  }

  function Shift(q: seq<nat>): seq<nat>
  {
    seq(|q|, j requires 0 <= j < |q| => q[j] + 1)
  }

  /** The indices of the elements of `s` that satisfy `p`, in ascending order. */
  function Positions<T>(s: seq<T>, p: T -> bool): (idx: seq<nat>)
    ensures forall j :: 0 <= j < |idx| ==> idx[j] < |s|
  {
    if s == [] then [] else (if p(s[0]) then [0] else []) + Shift(Positions(s[1..], p))
  }

  ghost predicate StrictlyIncreasing(q: seq<nat>)
  {
    forall j, k :: 0 <= j < k < |q| ==> q[j] < q[k]
  }

  /** `Positions` lists every index whose element satisfies `p`, each once
      (the list is strictly increasing), and no other index. */
  lemma {:induction false} PositionsExact<T>(s: seq<T>, p: T -> bool)
    ensures StrictlyIncreasing(Positions(s, p))
    ensures forall i :: 0 <= i < |s| ==> (i in Positions(s, p) <==> p(s[i]))
  {
    if s != [] {
      PositionsExact(s[1..], p);
      var rest := Positions(s[1..], p);
      forall i | 0 <= i < |s|
        ensures i in Positions(s, p) <==> p(s[i])
      {
        if i > 0 {
          assert s[1..][i - 1] == s[i];
          if i - 1 in rest {
            var j :| 0 <= j < |rest| && rest[j] == i - 1;
            assert Shift(rest)[j] == i;
          }
          if i in Shift(rest) {
            var j :| 0 <= j < |rest| && Shift(rest)[j] == i;
            assert rest[j] == i - 1;
          }
        }
      }
    }
  }

  /** `Filter` returns exactly the elements at `Positions`, in that order. */
  lemma {:induction false} FilterAtPositions<T>(s: seq<T>, p: T -> bool)
    ensures |Filter(s, p)| == |Positions(s, p)|
    ensures forall j :: 0 <= j < |Filter(s, p)| ==> Filter(s, p)[j] == s[Positions(s, p)[j]]
  {
    if s != [] {
      FilterAtPositions(s[1..], p);
      var h := if p(s[0]) then 1 else 0;
      forall j | h <= j < |Filter(s, p)|
        ensures Filter(s, p)[j] == s[Positions(s, p)[j]]
      {
        assert Filter(s, p)[j] == Filter(s[1..], p)[j - h];
        assert Positions(s, p)[j] == Positions(s[1..], p)[j - h] + 1;
      }
    }
  }

  /** An element occurs in the filtered sequence as often as in `s` when it
      satisfies `p`, and not at all otherwise. */
  lemma {:induction false} FilterMultiplicity<T>(s: seq<T>, p: T -> bool, x: T)
    ensures multiset(Filter(s, p))[x] == if p(x) then multiset(s)[x] else 0
  {
    if s != [] {
      FilterMultiplicity(s[1..], p, x);
      assert s == [s[0]] + s[1..];
    }
  }

  /** Filtering distributes over concatenation, so a loop that filters one
      element at a time computes `Filter`. */
  lemma {:induction false} FilterConcat<T>(a: seq<T>, b: seq<T>, p: T -> bool)
    ensures Filter(a + b, p) == Filter(a, p) + Filter(b, p)
  {
    if a == [] {
      assert a + b == b;
    } else {
      assert (a + b)[1..] == a[1..] + b;
      FilterConcat(a[1..], b, p);
    }
  }
}
