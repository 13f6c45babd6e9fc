/**
 * The handful of Python string operations that the diagram generator and the
 * pattern engine rely on, written over `string` (= `seq<char>`): `replace`,
 * `split`, `join`, `rsplit(_, 1)[0]`, `count`, slicing and the `in`,
 * `startswith` and `endswith` tests. Each is stated against an independent
 * description of what it computes, and `Split`/`Join` are proved to be
 * inverse to each other.
 */
module Text {

  /** `s.replace(a, b)` for one-character `a` and `b`: position by position. */
  function Replace(s: string, a: char, b: char): (r: string)
    ensures |r| == |s|
    ensures forall i :: 0 <= i < |s| ==> r[i] == if s[i] == a then b else s[i]
    decreases |s|
  {
    if s == [] then [] else [if s[0] == a then b else s[0]] + Replace(s[1..], a, b)
  }

  /** `s.split(c)`: the pieces between the occurrences of `c`. */
  function Split(s: string, c: char): (parts: seq<string>)
    ensures |parts| >= 1
    ensures forall i :: 0 <= i < |parts| ==> c !in parts[i]
    decreases |s|
  {
    if s == [] then [""]
    else
      var rest := Split(s[1..], c);
      if s[0] == c then [""] + rest
      else [[s[0]] + rest[0]] + rest[1..]
  }

  /** `c.join(parts)`. */
  function Join(c: char, parts: seq<string>): string
    decreases |parts|
  {
    if |parts| == 0 then ""
    else if |parts| == 1 then parts[0]
    else parts[0] + [c] + Join(c, parts[1..])
  }

  /** `s.split(c)[0]`, the text before the first `c` (also `s.split(c, 1)[0]`). */
  function FirstPiece(s: string, c: char): string
  {
    Split(s, c)[0]
  }

  /** `s.split(c)[-1]`, the text after the last `c`. */
  function LastPiece(s: string, c: char): string
  {
    var parts := Split(s, c);
    parts[|parts| - 1]
  }

  /** The index of the last `c` in `s`, or -1 when there is none. */
  function LastIndexOf(s: string, c: char): (k: int)
    ensures -1 <= k < |s|
    decreases |s|
  {
    if s == [] then -1
    else if s[|s| - 1] == c then |s| - 1
    else LastIndexOf(s[..|s| - 1], c)
  }

  /** `s.rsplit(c, 1)[0]`: `s` up to (not including) its last `c`, or all of `s`. */
  function RSplitHead(s: string, c: char): string
  {
    var k := LastIndexOf(s, c);
    if k < 0 then s else s[..k]
  }

  /**
   * `s.count(p)`: the number of non-overlapping occurrences of `p`, left to
   * right. The empty pattern is counted once per position, and the
   * occurrences of a non-empty one fit side by side in `s`.
   */
  function Count(s: string, p: string): (n: nat)
    ensures p == [] ==> n == |s| + 1
    ensures p != [] ==> n * |p| <= |s|
    decreases |s|
  {
    if p == [] then |s| + 1
    else if |s| < |p| then 0
    else if s[..|p|] == p then
      var rest := s[|p|..];
      MulSucc(Count(rest, p), |p|, |rest|);
      1 + Count(rest, p)
    else
      MulLe(Count(s[1..], p), |p|, |s| - 1);
      Count(s[1..], p)
  }

  /** A non-empty pattern is counted at least once exactly when it occurs. */
  lemma {:induction false} CountZeroIff(s: string, p: string)
    requires p != []
    ensures Count(s, p) == 0 <==> !Contains(s, p)
    decreases |s|
  {
    if |s| >= |p| {
      if s[..|p|] == p {
        assert p <= s[0..];
      } else {
        CountZeroIff(s[1..], p);
        ContainsPastHead(s, p);
      }
    }
  }

  /** The number of indices at which `p` occurs in `s`, overlapping or not. */
  function Occurrences(s: string, p: string): nat
    decreases |s|
  {
    if s == [] then 0
    else (if OccursAt(s, p, 0) then 1 else 0) + Occurrences(s[1..], p)
  }

  /**
   * `count('../')` is the number of places where `../` occurs: the marker
   * cannot overlap itself, so counting left to right misses none.
   */
  lemma {:induction false} CountParentMarkers(s: string)
    ensures Count(s, "../") == Occurrences(s, "../")
    decreases |s|
  {
    var p := "../";
    if s != [] {
      if |s| >= 3 && s[..3] == p {
        assert OccursAt(s, p, 0);
        assert s[1..][1] == '/' && !OccursAt(s[1..], p, 0);
        assert s[2..][0] == '/' && !OccursAt(s[2..], p, 0);
        assert s[1..][1..] == s[2..] && s[2..][1..] == s[3..];
        CountParentMarkers(s[3..]);
        assert Count(s, p) == 1 + Count(s[3..], p);
        assert Occurrences(s[2..], p) == Occurrences(s[3..], p);
        assert Occurrences(s[1..], p) == Occurrences(s[2..], p);
      } else {
        assert !OccursAt(s, p, 0);
        CountParentMarkers(s[1..]);
      }
    }
  }

  /** `s[k:]` for a non-negative `k`: Python clamps an index past the end. */
  function Drop(s: string, k: nat): string
  {
    if k <= |s| then s[k..] else ""
  }

  /** `t in s`. */
  predicate Contains(s: string, t: string)
  {
    exists i | 0 <= i <= |s| :: t <= s[i..]
  }

  /** `t` occurs in `s` starting at index `i`. */
  predicate OccursAt(s: string, t: string, i: int)
  {
    0 <= i && i + |t| <= |s| && s[i..i + |t|] == t
  }

  /** `s.startswith(t)`. */
  predicate StartsWith(s: string, t: string)
  {
    t <= s
  }

  /** `s.endswith(t)`. */
  predicate EndsWith(s: string, t: string)
  {
    |t| <= |s| && s[|s| - |t|..] == t
  }

  // ---------------------------------------------------------------- lemmas

  /** Concatenation regroups freely; stated once so that loops appending text need not re-derive it. */
  lemma ConcatAssoc<T>(a: seq<T>, b: seq<T>, c: seq<T>)
    ensures (a + b) + c == a + (b + c)
  {
  }

  /** Joining the pieces of a split restores the original text. */
  lemma {:induction false} JoinSplit(s: string, c: char)
    ensures Join(c, Split(s, c)) == s
    decreases |s|
  {
    if s != [] {
      var rest := Split(s[1..], c);
      JoinSplit(s[1..], c);
      if s[0] == c {
        assert Split(s, c) == [""] + rest;
        assert ([""] + rest)[1..] == rest;
      } else {
        var parts := [[s[0]] + rest[0]] + rest[1..];
        assert Split(s, c) == parts;
        if |rest| == 1 {
          assert Join(c, parts) == [s[0]] + rest[0];
        } else {
          assert parts[1..] == rest[1..];
          assert Join(c, parts) == [s[0]] + rest[0] + [c] + Join(c, rest[1..]);
        }
      }
    }
  }

  /** Splitting a text without a separator, or text up to the first separator. */
  lemma {:induction false} SplitPrefix(p: string, t: string, c: char)
    requires c !in p
    ensures Split(p, c) == [p]
    ensures Split(p + [c] + t, c) == [p] + Split(t, c)
    decreases |p|
  {
    if p == [] {
      assert ([c] + t)[1..] == t;
    } else {
      SplitPrefix(p[1..], t, c);
      assert (p + [c] + t)[1..] == p[1..] + [c] + t;
      assert [p[0]] + p[1..] == p;
    }
  }

  /** Splitting a join of separator-free pieces gives the pieces back. */
  lemma {:induction false} SplitJoin(parts: seq<string>, c: char)
    requires |parts| >= 1
    requires forall i :: 0 <= i < |parts| ==> c !in parts[i]
    ensures Split(Join(c, parts), c) == parts
    decreases |parts|
  {
    SplitPrefix(parts[0], "", c);
    if |parts| > 1 {
      SplitJoin(parts[1..], c);
      SplitPrefix(parts[0], Join(c, parts[1..]), c);
      assert [parts[0]] + parts[1..] == parts;
    }
  }

  /** Joining two non-empty lists of pieces puts one separator between them. */
  lemma {:induction false} JoinAppend(c: char, a: seq<string>, b: seq<string>)
    requires |a| >= 1 && |b| >= 1
    ensures Join(c, a + b) == Join(c, a) + [c] + Join(c, b)
    decreases |a|
  {
    if |a| > 1 {
      JoinAppend(c, a[1..], b);
      assert (a + b)[1..] == a[1..] + b;
    } else {
      assert (a + b)[1..] == b;
    }
  }

  /** Splitting on `a` and joining with `b` replaces every `a` with `b`. */
  lemma {:induction false} JoinSplitIsReplace(s: string, a: char, b: char)
    ensures Join(b, Split(s, a)) == Replace(s, a, b)
    decreases |s|
  {
    if s != [] {
      var rest := Split(s[1..], a);
      JoinSplitIsReplace(s[1..], a, b);
      if s[0] == a {
        assert Split(s, a) == [""] + rest;
        assert ([""] + rest)[1..] == rest;
      } else {
        var parts := [[s[0]] + rest[0]] + rest[1..];
        assert Split(s, a) == parts;
        if |rest| > 1 {
          assert parts[1..] == rest[1..];
        }
      }
    }
  }

  /** A text splits into more than one piece exactly when it holds the separator. */
  lemma SplitMany(s: string, c: char)
    ensures c in s <==> |Split(s, c)| >= 2
  {
    JoinSplit(s, c);
    var parts := Split(s, c);
    if |parts| == 1 {
      assert Join(c, parts) == parts[0];
    } else {
      JoinAppend(c, parts[..1], parts[1..]);
      assert parts[..1] + parts[1..] == parts;
      var i := |Join(c, parts[..1])|;
      assert s[i] == c;
    }
  }

  /** The first piece is the text before the first separator. */
  lemma FirstPieceIsPrefix(s: string, c: char)
    ensures FirstPiece(s, c) <= s && c !in FirstPiece(s, c)
    ensures c in s ==> s[|FirstPiece(s, c)|] == c
    ensures c !in s ==> FirstPiece(s, c) == s
  {
    JoinSplit(s, c);
    SplitMany(s, c);
    var parts := Split(s, c);
    if |parts| > 1 {
      JoinAppend(c, parts[..1], parts[1..]);
      assert parts[..1] + parts[1..] == parts;
    }
  }

  /** The last piece is the text after the last separator. */
  lemma LastPieceIsSuffix(s: string, c: char)
    ensures |LastPiece(s, c)| <= |s| && s[|s| - |LastPiece(s, c)|..] == LastPiece(s, c)
    ensures c !in LastPiece(s, c)
    ensures c in s ==> s[|s| - |LastPiece(s, c)| - 1] == c
    ensures c !in s ==> LastPiece(s, c) == s
  {
    if c !in s {
      SplitPrefix(s, "", c);
    }
    JoinSplit(s, c);
    SplitMany(s, c);
    var parts := Split(s, c);
    var n := |parts|;
    if n > 1 {
      JoinAppend(c, parts[..n - 1], parts[n - 1..]);
      assert parts[..n - 1] + parts[n - 1..] == parts;
    }
  }

  /**
   * Without a separator the text is kept whole; otherwise the result is the
   * prefix that ends right before a separator with no separator after it.
   */
  lemma RSplitHeadCuts(s: string, c: char)
    ensures c !in s ==> RSplitHead(s, c) == s
    ensures c in s ==> var r := RSplitHead(s, c);
      |r| < |s| && r == s[..|r|] && s[|r|] == c && c !in s[|r| + 1..]
  {
    LastIndexOfIsLast(s, c);
  }

  /** The index found holds `c`, and no later index does. */
  lemma {:induction false} LastIndexOfIsLast(s: string, c: char)
    ensures LastIndexOf(s, c) >= 0 ==> s[LastIndexOf(s, c)] == c
    ensures forall j :: LastIndexOf(s, c) < j < |s| ==> s[j] != c
    decreases |s|
  {
    if s != [] && s[|s| - 1] != c {
      LastIndexOfIsLast(s[..|s| - 1], c);
    }
  }

  /** Cutting a join at its last separator drops the last piece. */
  lemma RSplitHeadOfJoin(c: char, parts: seq<string>)
    requires |parts| >= 2
    requires forall i :: 0 <= i < |parts| ==> c !in parts[i]
    ensures RSplitHead(Join(c, parts), c) == Join(c, parts[..|parts| - 1])
  {
    var n := |parts|;
    var init, last := parts[..n - 1], parts[n - 1];
    JoinAppend(c, init, [last]);
    assert init + [last] == parts;
    var j := Join(c, init);
    var s := Join(c, parts);
    assert s == j + [c] + last;
    assert s[|j|] == c;
    var r := RSplitHead(s, c);
    RSplitHeadCuts(s, c);
    assert |r| == |j|;
  }

  /** `t in s` holds exactly when `t` occurs in `s` at some index. */
  lemma ContainsIffOccurs(s: string, t: string)
    ensures Contains(s, t) <==> exists i :: OccursAt(s, t, i)
  {
    if Contains(s, t) {
      var i :| 0 <= i <= |s| && t <= s[i..];
      assert OccursAt(s, t, i);
    }
    if exists i :: OccursAt(s, t, i) {
      var i :| OccursAt(s, t, i);
      assert t <= s[i..];
    }
  }

  /** If `m` copies of `k` fit in `r`, then `m + 1` copies fit in `r + k`. */
  lemma MulSucc(m: nat, k: nat, r: nat)
    requires m * k <= r
    ensures (m + 1) * k <= r + k
  {
  }

  /** A bound on `m` copies of `k` survives one more unit of room. */
  lemma MulLe(m: nat, k: nat, r: nat)
    requires m * k <= r
    ensures m * k <= r + 1
  {
  }

  /** When `p` does not start `s`, it occurs in `s` exactly when it occurs in `s` past its first character. */
  lemma ContainsPastHead(s: string, p: string)
    requires |p| <= |s| && s[..|p|] != p
    ensures Contains(s, p) <==> Contains(s[1..], p)
  {
    if Contains(s, p) {
      var i :| 0 <= i <= |s| && p <= s[i..];
      assert i != 0;
      assert s[1..][i - 1..] == s[i..];
    }
    if Contains(s[1..], p) {
      var i :| 0 <= i <= |s[1..]| && p <= s[1..][i..];
      assert s[i + 1..] == s[1..][i..];
    }
  }

  /** A character that is in no piece, and is not the separator, is not in the join. */
  lemma {:induction false} JoinAvoids(c: char, parts: seq<string>, x: char)
    requires x != c && forall i :: 0 <= i < |parts| ==> x !in parts[i]
    ensures x !in Join(c, parts)
    decreases |parts|
  {
    if |parts| > 1 {
      JoinAvoids(c, parts[1..], x);
      assert parts[1..][0] == parts[1];
    }
  }

  /** Text found in a prefix or a suffix is found in the whole. */
  lemma ContainsInConcat(a: string, b: string, t: string)
    ensures Contains(a, t) ==> Contains(a + b, t)
    ensures Contains(b, t) ==> Contains(a + b, t)
    ensures Contains(a + t + b, t)
  {
    if Contains(a, t) {
      var i :| 0 <= i <= |a| && t <= a[i..];
      assert (a + b)[i..] == a[i..] + b;
    }
    if Contains(b, t) {
      var i :| 0 <= i <= |b| && t <= b[i..];
      assert (a + b)[|a| + i..] == b[i..];
    }
    assert (a + t + b)[|a|..] == t + b;
  }
}
