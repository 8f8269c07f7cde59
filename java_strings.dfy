/** The java.lang.String operations the core relies on, with Java's semantics:
    prefix and suffix tests, single-character replacement and, above all,
    `split` on a one-character delimiter, which drops trailing empty strings. */
module JavaStrings {

  predicate StartsWith(s: string, prefix: string) {
    |prefix| <= |s| && s[..|prefix|] == prefix
  }

  predicate EndsWith(s: string, suffix: string) {
    |suffix| <= |s| && s[|s| - |suffix|..] == suffix
  }

  /** String.replace(char, char) (and replace(".", "/") on one-character strings):
      every occurrence of `from` becomes `to`. */
  function Replace(s: string, from: char, to: char): (r: string)
    ensures |r| == |s|
    ensures forall i :: 0 <= i < |s| ==> r[i] == (if s[i] == from then to else s[i])
  {
    if s == [] then [] else [if s[0] == from then to else s[0]] + Replace(s[1..], from, to)
  }

  /** A string of `n` copies of `c`. */
  function Repeat(c: char, n: nat): (r: string)
    ensures |r| == n
    ensures forall i :: 0 <= i < n ==> r[i] == c
  {
    if n == 0 then [] else [c] + Repeat(c, n - 1)
  }

  /** The substrings of `s` between the occurrences of `d`, before Java's
      removal of trailing empty strings. */
  function Pieces(s: string, d: char): (r: seq<string>)
    ensures |r| >= 1
    ensures forall k :: 0 <= k < |r| ==> d !in r[k]
  {
    if s == [] then [""]
    else
      var rest := Pieces(s[1..], d);
      if s[0] == d then [""] + rest else [[s[0]] + rest[0]] + rest[1..]
  }

  /** Java's final step of split with limit 0: trailing empty strings are removed. */
  function DropTrailingEmpty(xs: seq<string>): (r: seq<string>)
    ensures |r| <= |xs| && r == xs[..|r|]
    ensures r == [] || r[|r| - 1] != ""
    ensures forall k :: |r| <= k < |xs| ==> xs[k] == ""
  {
    if |xs| > 0 && xs[|xs| - 1] == "" then DropTrailingEmpty(xs[..|xs| - 1]) else xs
  }

  /** s.split(String.valueOf(d)) for a delimiter that is not a regular
      expression metacharacter.  With no occurrence of `d` the input comes back
      whole (so "".split(x) is [""]); otherwise trailing empty strings are dropped
      (so " ".split(" ") is []). */
  function Split(s: string, d: char): (r: seq<string>)
    ensures forall k :: 0 <= k < |r| ==> d !in r[k]
    ensures d in s ==> r == [] || r[|r| - 1] != ""
    ensures d !in s ==> r == [s]
  {
    if d !in s then [s] else DropTrailingEmpty(Pieces(s, d))
  }

  /** The inverse of Split: the parts joined back together with `d` between them. */
  function JoinWith(xs: seq<string>, d: char): string {
    if xs == [] then ""
    else if |xs| == 1 then xs[0]
    else xs[0] + [d] + JoinWith(xs[1..], d)
  }

  lemma {:induction false} JoinPieces(s: string, d: char)
    ensures JoinWith(Pieces(s, d), d) == s
  {
    if s != [] {
      var rest := Pieces(s[1..], d);
      JoinPieces(s[1..], d);
      if s[0] == d {
        assert ([""] + rest)[1..] == rest;
      } else if |rest| > 1 {
        var p := [[s[0]] + rest[0]] + rest[1..];
        assert p[1..] == rest[1..];
        assert JoinWith(rest, d) == rest[0] + [d] + JoinWith(rest[1..], d);
      }
    }
  }

  lemma {:induction false} JoinAppendEmpty(xs: seq<string>, d: char)
    requires xs != []
    ensures JoinWith(xs + [""], d) == JoinWith(xs, d) + [d]
  {
    if |xs| == 1 {
      assert xs + [""] == [xs[0], ""];
      assert [xs[0], ""][1..] == [""];
    } else {
      assert (xs + [""])[1..] == xs[1..] + [""];
      JoinAppendEmpty(xs[1..], d);
    }
  }

  /** One more copy at the end is one more copy. */
  lemma {:induction false} RepeatSnoc(c: char, n: nat)
    ensures Repeat(c, n) + [c] == Repeat(c, n + 1)
  {
    if n > 0 {
      RepeatSnoc(c, n - 1);
      assert [c] + (Repeat(c, n - 1) + [c]) == ([c] + Repeat(c, n - 1)) + [c];
    }
  }

  /** The step of JoinDropTrailing that appends one trailing delimiter. */
  lemma JoinTrailingStep(j: string, n: nat, d: char)
    ensures (j + Repeat(d, n)) + [d] == j + Repeat(d, n + 1)
  {
    RepeatSnoc(d, n);
    assert (j + Repeat(d, n)) + [d] == j + (Repeat(d, n) + [d]);
  }

  lemma {:induction false} JoinDropTrailing(xs: seq<string>, d: char)
    requires xs != []
    ensures var j := JoinWith(DropTrailingEmpty(xs), d);
            var s := JoinWith(xs, d);
            |j| <= |s| && s == j + Repeat(d, |s| - |j|)
    decreases |xs|
  {
    if xs[|xs| - 1] == "" {
      var init := xs[..|xs| - 1];
      assert DropTrailingEmpty(xs) == DropTrailingEmpty(init);
      if init == [] {
        assert xs == [""];
        assert DropTrailingEmpty(init) == [];
      } else {
        assert xs == init + [""];
        JoinAppendEmpty(init, d);
        JoinDropTrailing(init, d);
        var j := JoinWith(DropTrailingEmpty(init), d);
        var s0 := JoinWith(init, d);
        JoinTrailingStep(j, |s0| - |j|, d);
      }
    }
  }

  /** Joining the parts of a split gives back the input up to the trailing
      delimiters that split discarded. */
  lemma SplitRejoin(s: string, d: char)
    ensures var j := JoinWith(Split(s, d), d);
            |j| <= |s| && s == j + Repeat(d, |s| - |j|)
  {
    if d in s {
      JoinPieces(s, d);
      JoinDropTrailing(Pieces(s, d), d);
    }
  }

  lemma {:induction false} PiecesOfDelimiters(s: string, d: char)
    requires forall i :: 0 <= i < |s| ==> s[i] == d
    ensures forall k :: 0 <= k < |Pieces(s, d)| ==> Pieces(s, d)[k] == ""
  {
    if s != [] {
      PiecesOfDelimiters(s[1..], d);
    }
  }

  /** A string without the delimiter is one piece. */
  lemma {:induction false} PiecesWithoutDelimiter(y: string, d: char)
    requires d !in y
    ensures Pieces(y, d) == [y]
  {
    if y != [] {
      PiecesWithoutDelimiter(y[1..], d);
      assert [y[0]] + y[1..] == y;
    }
  }

  /** Split is empty exactly when the input is a non-empty run of delimiters. */
  lemma SplitEmptyIff(s: string, d: char)
    ensures Split(s, d) == [] <==> (s != [] && forall i :: 0 <= i < |s| ==> s[i] == d)
  {
    if Split(s, d) == [] {
      SplitRejoin(s, d);
      assert JoinWith(Split(s, d), d) == "";
    }
    if s != [] && forall i :: 0 <= i < |s| ==> s[i] == d {
      assert s[0] == d;
      PiecesOfDelimiters(s, d);
    }
  }

  /** Splitting a part that holds no delimiter, followed by the delimiter, peels
      exactly that part off the front. */
  lemma {:induction false} PiecesCons(x: string, y: string, d: char)
    requires d !in x
    ensures Pieces(x + [d] + y, d) == [x] + Pieces(y, d)
  {
    var s := x + [d] + y;
    if x == [] {
      assert s[1..] == y;
    } else {
      assert s[1..] == x[1..] + [d] + y;
      PiecesCons(x[1..], y, d);
      assert [x[0]] + x[1..] == x;
    }
  }

  /** The first token of a split is a prefix of the input that ends at the
      first delimiter or at the end of the input. */
  lemma {:induction false} FirstPiece(s: string, d: char)
    ensures var p := Pieces(s, d)[0];
            |p| <= |s| && s[..|p|] == p && (|p| == |s| || s[|p|] == d)
  {
    if s != [] && s[0] != d {
      FirstPiece(s[1..], d);
    }
  }

  lemma SplitFirst(s: string, d: char)
    requires Split(s, d) != []
    ensures var p := Split(s, d)[0];
            |p| <= |s| && s[..|p|] == p && d !in p && (|p| == |s| || s[|p|] == d)
  {
    FirstPiece(s, d);
  }
}
