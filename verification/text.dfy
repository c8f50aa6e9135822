/** The few `java.lang.String` operations the character domain relies on:
    blank tests, `trim`, `String.join` and `split(",\\s*")`, the serialisation
    of skill and equipment lists as one comma-and-space separated string. */
module Text {
  import opened Wrappers

  /** `Character.isWhitespace`: the Unicode space, line and paragraph
      separators other than the non-breaking spaces U+00A0, U+2007 and U+202F,
      plus the controls U+0009..U+000D and U+001C..U+001F. */
  predicate IsWhitespace(c: char) {
    || c == ' '
    || '\t' <= c <= '\r'
    || '\U{1C}' <= c <= '\U{1F}'
    || c == '\U{1680}'
    || '\U{2000}' <= c <= '\U{2006}'
    || '\U{2008}' <= c <= '\U{200A}'
    || c == '\U{2028}' || c == '\U{2029}'
    || c == '\U{205F}'
    || c == '\U{3000}'
  }

  /** `String.isBlank`: empty, or whitespace code points only. */
  predicate IsBlank(s: string) {
    forall i | 0 <= i < |s| :: IsWhitespace(s[i])
  }

  /** The guard `s == null || s.isBlank()`. */
  predicate IsNullOrBlank(s: Option<string>) {
    s.None? || IsBlank(s.value)
  }

  /** What `String.trim` strips from either end: every code point up to U+0020. */
  predicate IsTrimmable(c: char) {
    c <= ' '
  }

  /** The regular-expression class `\s`: space, tab, line feed, vertical tab,
      form feed and carriage return. */
  predicate IsRegexSpace(c: char) {
    c == ' ' || '\t' <= c <= '\r'
  }

  /** `s` without its leading trimmable code points. */
  function TrimStart(s: string): (r: string)
    ensures |r| <= |s| && r == s[|s| - |r|..]
    ensures forall i | 0 <= i < |s| - |r| :: IsTrimmable(s[i])
    ensures r == [] || !IsTrimmable(r[0])
  {
    if |s| > 0 && IsTrimmable(s[0]) then TrimStart(s[1..]) else s
  }

  /** `s` without its trailing trimmable code points. */
  function TrimEnd(s: string): (r: string)
    ensures |r| <= |s| && r == s[..|r|]
    ensures forall i | |r| <= i < |s| :: IsTrimmable(s[i])
    ensures r == [] || !IsTrimmable(r[|r| - 1])
  {
    if |s| > 0 && IsTrimmable(s[|s| - 1]) then TrimEnd(s[..|s| - 1]) else s
  }

  /** `String.trim`: empty exactly when every code point of `s` is trimmable,
      starting and ending with a kept code point otherwise, and a string that
      already does so is returned unchanged. `TrimIsSlice` states which slice
      of `s` it is. */
  function Trim(s: string): (r: string)
    ensures r == [] <==> forall i | 0 <= i < |s| :: IsTrimmable(s[i])
    ensures r != [] ==> !IsTrimmable(r[0]) && !IsTrimmable(r[|r| - 1])
    ensures s == [] || (!IsTrimmable(s[0]) && !IsTrimmable(s[|s| - 1])) ==> r == s
  {
    var t := TrimStart(s);
    assert t == [] ==> forall i | 0 <= i < |s| :: IsTrimmable(s[i]);
    TrimEnd(t)
  }

  /** `trim()` gives the slice of `s` left once the trimmable code points are
      removed from either end: everything before it and after it is
      trimmable, and it starts and ends with a kept code point unless empty. */
  lemma TrimIsSlice(s: string)
    ensures exists i, j | 0 <= i <= j <= |s| ::
      && Trim(s) == s[i..j]
      && (forall k | 0 <= k < i :: IsTrimmable(s[k]))
      && (forall k | j <= k < |s| :: IsTrimmable(s[k]))
  {
    var t := TrimStart(s);
    var r := TrimEnd(t);
    var i, j := |s| - |t|, |s| - |t| + |r|;
    assert Trim(s) == r;
    assert r == s[i..j] by {
      SliceOfSuffix(s, i, |r|);
    }
    forall k | j <= k < |s| ensures IsTrimmable(s[k]) {
      assert s[k] == t[k - i];
    }
  }

  lemma SliceOfSuffix(s: string, i: nat, n: nat)
    requires i + n <= |s|
    ensures s[i..][..n] == s[i..i + n]
  {
  }

  /** `String.join(sep, xs)`: the empty list gives `""`, any other starts with
      its first element. */
  function Join(sep: string, xs: seq<string>): (r: string)
    ensures xs == [] ==> r == ""
    ensures |xs| >= 1 ==> xs[0] <= r
  {
    if |xs| == 0 then ""
    else if |xs| == 1 then xs[0]
    else xs[0] + sep + Join(sep, xs[1..])
  }

  /** The number of times `c` occurs in `s`. */
  function Count(s: string, c: char): nat
  {
    if s == [] then 0 else (if s[0] == c then 1 else 0) + Count(s[1..], c)
  }

  lemma {:induction false} CountAppend(a: string, b: string, c: char)
    ensures Count(a + b, c) == Count(a, c) + Count(b, c)
  {
    if a == [] {
      assert a + b == b;
    } else {
      assert (a + b)[0] == a[0];
      assert (a + b)[1..] == a[1..] + b;
      CountAppend(a[1..], b, c);
    }
  }

  /** `c` occurs in `s` exactly when its count is positive. */
  lemma {:induction false} CountPositive(s: string, c: char)
    ensures Count(s, c) > 0 <==> c in s
  {
    if s != [] {
      CountPositive(s[1..], c);
      assert s == [s[0]] + s[1..];
    }
  }

  /** The position of the first `c` in `s`. */
  function IndexOf(s: string, c: char): (i: nat)
    requires Count(s, c) > 0
    ensures i < |s| && s[i] == c
    ensures Count(s[..i], c) == 0
  {
    if s[0] == c then 0
    else
      var i := 1 + IndexOf(s[1..], c);
      assert s[..i][1..] == s[1..][..i - 1];
      i
  }

  /** `s` without its leading `\s` characters: what the greedy `\s*` after a
      separator comma consumes. */
  function DropRegexSpaces(s: string): (r: string)
    ensures |r| <= |s| && r == s[|s| - |r|..]
    ensures Count(s[..|s| - |r|], ',') == 0
    ensures r == [] || !IsRegexSpace(r[0])
  {
    if |s| > 0 && IsRegexSpace(s[0]) then
      var r := DropRegexSpaces(s[1..]);
      assert s[..|s| - |r|][1..] == s[1..][..|s| - 1 - |r|];
      r
    else s
  }

  /** The substrings between successive matches of `,\s*`, the last one
      included even when empty. */
  function Pieces(s: string): seq<string>
    decreases |s|
  {
    if Count(s, ',') == 0 then [s] else [Before(s)] + Pieces(After(s))
  }

  /** What precedes the first comma. */
  function Before(s: string): string
    requires Count(s, ',') > 0
  {
    s[..IndexOf(s, ',')]
  }

  /** What follows the first match of `,\s*`: the first comma and the `\s`
      run after it are consumed. */
  function After(s: string): (r: string)
    requires Count(s, ',') > 0
    ensures |r| < |s|
  {
    DropRegexSpaces(s[IndexOf(s, ',') + 1..])
  }

  /** Cutting `s` at its first comma and the `\s` run after it removes exactly
      one comma. */
  lemma SeparatorCount(s: string)
    requires Count(s, ',') > 0
    ensures Count(s, ',') == Count(After(s), ',') + 1
  {
    CountAtFirstComma(s);
    DropKeepsCount(s[IndexOf(s, ',') + 1..]);
  }

  lemma CountAtFirstComma(s: string)
    requires Count(s, ',') > 0
    ensures Count(s, ',') == 1 + Count(s[IndexOf(s, ',') + 1..], ',')
  {
    CountAround(s, IndexOf(s, ','));
  }

  lemma DropKeepsCount(s: string)
    ensures Count(s, ',') == Count(DropRegexSpaces(s), ',')
  {
    CountSuffix(s, |s| - |DropRegexSpaces(s)|);
  }

  /** The count of `s` splits around position `i`. */
  lemma CountAround(s: string, i: nat)
    requires i < |s|
    ensures Count(s, s[i]) == Count(s[..i], s[i]) + 1 + Count(s[i + 1..], s[i])
  {
    assert s == s[..i] + ([s[i]] + s[i + 1..]);
    CountAppend(s[..i], [s[i]] + s[i + 1..], s[i]);
    CountAppend([s[i]], s[i + 1..], s[i]);
    assert [s[i]][1..] == [];
  }

  /** Dropping a prefix that holds no comma keeps the count. */
  lemma CountSuffix(s: string, n: nat)
    requires n <= |s| && Count(s[..n], ',') == 0
    ensures Count(s, ',') == Count(s[n..], ',')
  {
    assert s == s[..n] + s[n..];
    CountAppend(s[..n], s[n..], ',');
  }

  /** There is one piece more than `s` has commas. */
  lemma {:induction false} PiecesCount(s: string)
    ensures |Pieces(s)| == Count(s, ',') + 1
    decreases |s|
  {
    if Count(s, ',') == 0 {
      assert Pieces(s) == [s];
    } else {
      var next := After(s);
      assert |Pieces(next)| == Count(next, ',') + 1 by {
        PiecesCount(next);
      }
      assert Count(s, ',') == Count(next, ',') + 1 by {
        SeparatorCount(s);
      }
      assert |Pieces(s)| == |Pieces(next)| + 1 by {
        PiecesStep(s);
      }
    }
  }

  /** Past the first comma, the pieces are the first one and those of the rest. */
  lemma PiecesStep(s: string)
    requires Count(s, ',') > 0
    ensures Pieces(s) == [Before(s)] + Pieces(After(s))
  {
  }

  /** No element of `xs` holds a comma. */
  predicate CommaFree(xs: seq<string>) {
    forall k | 0 <= k < |xs| :: Count(xs[k], ',') == 0
  }

  lemma ConsCommaFree(h: string, t: seq<string>)
    requires Count(h, ',') == 0 && CommaFree(t)
    ensures CommaFree([h] + t)
  {
    forall k | 0 <= k < |[h] + t| ensures Count(([h] + t)[k], ',') == 0 {
      if k > 0 {
        assert ([h] + t)[k] == t[k - 1];
      }
    }
  }

  /** No piece holds a comma. */
  lemma {:induction false} PiecesCommaFree(s: string)
    ensures CommaFree(Pieces(s))
    decreases |s|
  {
    if Count(s, ',') == 0 {
      assert Pieces(s) == [s];
    } else {
      PiecesCommaFree(After(s));
      PiecesStep(s);
      ConsCommaFree(Before(s), Pieces(After(s)));
    }
  }

  /** Empty, or starting with a character outside `\s`. */
  predicate Unpadded(s: string) {
    s == [] || !IsRegexSpace(s[0])
  }

  /** `xs` without its trailing empty strings. */
  function StripTrailingEmpty(xs: seq<string>): (r: seq<string>)
    ensures |r| <= |xs| && r == xs[..|r|]
    ensures forall k | |r| <= k < |xs| :: xs[k] == []
    ensures r == [] || r[|r| - 1] != []
  {
    if |xs| > 0 && xs[|xs| - 1] == [] then StripTrailingEmpty(xs[..|xs| - 1]) else xs
  }

  /** `s.split(",\\s*")`: without a match the whole string is the only element;
      otherwise the pieces between matches with the trailing empty ones removed.
      No element holds a comma, and there are at most one more than commas. */
  function Split(s: string): (r: seq<string>)
    ensures ',' !in s ==> r == [s]
    ensures forall k | 0 <= k < |r| :: ',' !in r[k]
    ensures |r| <= Count(s, ',') + 1
  {
    CountPositive(s, ',');
    if Count(s, ',') == 0 then [s]
    else
      PiecesCount(s);
      PiecesCommaFree(s);
      StripKeepsCommaFree(Pieces(s));
      StripTrailingEmpty(Pieces(s))
  }

  lemma StripKeepsCommaFree(xs: seq<string>)
    requires forall k | 0 <= k < |xs| :: Count(xs[k], ',') == 0
    ensures forall k | 0 <= k < |StripTrailingEmpty(xs)| :: ',' !in StripTrailingEmpty(xs)[k]
  {
    var r := StripTrailingEmpty(xs);
    forall k | 0 <= k < |r| ensures ',' !in r[k] {
      assert r[k] == xs[k];
      CountPositive(xs[k], ',');
    }
  }

  /** A stored list read back: `null` or blank gives the empty list, anything
      else is split on `,\s*`. */
  function ParseList(s: Option<string>): (r: seq<string>)
    ensures IsNullOrBlank(s) ==> r == []
    ensures !IsNullOrBlank(s) ==> |r| >= 1 || ',' in s.value
    ensures forall k | 0 <= k < |r| :: ',' !in r[k]
  {
    if IsNullOrBlank(s) then [] else Split(s.value)
  }

  /** The joined string does not start with `\s` when its first element does not. */
  lemma JoinHead(xs: seq<string>)
    requires |xs| >= 1
    requires xs[0] == [] || !IsRegexSpace(xs[0][0])
    ensures Join(", ", xs) == [] || !IsRegexSpace(Join(", ", xs)[0])
  {
    if |xs| > 1 {
      var j := Join(", ", xs);
      assert j == xs[0] + ", " + Join(", ", xs[1..]);
      if xs[0] == [] {
        assert j[0] == ',';
      } else {
        assert j[0] == xs[0][0];
      }
    }
  }

  /** The first comma of `a + b` is the first character of `b` when `a` has none. */
  lemma {:induction false} IndexOfAfter(a: string, b: string)
    requires Count(a, ',') == 0 && |b| > 0 && b[0] == ','
    ensures Count(a + b, ',') > 0
    ensures IndexOf(a + b, ',') == |a|
  {
    CountAppend(a, b, ',');
    if a != [] {
      assert (a + b)[0] == a[0];
      assert (a + b)[1..] == a[1..] + b;
      IndexOfAfter(a[1..], b);
    }
  }

  /** In `a + ", " + b` with a comma-free `a`, the first match of `,\s*` is the
      separator, what precedes it is `a`, and what follows it is `b` when `b`
      does not start with `\s`. */
  lemma FirstSeparator(a: string, b: string)
    requires Count(a, ',') == 0
    requires b == [] || !IsRegexSpace(b[0])
    ensures Count(a + ", " + b, ',') > 0
    ensures IndexOf(a + ", " + b, ',') == |a|
    ensures (a + ", " + b)[..|a|] == a
    ensures DropRegexSpaces((a + ", " + b)[|a| + 1..]) == b
  {
    assert a + ", " + b == a + (", " + b);
    IndexOfAfter(a, ", " + b);
    SeparatorSlices(a, b);
    DropOneSpace(b);
  }

  lemma SeparatorSlices(a: string, b: string)
    ensures (a + ", " + b)[..|a|] == a
    ensures (a + ", " + b)[|a| + 1..] == " " + b
  {
  }

  lemma DropOneSpace(b: string)
    requires b == [] || !IsRegexSpace(b[0])
    ensures DropRegexSpaces(" " + b) == b
  {
    assert (" " + b)[1..] == b;
  }

  /** Past a separator `", "` that is followed by something other than `\s`,
      the pieces are the comma-free part before it and the pieces after it. */
  lemma PiecesOfSeparated(a: string, b: string)
    requires Count(a, ',') == 0 && Unpadded(b)
    ensures Pieces(a + ", " + b) == [a] + Pieces(b)
  {
    FirstSeparator(a, b);
    assert Before(a + ", " + b) == a && After(a + ", " + b) == b;
    PiecesStep(a + ", " + b);
  }

  /** Joining with `", "` and cutting at every `,\s*` gives the elements back,
      as long as none holds a comma and none after the first starts with `\s`. */
  lemma {:induction false} PiecesOfJoin(xs: seq<string>)
    requires |xs| >= 1
    requires forall k | 0 <= k < |xs| :: Count(xs[k], ',') == 0
    requires forall k | 1 <= k < |xs| :: Unpadded(xs[k])
    ensures Pieces(Join(", ", xs)) == xs
  {
    if |xs| == 1 {
      assert Join(", ", xs) == xs[0];
      assert Count(xs[0], ',') == 0;
    } else {
      var tail := Join(", ", xs[1..]);
      assert Pieces(tail) == xs[1..] by {
        PiecesOfJoin(xs[1..]);
      }
      assert Unpadded(tail) by {
        JoinHead(xs[1..]);
      }
      assert Pieces(Join(", ", xs)) == [xs[0]] + Pieces(tail) by {
        assert Join(", ", xs) == xs[0] + ", " + tail;
        PiecesOfSeparated(xs[0], tail);
      }
      assert xs == [xs[0]] + xs[1..];
    }
  }

  /** With a comma present and a non-empty last piece, splitting keeps every
      piece. */
  lemma SplitOfPieces(s: string)
    requires Count(s, ',') > 0
    requires Pieces(s)[|Pieces(s)| - 1] != []
    ensures Split(s) == Pieces(s)
  {
    CountPositive(s, ',');
    var r := StripTrailingEmpty(Pieces(s));
    assert |r| == |Pieces(s)|;
  }

  /** Two or more elements joined with `", "` hold a comma. */
  lemma JoinHasComma(xs: seq<string>)
    requires |xs| >= 2
    ensures Count(Join(", ", xs), ',') > 0
  {
    var t := Join(", ", xs[1..]);
    assert Join(", ", xs) == (xs[0] + ", ") + t;
    CountAppend(xs[0] + ", ", t, ',');
    CountAppend(xs[0], ", ", ',');
    assert Count(", ", ',') >= 1 by {
      assert ", "[0] == ',';
    }
  }

  /** `split(",\s*")` inverts `String.join(", ", xs)` for a non-empty list of
      non-empty, comma-free elements none of which after the first starts with
      `\s`. */
  lemma SplitOfJoin(xs: seq<string>)
    requires |xs| >= 1
    requires forall k | 0 <= k < |xs| :: xs[k] != [] && ',' !in xs[k]
    requires forall k | 1 <= k < |xs| :: !IsRegexSpace(xs[k][0])
    ensures Split(Join(", ", xs)) == xs
  {
    var j := Join(", ", xs);
    if |xs| == 1 {
      assert j == xs[0];
    } else {
      assert Pieces(j) == xs by {
        forall k | 0 <= k < |xs| ensures Count(xs[k], ',') == 0 {
          CountPositive(xs[k], ',');
        }
        PiecesOfJoin(xs);
      }
      JoinHasComma(xs);
      SplitOfPieces(j);
    }
  }

  /** Reading back a joined list: the empty list round-trips through `""`, and
      a list of non-empty, comma-free elements none of which after the first
      starts with `\s` is recovered exactly, provided a one-element list is not
      blank. */
  lemma ParseListOfJoin(xs: seq<string>)
    requires forall k | 0 <= k < |xs| :: xs[k] != [] && ',' !in xs[k]
    requires forall k | 1 <= k < |xs| :: !IsRegexSpace(xs[k][0])
    requires |xs| == 1 ==> !IsBlank(xs[0])
    ensures ParseList(Some(Join(", ", xs))) == xs
  {
    var s := Join(", ", xs);
    if |xs| == 0 {
      assert IsNullOrBlank(Some(s));
    } else {
      JoinNotBlank(xs);
      SplitOfJoin(xs);
      assert ParseList(Some(s)) == Split(s);
    }
  }

  /** A joined list is not blank when it has a separator or its only element
      is not blank. */
  lemma JoinNotBlank(xs: seq<string>)
    requires |xs| >= 1
    requires |xs| == 1 ==> !IsBlank(xs[0])
    ensures !IsNullOrBlank(Some(Join(", ", xs)))
  {
    var s := Join(", ", xs);
    if |xs| == 1 {
      var w :| 0 <= w < |xs[0]| && !IsWhitespace(xs[0][w]);
      assert s[w] == xs[0][w];
    } else {
      JoinHasComma(xs);
      CountPositive(s, ',');
      var w :| 0 <= w < |s| && s[w] == ',';
      assert !IsWhitespace(s[w]);
    }
  }

  /** Joining comma-free elements with `", "` puts exactly one comma between
      each two of them. */
  lemma {:induction false} JoinCommaCount(xs: seq<string>)
    requires |xs| >= 1 && CommaFree(xs)
    ensures Count(Join(", ", xs), ',') == |xs| - 1
  {
    if |xs| > 1 {
      var t := Join(", ", xs[1..]);
      assert Count(t, ',') == |xs| - 2 by {
        assert CommaFree(xs[1..]) by {
          forall k | 0 <= k < |xs[1..]| ensures Count(xs[1..][k], ',') == 0 {
            assert xs[1..][k] == xs[k + 1];
          }
        }
        JoinCommaCount(xs[1..]);
      }
      assert Join(", ", xs) == (xs[0] + ", ") + t;
      CountAppend(xs[0] + ", ", t, ',');
      CountAppend(xs[0], ", ", ',');
      assert Count(", ", ',') == 1 by {
        assert ", "[1..] == " ";
        assert " "[1..] == "";
      }
    }
  }

  /** A stored list of comma-free entries reads back as at most as many
      entries as it had: the join puts one comma between each two entries,
      and the split makes at most one entry more than there are commas. */
  lemma ParseJoinBound(xs: seq<string>)
    requires CommaFree(xs)
    ensures |ParseList(Some(Join(", ", xs)))| <= |xs|
  {
    var s := Join(", ", xs);
    if |xs| >= 1 && !IsNullOrBlank(Some(s)) {
      JoinCommaCount(xs);
      assert |ParseList(Some(s))| == |Split(s)| <= Count(s, ',') + 1;
    }
  }

  /** Joining two non-empty lists one after the other is joining each and
      putting the separator between. */
  lemma {:induction false} JoinAppend(xs: seq<string>, ys: seq<string>)
    requires |xs| >= 1 && |ys| >= 1
    ensures Join(", ", xs + ys) == Join(", ", xs) + ", " + Join(", ", ys)
  {
    assert (xs + ys)[0] == xs[0];
    if |xs| == 1 {
      assert (xs + ys)[1..] == ys;
    } else {
      assert (xs + ys)[1..] == xs[1..] + ys;
      JoinAppend(xs[1..], ys);
      assert Join(", ", xs) == xs[0] + ", " + Join(", ", xs[1..]);
    }
  }
}
