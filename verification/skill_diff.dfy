/** The skill comparison behind the compare page: the clone's skills,
    trimmed, that do not occur among the original's trimmed skills, in the
    clone's order and with the clone's repetitions. */
module SkillDiff {
  import opened Wrappers
  import opened Text
  import opened Domain

  /** `list.stream().map(String::trim)`. */
  function TrimAll(xs: seq<string>): (r: seq<string>)
    ensures |r| == |xs|
    ensures forall i | 0 <= i < |xs| :: r[i] == Trim(xs[i])
  {
    seq(|xs|, i requires 0 <= i < |xs| => Trim(xs[i]))
  }

  /** `a` can be obtained from `b` by deleting elements. */
  predicate IsSubsequence(a: seq<string>, b: seq<string>)
    decreases |b|
  {
    || a == []
    || (&& b != []
        && ((a[0] == b[0] && IsSubsequence(a[1..], b[1..])) || IsSubsequence(a, b[1..])))
  }

  /** `xs` without the elements that occur in `banned`: a subsequence of `xs`
      that holds every other element exactly as often as `xs` does. */
  function Without(xs: seq<string>, banned: seq<string>): (r: seq<string>)
    ensures forall x :: multiset(r)[x] == if x in banned then 0 else multiset(xs)[x]
    ensures IsSubsequence(r, xs)
  {
    if xs == [] then []
    else
      var rest := Without(xs[1..], banned);
      assert xs == [xs[0]] + xs[1..];
      if xs[0] in banned then rest else [xs[0]] + rest
  }

  /** An element is kept exactly when it occurs in `xs` and not in `banned`. */
  lemma WithoutMembers(xs: seq<string>, banned: seq<string>)
    ensures forall x :: x in Without(xs, banned) <==> x in xs && x !in banned
  {
    forall x ensures x in Without(xs, banned) <==> x in xs && x !in banned {
      assert x in Without(xs, banned) <==> multiset(Without(xs, banned))[x] > 0;
      assert x in xs <==> multiset(xs)[x] > 0;
    }
  }

  /** The skills of the clone that the original lacks, compared after `trim()`,
      exactly (case-sensitive). Both inputs are lists as read back from the
      stored strings. */
  function UniqueToClone(original: seq<string>, clone: seq<string>): (r: seq<string>)
    ensures forall x :: x in r <==> x in TrimAll(clone) && x !in TrimAll(original)
    ensures forall x :: multiset(r)[x] == if x in TrimAll(original) then 0 else multiset(TrimAll(clone))[x]
    ensures IsSubsequence(r, TrimAll(clone))
  {
    WithoutMembers(TrimAll(clone), TrimAll(original));
    Without(TrimAll(clone), TrimAll(original))
  }

  /** The skill list of a character as the compare page reads it: empty for a
      `null` or blank string, otherwise the string split on `,\s*`. */
  function SkillList(c: Character): (r: seq<string>)
    ensures IsNullOrBlank(c.skills) ==> r == []
    ensures forall k | 0 <= k < |r| :: ',' !in r[k]
  {
    ParseList(c.skills)
  }

  /** A character compared with itself has no unique skills. */
  lemma NothingUniqueToSelf(c: Character)
    ensures UniqueToClone(SkillList(c), SkillList(c)) == []
  {
    var r := UniqueToClone(SkillList(c), SkillList(c));
    assert forall x :: multiset(r)[x] == 0;
    assert multiset(r) == multiset{};
  }

  /** Joining ["A", "B"] gives "A, B". */
  lemma JoinedTwo()
    ensures Join(", ", ["A", "B"]) == "A, B"
  {
    var xs := ["A", "B"];
    assert xs[1..] == ["B"];
  }

  /** Joining ["A", "B", "C"] gives "A, B, C". */
  lemma JoinedThree()
    ensures Join(", ", ["A", "B", "C"]) == "A, B, C"
  {
    var xs := ["A", "B", "C"];
    assert xs[1..] == ["B", "C"];
    JoinedTail();
  }

  lemma JoinedTail()
    ensures Join(", ", ["B", "C"]) == "B, C"
  {
    var xs := ["B", "C"];
    assert xs[1..] == ["C"];
  }

  /** "A, B" reads back as the list ["A", "B"]. */
  lemma ParsedTwo()
    ensures ParseList(Some("A, B")) == ["A", "B"]
  {
    var xs := ["A", "B"];
    assert !IsWhitespace(xs[0][0]) && !IsWhitespace(xs[1][0]);
    ParseListOfJoin(xs);
    JoinedTwo();
  }

  /** "A, B, C" reads back as the list ["A", "B", "C"]. */
  lemma ParsedThree()
    ensures ParseList(Some("A, B, C")) == ["A", "B", "C"]
  {
    var xs := ["A", "B", "C"];
    assert !IsWhitespace(xs[0][0]) && !IsWhitespace(xs[1][0]) && !IsWhitespace(xs[2][0]);
    ParseListOfJoin(xs);
    JoinedThree();
  }

  /** Strings that start and end with a code point above U+0020 are
      unchanged by `trim()`. */
  lemma TrimAllUnpadded(xs: seq<string>)
    requires forall i | 0 <= i < |xs| :: xs[i] != [] && !IsTrimmable(xs[i][0]) && !IsTrimmable(xs[i][|xs[i]| - 1])
    ensures TrimAll(xs) == xs
  {
  }

  /** The single letters A, B and C are unchanged by `trim()`. */
  lemma TrimmedLetters()
    ensures TrimAll(["A", "B"]) == ["A", "B"]
    ensures TrimAll(["A", "B", "C"]) == ["A", "B", "C"]
  {
    var xs := ["A", "B", "C"];
    assert forall i | 0 <= i < 3 :: |xs[i]| == 1 && xs[i][0] > ' ';
    TrimAllUnpadded(xs);
    TrimAllUnpadded(xs[..2]);
    assert xs[..2] == ["A", "B"];
  }

  /** Dropping "A" and "B" from ["A", "B", "C"] leaves ["C"]. */
  lemma WithoutExample()
    ensures Without(["A", "B", "C"], ["A", "B"]) == ["C"]
  {
    var xs := ["A", "B", "C"];
    assert xs[1..] == ["B", "C"];
    assert xs[1..][1..] == ["C"];
    assert Without(["C"], ["A", "B"]) == ["C"];
  }

  /** Original "A, B" and clone "A, B, C": only "C" is unique to the clone. */
  lemma DiffExample(original: Character, clone: Character)
    requires original.skills == Some("A, B") && clone.skills == Some("A, B, C")
    ensures UniqueToClone(SkillList(original), SkillList(clone)) == ["C"]
  {
    ParsedTwo();
    ParsedThree();
    TrimmedLetters();
    WithoutExample();
  }
}
