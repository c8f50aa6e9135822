/** The two request records: the wizard's accumulated form
    (`CharacterFormDTO`) and the clone patch (`CharacterPatchDTO`), with their
    Bean Validation annotations restated as predicates. */
module Dto {
  import opened Wrappers
  import opened Text
  import opened Domain

  /** `@NotBlank`: not `null`, and something is left after `trim()`. */
  predicate NotBlank(s: Option<string>) {
    s.Some? && Trim(s.value) != []
  }

  /** `@Size(max = n)` on a string: `null` passes. */
  predicate SizeAtMost(s: Option<string>, n: nat) {
    s.None? || |s.value| <= n
  }

  /** Some code point above U+0020, which `trim()` would keep. */
  predicate HasVisible(s: string) {
    exists i | 0 <= i < |s| :: !IsTrimmable(s[i])
  }

  /** `@NotBlank` holds exactly for a present string with a code point above
      U+0020. */
  lemma NotBlankIff(s: Option<string>)
    ensures NotBlank(s) <==> s.Some? && HasVisible(s.value)
  {
  }

  /** A string of ASCII code points that passes `@NotBlank` is not blank for
      `String.isBlank` either: every ASCII whitespace character is trimmable. */
  lemma AsciiNotBlank(s: Option<string>)
    requires s.Some? && forall i | 0 <= i < |s.value| :: s.value[i] < '\U{80}'
    requires NotBlank(s)
    ensures !IsNullOrBlank(s)
  {
    NotBlankIff(s);
    var i :| 0 <= i < |s.value| && !IsTrimmable(s.value[i]);
    VisibleAsciiNotBlank(s.value, i);
  }

  /** One ASCII code point above U+0020 keeps a string from being blank. */
  lemma VisibleAsciiNotBlank(t: string, i: int)
    requires 0 <= i < |t| && ' ' < t[i] < '\U{80}'
    ensures !IsBlank(t)
  {
    assert !IsWhitespace(t[i]);
  }

  /** `@NotBlank` is weaker than `isBlank()` outside ASCII: U+2000 (EN QUAD)
      survives `trim()` but is whitespace. */
  lemma NotBlankAdmitsBlank()
    ensures NotBlank(Some("\U{2000}")) && IsNullOrBlank(Some("\U{2000}"))
  {
    assert Trim("\U{2000}") == "\U{2000}";
  }

  /** The wizard's accumulated form. Its lists are never `null`: they start
      empty and the setters map `null` to the empty list. */
  datatype Form = Form(
    name: Option<string>,
    race: Option<string>,
    characterClass: Option<string>,
    stats: Stats,
    skills: seq<string>,
    equipment: seq<string>)

  /** `new CharacterFormDTO()`: stats at 1, empty lists, no name, race or class. */
  function NewForm(): (f: Form)
    ensures forall s: Stat :: f.stats.Get(s) == 1
    ensures f.skills == [] && f.equipment == []
    ensures f.name.None? && f.race.None? && f.characterClass.None?
  {
    Form(None, None, None, DefaultStats, [], [])
  }

  /** `setSkills`: `null` becomes the empty list, a list is stored as given;
      nothing else changes. */
  function SetSkills(f: Form, xs: Option<seq<string>>): (r: Form)
    ensures xs.None? ==> r.skills == []
    ensures xs.Some? ==> r.skills == xs.value
    ensures r == f.(skills := r.skills)
  {
    f.(skills := xs.GetOr([]))
  }

  /** `setEquipment`: `null` becomes the empty list, a list is stored as given;
      nothing else changes. */
  function SetEquipment(f: Form, xs: Option<seq<string>>): (r: Form)
    ensures xs.None? ==> r.equipment == []
    ensures xs.Some? ==> r.equipment == xs.value
    ensures r == f.(equipment := r.equipment)
  {
    f.(equipment := xs.GetOr([]))
  }

  /** The constraints on `CharacterFormDTO`. */
  predicate FormValid(f: Form) {
    && NotBlank(f.name)
    && SizeAtMost(f.name, 100)
    && NotBlank(f.characterClass)
    && f.stats.InRange()
    && |f.skills| <= 4
    && |f.equipment| <= 3
  }

  /** A valid form has a present name of at most 100 code points with a
      visible one among them, a present class with a visible code point, every
      stat within [1, 100], at most 4 skills and at most 3 equipment items; and
      every such form is valid. */
  lemma FormValidIff(f: Form)
    ensures FormValid(f) <==>
      && f.name.Some? && HasVisible(f.name.value) && |f.name.value| <= 100
      && f.characterClass.Some? && HasVisible(f.characterClass.value)
      && (forall s: Stat :: 1 <= f.stats.Get(s) <= 100)
      && |f.skills| <= 4
      && |f.equipment| <= 3
  {
    NotBlankIff(f.name);
    NotBlankIff(f.characterClass);
  }

  /** The clone patch: only the name is mandatory; an absent class, skill list
      or equipment list is `null`. */
  datatype Patch = Patch(
    name: Option<string>,
    characterClass: Option<string>,
    skills: Option<seq<string>>,
    equipment: Option<seq<string>>)

  /** `new CharacterPatchDTO()`: every field absent. */
  function NewPatch(): (p: Patch)
    ensures p.name.None? && p.characterClass.None? && p.skills.None? && p.equipment.None?
  {
    Patch(None, None, None, None)
  }

  /** The constraints on `CharacterPatchDTO`; `@Size` lets `null` lists pass. */
  predicate PatchValid(p: Patch) {
    && NotBlank(p.name)
    && SizeAtMost(p.name, 100)
    && (p.skills.None? || |p.skills.value| <= 4)
    && (p.equipment.None? || |p.equipment.value| <= 3)
  }

  /** A valid patch has a present name of at most 100 code points with a
      visible one among them, at most 4 skills and at most 3 equipment items
      when those lists are present; the class is unconstrained. */
  lemma PatchValidIff(p: Patch)
    ensures PatchValid(p) <==>
      && p.name.Some? && HasVisible(p.name.value) && |p.name.value| <= 100
      && (p.skills.Some? ==> |p.skills.value| <= 4)
      && (p.equipment.Some? ==> |p.equipment.value| <= 3)
  {
    NotBlankIff(p.name);
  }
}
