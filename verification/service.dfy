/** `CharacterService.buildFromForm`: the accumulated wizard form is turned
    into a character through the builder and saved once. */
module CharacterService {
  import opened Wrappers
  import opened Text
  import opened Domain
  import opened Repository
  import opened Dto

  /** A list as it is stored: `String.join(", ", list)` when the list is
      non-empty, `""` otherwise. The guard is redundant: joining the empty list
      already gives `""`. */
  function JoinList(xs: seq<string>): (r: string)
    ensures r == Join(", ", xs)
    ensures xs == [] ==> r == ""
  {
    if |xs| > 0 then Join(", ", xs) else ""
  }

  /** The builder chain of `buildFromForm` before `build()`: name, race and
      class as given, each stat clamped, the lists joined. */
  function FormBuilder(f: Form): (b: Builder)
    ensures b.name == f.name && b.race == f.race && b.characterClass == f.characterClass
    ensures forall s: Stat :: b.stats.Get(s) == Clamp(f.stats.Get(s))
    ensures b.stats.InRange()
    ensures b.skills == Join(", ", f.skills)
    ensures b.equipment == Join(", ", f.equipment)
  {
    var b := NewBuilder().(name := f.name).(race := f.race).(characterClass := f.characterClass);
    var b := WithStat(b, Level, f.stats.level);
    var b := WithStat(b, Strength, f.stats.strength);
    var b := WithStat(b, Agility, f.stats.agility);
    var b := WithStat(b, Intelligence, f.stats.intelligence);
    var b := WithStat(b, Vitality, f.stats.vitality);
    var b := WithStat(b, Luck, f.stats.luck);
    var b := WithSkills(b, Some(JoinList(f.skills)));
    WithEquipment(b, Some(JoinList(f.equipment)))
  }

  /** `buildFromForm` at time `now` against store `s`. A null or blank name or
      class makes `build()` throw and nothing is saved. Otherwise exactly one
      new row is added under a fresh id, and it is the returned character:
      name, race and class as in the form, every stat clamped into [1, 100],
      skills and equipment joined with `", "`, no lineage, created at `now`. */
  function BuildFromForm(s: Store, f: Form, now: Timestamp): (r: (Result<Character, Error>, Store))
    ensures r.0.Failure? <==> IsNullOrBlank(f.name) || IsNullOrBlank(f.characterClass)
    ensures r.0.Failure? ==> r.1 == s
    ensures IsNullOrBlank(f.name) ==> r.0 == Failure(BlankName)
    ensures r.0.Success? ==>
      && r.0.value.id == Some(s.nextId)
      && s.nextId !in s.rows
      && r.1.rows == s.rows[s.nextId := r.0.value]
    ensures r.0.Success? ==>
      && r.0.value.name == f.name
      && r.0.value.race == f.race
      && r.0.value.characterClass == f.characterClass
      && (forall st: Stat :: r.0.value.stats.Get(st) == Clamp(f.stats.Get(st)))
      && r.0.value.skills == Some(Join(", ", f.skills))
      && r.0.value.equipment == Some(Join(", ", f.equipment))
      && r.0.value.clonedFromId.None?
      && r.0.value.createdAt == Some(now)
      && WellFormed(r.0.value)
  {
    match Build(FormBuilder(f), now)
    case Failure(e) => (Failure(e), s)
    case Success(c) =>
      var (saved, s') := Save(s, c);
      (Success(saved), s')
  }

  /** A form that passes its own constraints is stored with its stats exactly
      as entered: clamping changes nothing in range. */
  lemma ValidFormStatsKept(s: Store, f: Form, now: Timestamp)
    requires FormValid(f)
    requires BuildFromForm(s, f, now).0.Success?
    ensures BuildFromForm(s, f, now).0.value.stats == f.stats
  {
    var c := BuildFromForm(s, f, now).0.value;
    assert forall st: Stat :: c.stats.Get(st) == f.stats.Get(st);
    assert c.stats.level == c.stats.Get(Level);
    assert c.stats.strength == c.stats.Get(Strength);
    assert c.stats.agility == c.stats.Get(Agility);
    assert c.stats.intelligence == c.stats.Get(Intelligence);
    assert c.stats.vitality == c.stats.Get(Vitality);
    assert c.stats.luck == c.stats.Get(Luck);
  }

  /** A saved character whose form lists held no comma inside an entry reads
      back with at most as many skills and items as the form had: the four-skill
      and three-item limits of the wizard carry over to the stored strings. */
  lemma SavedListsBounded(s: Store, f: Form, now: Timestamp)
    requires BuildFromForm(s, f, now).0.Success?
    requires CommaFree(f.skills) && CommaFree(f.equipment)
    ensures var c := BuildFromForm(s, f, now).0.value;
      && |ParseList(c.skills)| <= |f.skills|
      && |ParseList(c.equipment)| <= |f.equipment|
  {
    ParseJoinBound(f.skills);
    ParseJoinBound(f.equipment);
  }
}
