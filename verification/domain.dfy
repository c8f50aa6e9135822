/** The character entity of `Character.java`: its fields and their defaults,
    the step-by-step builder that clamps every stat into [1, 100] and refuses a
    missing name or class, and the copy-and-reset clone. */
module Domain {
  import opened Wrappers
  import opened Text

  /** A database identity (`Long`). */
  type Id = int

  /** An instant (`LocalDateTime`): only its identity matters to the model. */
  type Timestamp = int

  /** Java `int`. */
  type Int32 = x: int | -0x8000_0000 <= x < 0x8000_0000

  /** The exceptions the domain and its services throw. */
  datatype Error =
    | BlankName        // build() on a null or blank name
    | BlankClass       // build() on a null or blank character class
    | NotFound(id: Id) // a lookup of an id the store does not hold

  /** The six numeric attributes, named so that one setter can serve them all. */
  datatype Stat = Level | Strength | Agility | Intelligence | Vitality | Luck

  datatype Stats = Stats(
    level: Int32,
    strength: Int32,
    agility: Int32,
    intelligence: Int32,
    vitality: Int32,
    luck: Int32)
  {
    function Get(s: Stat): Int32 {
      match s
      case Level => level
      case Strength => strength
      case Agility => agility
      case Intelligence => intelligence
      case Vitality => vitality
      case Luck => luck
    }

    /** These stats with `s` replaced by `v` and every other stat kept. */
    function Set(s: Stat, v: Int32): (r: Stats)
      ensures r.Get(s) == v
      ensures forall t: Stat | t != s :: r.Get(t) == Get(t)
    {
      match s
      case Level => this.(level := v)
      case Strength => this.(strength := v)
      case Agility => this.(agility := v)
      case Intelligence => this.(intelligence := v)
      case Vitality => this.(vitality := v)
      case Luck => this.(luck := v)
    }

    /** Every stat within the inclusive range [1, 100]. */
    predicate InRange() {
      forall s: Stat :: 1 <= Get(s) <= 100
    }
  }

  /** The field initialisers: every stat starts at 1. */
  const DefaultStats: Stats := Stats(1, 1, 1, 1, 1, 1)

  /** `Math.max(1, Math.min(100, v))`: out-of-range input is pulled to the
      nearest bound, in-range input is kept. */
  function Clamp(v: Int32): (r: Int32)
    ensures 1 <= r <= 100
    ensures 1 <= v <= 100 ==> r == v
    ensures v < 1 ==> r == 1
    ensures v > 100 ==> r == 100
  {
    var upper := if v < 100 then v else 100;
    if 1 < upper then upper else 1
  }

  /** Clamping twice is clamping once. */
  lemma ClampIdempotent(v: Int32)
    ensures Clamp(Clamp(v)) == Clamp(v)
  {
  }

  /** A persisted or about-to-be-persisted character. Every reference-typed
      field may be `null` in Java, hence the `Option`s. */
  datatype Character = Character(
    id: Option<Id>,
    name: Option<string>,
    race: Option<string>,
    characterClass: Option<string>,
    stats: Stats,
    skills: Option<string>,
    equipment: Option<string>,
    clonedFromId: Option<Id>,
    createdAt: Option<Timestamp>)

  /** `new Character()`: stats at 1, empty skill and equipment strings, every
      other field `null`. */
  function NewCharacter(): (c: Character)
    ensures forall s: Stat :: c.stats.Get(s) == 1
    ensures c.skills == Some("") && c.equipment == Some("")
    ensures c.id.None? && c.clonedFromId.None? && c.createdAt.None?
    ensures c.name.None? && c.race.None? && c.characterClass.None?
  {
    Character(None, None, None, None, DefaultStats, Some(""), Some(""), None, None)
  }

  /** A character that may be persisted: name and class present and not blank,
      stats in range, skill and equipment strings present, a creation time. */
  predicate WellFormed(c: Character) {
    && !IsNullOrBlank(c.name)
    && !IsNullOrBlank(c.characterClass)
    && c.stats.InRange()
    && c.skills.Some?
    && c.equipment.Some?
    && c.createdAt.Some?
  }

  /** `Character.Builder`: the fields its setters can reach. It has no setter
      for the id, the lineage or the creation time. Its skill and equipment
      strings are never `null`: they start as `""` and the setters map `null`
      to `""`. */
  datatype Builder = Builder(
    name: Option<string>,
    race: Option<string>,
    characterClass: Option<string>,
    stats: Stats,
    skills: string,
    equipment: string)

  /** `new Character.Builder()`: the defaults of `new Character()`. */
  function NewBuilder(): (b: Builder)
    ensures b.name == NewCharacter().name && b.race == NewCharacter().race
    ensures b.characterClass == NewCharacter().characterClass
    ensures b.stats == NewCharacter().stats
    ensures Some(b.skills) == NewCharacter().skills
    ensures Some(b.equipment) == NewCharacter().equipment
    ensures b.stats.InRange()
  {
    Builder(None, None, None, DefaultStats, "", "")
  }

  /** The six clamping stat setters (`level(int)` … `luck(int)`): the chosen
      stat becomes `Clamp(v)`, within [1, 100] whatever `v` is; nothing else
      changes. */
  function WithStat(b: Builder, s: Stat, v: Int32): (r: Builder)
    ensures r.stats.Get(s) == Clamp(v)
    ensures 1 <= r.stats.Get(s) <= 100
    ensures forall t: Stat | t != s :: r.stats.Get(t) == b.stats.Get(t)
    ensures r == b.(stats := r.stats)
  {
    b.(stats := b.stats.Set(s, Clamp(v)))
  }

  /** `skills(String)`: `null` is stored as `""`, anything else as given;
      nothing else changes. */
  function WithSkills(b: Builder, v: Option<string>): (r: Builder)
    ensures v.None? ==> r.skills == ""
    ensures v.Some? ==> r.skills == v.value
    ensures r == b.(skills := r.skills)
  {
    b.(skills := v.GetOr(""))
  }

  /** `equipment(String)`: `null` is stored as `""`, anything else as given;
      nothing else changes. */
  function WithEquipment(b: Builder, v: Option<string>): (r: Builder)
    ensures v.None? ==> r.equipment == ""
    ensures v.Some? ==> r.equipment == v.value
    ensures r == b.(equipment := r.equipment)
  {
    b.(equipment := v.GetOr(""))
  }

  /** `build()` at time `now`: fails on a null or blank name whatever else is
      set, then on a null or blank class; otherwise yields exactly the
      accumulated fields, with no id, no lineage and `createdAt = now`. */
  function Build(b: Builder, now: Timestamp): (r: Result<Character, Error>)
    ensures r.Failure? <==> IsNullOrBlank(b.name) || IsNullOrBlank(b.characterClass)
    ensures IsNullOrBlank(b.name) ==> r == Failure(BlankName)
    ensures !IsNullOrBlank(b.name) && IsNullOrBlank(b.characterClass) ==> r == Failure(BlankClass)
    ensures r.Success? ==>
      && r.value.id.None?
      && r.value.clonedFromId.None?
      && r.value.createdAt == Some(now)
      && r.value.name == b.name
      && r.value.race == b.race
      && r.value.characterClass == b.characterClass
      && r.value.stats == b.stats
      && r.value.skills == Some(b.skills)
      && r.value.equipment == Some(b.equipment)
    ensures r.Success? && b.stats.InRange() ==> WellFormed(r.value)
  {
    if IsNullOrBlank(b.name) then Failure(BlankName)
    else if IsNullOrBlank(b.characterClass) then Failure(BlankClass)
    else Success(Character(
      None, b.name, b.race, b.characterClass, b.stats,
      Some(b.skills), Some(b.equipment), None, Some(now)))
  }

  /** `clone()` at time `now`: a copy with no id, `createdAt = now` and
      `clonedFromId` pointing at the source's id. Every other field is the
      source's, except that a `null` skill or equipment string becomes `""`. */
  function Clone(c: Character, now: Timestamp): (r: Character)
    ensures r.id.None?
    ensures r.createdAt == Some(now)
    ensures r.clonedFromId == c.id
    ensures r.skills == Some(c.skills.GetOr(""))
    ensures r.equipment == Some(c.equipment.GetOr(""))
    ensures r.(id := c.id, createdAt := c.createdAt, clonedFromId := c.clonedFromId,
               skills := c.skills, equipment := c.equipment) == c
  {
    c.(id := None,
       createdAt := Some(now),
       clonedFromId := c.id,
       skills := Some(c.skills.GetOr("")),
       equipment := Some(c.equipment.GetOr("")))
  }

  /** The clone of a well-formed character is well formed. */
  lemma CloneKeepsWellFormed(c: Character, now: Timestamp)
    requires WellFormed(c)
    ensures WellFormed(Clone(c, now))
  {
  }
}
