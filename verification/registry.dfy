/** `CharacterRegistry.cloneCharacter`: look the source up, clone it, merge
    the patch over the copy and save the result. */
module CharacterRegistry {
  import opened Wrappers
  import opened Text
  import opened Domain
  import opened Repository
  import opened Dto

  /** The patch merge. The name is always the patch's. The class is replaced
      only by a present, non-blank class. Skills and equipment are replaced
      wholesale, by the patch list joined with `", "`, only when that list is
      present and non-empty. Nothing else changes. */
  function ApplyPatch(c: Character, p: Patch): (r: Character)
    ensures r.name == p.name
    ensures !IsNullOrBlank(p.characterClass) ==> r.characterClass == p.characterClass
    ensures IsNullOrBlank(p.characterClass) ==> r.characterClass == c.characterClass
    ensures p.skills.Some? && p.skills.value != [] ==> r.skills == Some(Join(", ", p.skills.value))
    ensures p.skills.None? || p.skills.value == [] ==> r.skills == c.skills
    ensures p.equipment.Some? && p.equipment.value != [] ==> r.equipment == Some(Join(", ", p.equipment.value))
    ensures p.equipment.None? || p.equipment.value == [] ==> r.equipment == c.equipment
    ensures r.(name := c.name, characterClass := c.characterClass,
               skills := c.skills, equipment := c.equipment) == c
  {
    var c := c.(name := p.name);
    var c := if !IsNullOrBlank(p.characterClass) then c.(characterClass := p.characterClass) else c;
    var c := if p.skills.Some? && |p.skills.value| > 0 then c.(skills := Some(Join(", ", p.skills.value))) else c;
    if p.equipment.Some? && |p.equipment.value| > 0 then c.(equipment := Some(Join(", ", p.equipment.value))) else c
  }

  /** `cloneCharacter(id, patch)` at time `now` against store `s`. An absent id
      throws and nothing is saved. Otherwise exactly one new row is added under
      a fresh id, and it is the returned clone: lineage pointing at `id`,
      created at `now`, the patch merged over a copy of the source, whose race
      and stats are kept as they are, without clamping. */
  function CloneCharacter(s: Store, id: Id, p: Patch, now: Timestamp): (r: (Result<Character, Error>, Store))
    ensures id !in s.rows <==> r.0.Failure?
    ensures id !in s.rows ==> r == (Failure(NotFound(id)), s)
    ensures id in s.rows ==>
      && r.0.value.id == Some(s.nextId)
      && s.nextId !in s.rows
      && r.1.rows == s.rows[s.nextId := r.0.value]
    ensures id in s.rows ==>
      && r.0.value.clonedFromId == Some(id)
      && r.0.value.createdAt == Some(now)
      && r.0.value.race == s.rows[id].race
      && r.0.value.stats == s.rows[id].stats
      && r.0.value == ApplyPatch(Clone(s.rows[id], now), p).(id := Some(s.nextId))
  {
    match FindById(s, id)
    case None => (Failure(NotFound(id)), s)
    case Some(original) =>
      var (saved, s') := Save(s, ApplyPatch(Clone(original, now), p));
      (Success(saved), s')
  }

  /** A patch naming only a new name gives a character equal to the source in
      everything but its id, name, lineage and creation time (a `null` skill
      or equipment string of the source reads back as `""`). */
  lemma NameOnlyPatch(s: Store, id: Id, name: string, now: Timestamp)
    requires id in s.rows
    ensures var c := CloneCharacter(s, id, NewPatch().(name := Some(name)), now).0.value;
      && c.name == Some(name)
      && c.clonedFromId == Some(id)
      && c.(id := None, name := s.rows[id].name, clonedFromId := None, createdAt := None,
            skills := s.rows[id].skills, equipment := s.rows[id].equipment)
         == s.rows[id].(id := None, clonedFromId := None, createdAt := None)
      && c.skills == Some(s.rows[id].skills.GetOr(""))
      && c.equipment == Some(s.rows[id].equipment.GetOr(""))
  {
  }

  /** Cloning a well-formed character under a name that is not blank yields a
      well-formed character. */
  lemma CloneWellFormed(s: Store, id: Id, p: Patch, now: Timestamp)
    requires id in s.rows && WellFormed(s.rows[id])
    requires !IsNullOrBlank(p.name)
    ensures WellFormed(CloneCharacter(s, id, p, now).0.value)
  {
  }

  /** A clone reads back with no more entries than the patch list that
      replaced its source's, when that list holds no comma inside an entry;
      a list the patch leaves alone reads back exactly as the source's does. */
  lemma CloneListsBounded(s: Store, id: Id, p: Patch, now: Timestamp)
    requires id in s.rows
    requires p.skills.Some? ==> CommaFree(p.skills.value)
    requires p.equipment.Some? ==> CommaFree(p.equipment.value)
    ensures var c := CloneCharacter(s, id, p, now).0.value;
      && (p.skills.Some? && p.skills.value != [] ==> |ParseList(c.skills)| <= |p.skills.value|)
      && (p.skills.None? || p.skills.value == [] ==> ParseList(c.skills) == ParseList(s.rows[id].skills))
      && (p.equipment.Some? && p.equipment.value != [] ==> |ParseList(c.equipment)| <= |p.equipment.value|)
      && (p.equipment.None? || p.equipment.value == [] ==> ParseList(c.equipment) == ParseList(s.rows[id].equipment))
  {
    var src := s.rows[id];
    if p.skills.Some? && p.skills.value != [] {
      ParseJoinBound(p.skills.value);
    } else if src.skills.None? {
      assert IsBlank("");
    }
    if p.equipment.Some? && p.equipment.value != [] {
      ParseJoinBound(p.equipment.value);
    } else if src.equipment.None? {
      assert IsBlank("");
    }
  }
}
