# RPG Character Forge — a Dafny model of its character core

RPG Character Forge is a Spring web application for creating role-playing
characters. A character has a name, a race, a class, six stats (level,
strength, agility, intelligence, vitality, luck), a skill string and an
equipment string, and it may record the character it was cloned from. The
application offers two ways to make one:

- a four-step **wizard**: identity, stats, skills (at most 4), equipment (at
  most 3). The form grows in the HTTP session. The last step turns it into a
  character through `Character.Builder` and saves it.
- **cloning** an existing character (the Prototype pattern): the source is
  copied, a patch (new name; optionally class, skills, equipment) is merged
  over the copy, and the result is saved.

A comparison page lists the skills a clone has that its source lacks.

This project models that core as pure functions over immutable values, and
proves what each operation guarantees.

- Java `null` is `Option.None`, and a thrown exception is `Result.Failure`
  (or the `Failed` outcome of a request).
- The clock (`LocalDateTime.now()`) is a parameter `now`.
- The database is a `Store`: a map from id to character, plus the next id to
  hand out. A save of a character without an id inserts it under a fresh id.
- The HTTP sessions are a map from session key to wizard form.
- Each request handler is a function from (sessions, store, request) to
  (outcome, sessions, store). View names and redirects become `Outcome`
  values.
- Java `int` stats are `Int32`. Clamping keeps every built stat within
  [1, 100], so no arithmetic can overflow.

Three Java notions of "whitespace" are kept apart, because the code mixes
them:

- `String.isBlank()` is used by `build()`, by the registry's class override
  and by the comparison page. It tests `Character.isWhitespace`
  (`Text.IsWhitespace`).
- `String.trim()` is used by the comparison page and by `@NotBlank`. It
  strips code points up to U+0020 (`Text.Trim`).
- The regex class `\s` in `split(",\\s*")` covers only space, tab, line
  feed, vertical tab, form feed and carriage return (`Text.IsRegexSpace`).

One consequence is modelled as written. Step 1 validates the name with
`@NotBlank`, which trims. `build()` rejects the name with `isBlank()`. So a
name such as U+2000 (EN QUAD) passes step 1 and then makes step 4 throw. The
step 4 handler has already written the submitted equipment into the session
form, so the session keeps it, and nothing is saved
(`WizardProperties.AcceptedButUnbuildable`). A form whose name and class
are ASCII never hits this gap (`WizardProperties.AsciiFormIsSaved`).

The clone path has the same gap with the opposite effect. The clone
submission checks the new name only with `@NotBlank`, and the registry sets
it without an `isBlank()` check. So a clone named U+2000 is saved, with a
name that `build()` would refuse (`WizardProperties.CloneAdmitsBlankName`).
Every other request keeps every stored character well formed: name and class
not blank for `isBlank()`, stats in [1, 100], both list strings present
(`WizardProperties.HandleKeepsStoreWellFormed`).

The list size limits count entries, not commas. Steps 3 and 4 and the clone
submission allow at most 4 skills and 3 equipment items, but the saved string
is the entries joined with `", "` and is read back by splitting on commas. An
entry that itself holds `", "` therefore reads back as several: three entries
`"a, b"`, `"c, d"`, `"e"` pass both limits and read back as five
(`WizardProperties.EntriesWithCommasReadBackAsMore`). With comma-free entries
a saved list reads back with no more entries than were submitted
(`CharacterService.SavedListsBounded`, `CharacterRegistry.CloneListsBounded`).

Opening step 1 stores nothing. The page shows the session's form, or a fresh
one; the form enters the session on the first valid step 1 submission
(CharacterController.java:47-55, 65; `Controller.ViewWizardStep`).

Files, one module each:

- `wrappers.dfy` — `Option`, `Result`.
- `text.dfy` — `isBlank`, `trim`, `String.join`, `split(",\\s*")`, and the
  join/split round trip.
- `domain.dfy` — stats, `Character`, `Builder`, `build()`, `clone()`.
- `repository.dfy` — the store: lookup and save.
- `dto.dfy` — the wizard form and the clone patch, with their validation
  annotations as predicates.
- `service.dfy` — `CharacterService.buildFromForm`.
- `registry.dfy` — `CharacterRegistry.cloneCharacter`.
- `skill_diff.dfy` — the comparison page's skill diff.
- `controller.dfy` — the request handlers of `CharacterController`.
- `wizard_properties.dfy` — properties of request sequences.

## Model

Paths are relative to the repository root.

| member | source | states |
|---|---|---|
| Domain.Clamp | rpg-character-forge/src/main/java/com/rpgforge/domain/Character.java:92-120 | the stored stat is in [1, 100]; an input already in range is kept; below 1 gives 1, above 100 gives 100 |
| Domain.ClampIdempotent | rpg-character-forge/src/main/java/com/rpgforge/domain/Character.java:93 | clamping a clamped value changes nothing |
| Domain.NewCharacter | rpg-character-forge/src/main/java/com/rpgforge/domain/Character.java:28-40 | a new character has every stat at 1, skills and equipment `""`, and no id, lineage, creation time, name, race or class |
| Domain.NewBuilder | rpg-character-forge/src/main/java/com/rpgforge/domain/Character.java:73-75 | a new builder starts from the defaults of a new character, stats in range |
| Domain.WithStat | rpg-character-forge/src/main/java/com/rpgforge/domain/Character.java:92-120 | a stat setter stores the clamped value, in [1, 100] whatever the input, and leaves the other stats and fields alone |
| Domain.WithSkills | rpg-character-forge/src/main/java/com/rpgforge/domain/Character.java:122-125 | `skills(null)` stores `""`; any other value is stored as given; nothing else changes |
| Domain.WithEquipment | rpg-character-forge/src/main/java/com/rpgforge/domain/Character.java:127-130 | `equipment(null)` stores `""`; any other value is stored as given; nothing else changes |
| Domain.Build | rpg-character-forge/src/main/java/com/rpgforge/domain/Character.java:132-141 | fails exactly when name or class is null or blank, the name checked first; on success the accumulated fields are returned unchanged, with no id, no lineage and `createdAt = now`, and the result is well formed when the stats are in range |
| Domain.Clone | rpg-character-forge/src/main/java/com/rpgforge/domain/Character.java:53-62 | the copy has no id, `createdAt = now` and `clonedFromId` = the source's id; a null skill or equipment string becomes `""`; every other field equals the source's |
| Domain.CloneKeepsWellFormed | rpg-character-forge/src/main/java/com/rpgforge/domain/Character.java:54-62 | the clone of a well-formed character is well formed |
| Repository.FindById | rpg-character-forge/src/main/java/com/rpgforge/service/CharacterService.java:61-63 | a lookup finds a character exactly when the id is stored, and then finds the row carrying that id |
| Repository.Save | rpg-character-forge/src/main/java/com/rpgforge/service/CharacterService.java:52-55 | a save writes exactly one row, the returned value; a value without an id gets a fresh id no row used, and a value with an id replaces that row |
| Text.Trim | rpg-character-forge/src/main/java/com/rpgforge/controller/CharacterController.java:229 | `trim()` gives `""` exactly when every code point is at most U+0020; otherwise the result starts and ends above U+0020; a string that already does is unchanged |
| Text.TrimIsSlice | rpg-character-forge/src/main/java/com/rpgforge/controller/CharacterController.java:229 | `trim()` returns a slice of its input, and everything before and after that slice is at most U+0020 |
| Text.Join | rpg-character-forge/src/main/java/com/rpgforge/service/CharacterService.java:28-33 | `String.join` of the empty list is `""`; any other join starts with the first element |
| Text.JoinCommaCount | rpg-character-forge/src/main/java/com/rpgforge/service/CharacterService.java:28-33 | joining comma-free elements with `", "` puts exactly one comma between each two, so the result holds one comma fewer than there are elements |
| Text.Split | rpg-character-forge/src/main/java/com/rpgforge/controller/CharacterController.java:224 | a string without a comma splits into itself; no element holds a comma; there is at most one element more than commas |
| Text.PiecesCount | rpg-character-forge/src/main/java/com/rpgforge/controller/CharacterController.java:224 | before trailing empty strings are removed, a string has one piece more than it has commas |
| Text.PiecesOfJoin | rpg-character-forge/src/main/java/com/rpgforge/controller/CharacterController.java:224 | cutting a `", "`-joined list at every `,\s*` gives the list back when no element holds a comma and none after the first starts with `\s` |
| Text.SplitOfJoin | rpg-character-forge/src/main/java/com/rpgforge/controller/CharacterController.java:224 | `split(",\\s*")` inverts `String.join(", ", xs)` for non-empty, comma-free elements none of which after the first starts with `\s` |
| Text.ParseList | rpg-character-forge/src/main/java/com/rpgforge/controller/CharacterController.java:222-227 | a null or blank stored string reads back as the empty list; no element read back holds a comma |
| Text.ParseListOfJoin | rpg-character-forge/src/main/java/com/rpgforge/service/CharacterService.java:28-33 | a list stored by the join rule reads back exactly, the empty list included, when its elements are non-empty, hold no comma and none after the first starts with `\s`, and a one-element list is not blank |
| Text.ParseJoinBound | rpg-character-forge/src/main/java/com/rpgforge/service/CharacterService.java:28-33 | a joined list of comma-free entries reads back with at most as many entries as were joined |
| Text.JoinAppend | rpg-character-forge/src/main/java/com/rpgforge/service/CharacterService.java:28-33 | joining two non-empty lists one after the other is joining each and putting `", "` between the two results |
| Dto.NotBlankIff | rpg-character-forge/src/main/java/com/rpgforge/dto/CharacterFormDTO.java:12-19 | `@NotBlank` holds exactly for a non-null string with a code point above U+0020 |
| Dto.AsciiNotBlank | rpg-character-forge/src/main/java/com/rpgforge/dto/CharacterFormDTO.java:12-14 | an ASCII string that passes `@NotBlank` is not blank for `isBlank()` either |
| Dto.NotBlankAdmitsBlank | rpg-character-forge/src/main/java/com/rpgforge/dto/CharacterFormDTO.java:12-14 | the string U+2000 passes `@NotBlank` although `isBlank()` calls it blank |
| Dto.NewForm | rpg-character-forge/src/main/java/com/rpgforge/dto/CharacterFormDTO.java:12-49 | a new form has every stat at 1, empty skill and equipment lists, and no name, race or class |
| Dto.SetSkills | rpg-character-forge/src/main/java/com/rpgforge/dto/CharacterFormDTO.java:127-129 | `setSkills(null)` stores the empty list; any other list is stored as given; nothing else changes |
| Dto.SetEquipment | rpg-character-forge/src/main/java/com/rpgforge/dto/CharacterFormDTO.java:135-137 | `setEquipment(null)` stores the empty list; any other list is stored as given; nothing else changes |
| Dto.FormValidIff | rpg-character-forge/src/main/java/com/rpgforge/dto/CharacterFormDTO.java:12-49 | a form is valid exactly when its name is present, visible and at most 100 long, its class is present and visible, every stat is in [1, 100], and it has at most 4 skills and 3 items |
| Dto.NewPatch | rpg-character-forge/src/main/java/com/rpgforge/dto/CharacterPatchDTO.java:14-24 | a new patch has every field absent |
| Dto.PatchValidIff | rpg-character-forge/src/main/java/com/rpgforge/dto/CharacterPatchDTO.java:14-24 | a patch is valid exactly when its name is present, visible and at most 100 long, and its lists, when present, hold at most 4 skills and 3 items; the class is unconstrained |
| CharacterService.JoinList | rpg-character-forge/src/main/java/com/rpgforge/service/CharacterService.java:28-33 | a list is stored as its `", "` join, which is `""` for the empty list |
| CharacterService.FormBuilder | rpg-character-forge/src/main/java/com/rpgforge/service/CharacterService.java:35-47 | the builder gets name, race and class unchanged, every stat clamped into [1, 100], and the joined lists |
| CharacterService.BuildFromForm | rpg-character-forge/src/main/java/com/rpgforge/service/CharacterService.java:27-50 | fails, saving nothing, exactly when name or class is null or blank; otherwise adds exactly one row under a fresh id, the returned well-formed character: fields as in the form, stats clamped, lists joined, no lineage, created at `now` |
| CharacterService.ValidFormStatsKept | rpg-character-forge/src/main/java/com/rpgforge/service/CharacterService.java:39-44 | a valid form's stats are saved exactly as entered |
| CharacterService.SavedListsBounded | rpg-character-forge/src/main/java/com/rpgforge/service/CharacterService.java:27-50 | a character built from a form whose lists hold no comma is saved with skill and equipment strings that read back with at most as many entries as the form held |
| CharacterRegistry.ApplyPatch | rpg-character-forge/src/main/java/com/rpgforge/service/CharacterRegistry.java:35-45 | the name is always the patch's; the class only when the patch's is not null or blank; skills and equipment are replaced by the joined patch list only when it is present and non-empty; nothing else changes |
| CharacterRegistry.CloneCharacter | rpg-character-forge/src/main/java/com/rpgforge/service/CharacterRegistry.java:29-48 | an unknown id fails and changes nothing; otherwise exactly one row is added under a fresh id: the patched copy of the source, lineage pointing at the id, created at `now`, race and stats unclamped |
| CharacterRegistry.NameOnlyPatch | rpg-character-forge/src/main/java/com/rpgforge/service/CharacterRegistry.java:33-35 | a patch with only a name gives a copy equal to the source in everything but id, name, lineage and creation time |
| CharacterRegistry.CloneWellFormed | rpg-character-forge/src/main/java/com/rpgforge/service/CharacterRegistry.java:33-47 | cloning a well-formed character under a non-blank name gives a well-formed character |
| CharacterRegistry.CloneListsBounded | rpg-character-forge/src/main/java/com/rpgforge/service/CharacterRegistry.java:33-47 | a clone's list that the patch replaces with comma-free entries reads back with at most as many entries as the patch held; a list the patch leaves out or empty reads back as the source character's |
| SkillDiff.Without | rpg-character-forge/src/main/java/com/rpgforge/controller/CharacterController.java:230 | the filter keeps, in order, every element not in the banned list, each as often as it occurred |
| SkillDiff.WithoutMembers | rpg-character-forge/src/main/java/com/rpgforge/controller/CharacterController.java:230 | an element is kept exactly when it occurs and is not banned |
| SkillDiff.UniqueToClone | rpg-character-forge/src/main/java/com/rpgforge/controller/CharacterController.java:228-231 | the result holds exactly the clone's trimmed entries absent from the original's trimmed entries, in clone order, with the clone's repetitions |
| SkillDiff.SkillList | rpg-character-forge/src/main/java/com/rpgforge/controller/CharacterController.java:222-227 | a null or blank skill string gives the empty list; no listed skill holds a comma |
| SkillDiff.NothingUniqueToSelf | rpg-character-forge/src/main/java/com/rpgforge/controller/CharacterController.java:228-231 | a character compared with itself has no unique skills |
| SkillDiff.DiffExample | rpg-character-forge/src/main/java/com/rpgforge/controller/CharacterController.java:222-231 | source "A, B" and clone "A, B, C" give exactly ["C"] |
| Controller.ViewWizardStep | rpg-character-forge/src/main/java/com/rpgforge/controller/CharacterController.java:47-135 | step 1 shows the session's form or a fresh one; steps 2 to 4 redirect to step 1 without a form and otherwise show it |
| Controller.SubmitStep1 | rpg-character-forge/src/main/java/com/rpgforge/controller/CharacterController.java:57-67 | an invalid form is shown again with nothing changed; a valid one replaces the session's form wholesale and moves to step 2; no other session or the store changes |
| Controller.MergeStats | rpg-character-forge/src/main/java/com/rpgforge/controller/CharacterController.java:87-91 | the five posted stats are taken; the level and every other field are kept |
| Controller.SubmitStep2 | rpg-character-forge/src/main/java/com/rpgforge/controller/CharacterController.java:80-94 | without a form, to step 1 with nothing changed; otherwise only strength, agility, intelligence, vitality and luck are copied, unchecked, and the wizard moves to step 3 |
| Controller.SubmitStep3 | rpg-character-forge/src/main/java/com/rpgforge/controller/CharacterController.java:108-123 | without a form, to step 1; more than 4 skills, back to step 3 with nothing changed; otherwise the skills (empty if absent) replace the form's and the wizard moves to step 4 |
| Controller.SubmitStep4 | rpg-character-forge/src/main/java/com/rpgforge/controller/CharacterController.java:137-155 | without a form, to step 1; more than 3 items, back to step 4 with nothing changed; otherwise the equipment is written into the form, which is built and saved: on failure nothing is saved and the session keeps the updated form; on success one row is added and the session's form is removed |
| Controller.ClonePost | rpg-character-forge/src/main/java/com/rpgforge/controller/CharacterController.java:188-209 | an invalid patch, more than 4 skills or more than 3 items return to the clone dialog with nothing changed; an unknown id fails with nothing changed; otherwise exactly one clone row is added and the sessions are untouched |
| Controller.CompareSkills | rpg-character-forge/src/main/java/com/rpgforge/controller/CharacterController.java:211-235 | an unknown original fails first, then an unknown clone; otherwise the page lists exactly the clone's trimmed skills absent from the original's, in clone order and as often as the clone lists them |
| Controller.Handle | rpg-character-forge/src/main/java/com/rpgforge/controller/CharacterController.java:47-235 | each request leads only to its handler's pages or redirects; an escaped exception leaves the store as it was; a redirect to the gallery means a row was added under a fresh id |
| Controller.HandleFrame | rpg-character-forge/src/main/java/com/rpgforge/controller/CharacterController.java:47-235 | the pages change nothing, only step 4 and the clone submission write the store, the clone submission leaves the sessions alone, and no request touches another session's form |
| WizardProperties.HandleKeepsAccepted | rpg-character-forge/src/main/java/com/rpgforge/controller/CharacterController.java:57-155 | every request keeps every session's form with a `@NotBlank` name of at most 100 code points, a `@NotBlank` class, at most 4 skills and at most 3 items |
| WizardProperties.NoFormRedirects | rpg-character-forge/src/main/java/com/rpgforge/controller/CharacterController.java:70-155 | every page and submission of steps 2 to 4 sends a session without a form to step 1 and changes nothing |
| WizardProperties.AsciiFormIsSaved | rpg-character-forge/src/main/java/com/rpgforge/controller/CharacterController.java:137-155 | step 4 on an accepted form with an ASCII name and class always saves one row, the form with joined lists and stats in range, and removes the session's form |
| WizardProperties.CloneAdmitsBlankName | rpg-character-forge/src/main/java/com/rpgforge/service/CharacterRegistry.java:33-47 | a clone named U+2000 passes the patch validation and is saved with a name `build()` would refuse, so the store then holds a character that is not well formed |
| WizardProperties.EntriesWithCommasReadBackAsMore | rpg-character-forge/src/main/java/com/rpgforge/controller/CharacterController.java:108-155 | a form with three skills and three items, each list `"a, b"`, `"c, d"`, `"e"`, passes the size limits of steps 3 and 4 and is saved with lists that read back as five entries each |
| WizardProperties.HandleKeepsStoreWellFormed | rpg-character-forge/src/main/java/com/rpgforge/controller/CharacterController.java:137-209 | every request keeps every stored character well formed, provided no clone is named with a string `isBlank()` rejects |
| WizardProperties.AcceptedButUnbuildable | rpg-character-forge/src/main/java/com/rpgforge/controller/CharacterController.java:57-155 | the name U+2000 passes step 1, but step 4 then fails with a blank name, saves nothing and leaves the form with the new equipment in the session |
| WizardProperties.SampleFirstSteps | rpg-character-forge/src/main/java/com/rpgforge/controller/CharacterController.java:57-123 | steps 1 to 3 of a sample run advance page by page and accumulate identity, stats and skills in the session |
| WizardProperties.SampleLastStep | rpg-character-forge/src/main/java/com/rpgforge/controller/CharacterController.java:137-155 | step 4 of the sample run saves strength 200 as 100, skills "A, B" and equipment "X", and clears the session's form |
| WizardProperties.CompleteRun | rpg-character-forge/src/main/java/com/rpgforge/controller/CharacterController.java:57-155 | four submissions of the sample run create exactly that one character and leave no form in the session |
| WizardProperties.FiveSkillsRejected | rpg-character-forge/src/main/java/com/rpgforge/controller/CharacterController.java:116-119 | five skills on step 3 return to step 3 with nothing changed |
| WizardProperties.CloneGuardsRedundant | rpg-character-forge/src/main/java/com/rpgforge/controller/CharacterController.java:193-205 | a patch that passed validation never trips the explicit size checks |
| WizardProperties.CloneKeepsSkills | rpg-character-forge/src/main/java/com/rpgforge/controller/CharacterController.java:188-235 | a clone whose patch leaves the skills alone, compared with its source, has no unique skills |

## Left out

- Spring plumbing: `Model` attributes, `RedirectAttributes` and flash messages, view names. Outcomes stand for them.
- The gallery page (`gallery`), `home` and `cloneGet`: view assembly and plain redirects with no state change.
- `findAll` and the repository's `findAllByOrderByCreatedAtDesc`: ordering for display only.
- JPA and `@Transactional`: the store is a map with fresh-id allocation. A `Long` id never overflows in the model.
- `DataInitializer`: start-up seeding with in-range literals.
- HTTP session internals and concurrent requests: requests are applied one at a time.
- Binding errors, such as a stat posted as text. The handlers receive typed values.
- `null` elements inside a list: lists hold strings only.
- `@Size(max = 100)` counts UTF-16 code units; the model counts code points.
- `equals`, `hashCode` and the plain getters and setters of `Character`.
- `Domain.Build`: the builder in Java mutates one shared character object; the model returns a fresh value, which is the same for a builder used once, as every caller does.
- Repository.Save: only the insert path (a value without an id) is reached, since `build()` and `clone()` both yield a character without an id. The branch for a value with an id files it under that id; JPA's `merge` of an id not in the table would instead insert under a generated id, which the model does not follow.
