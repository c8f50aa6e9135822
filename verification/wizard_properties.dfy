/** Properties of request sequences: what every request keeps, a complete
    run of the wizard, the gap between the first page's validation and the
    build, and a clone compared with its source. */
module WizardProperties {
  import opened Wrappers
  import opened Text
  import opened Domain
  import opened Repository
  import opened Dto
  import opened CharacterService
  import opened CharacterRegistry
  import opened SkillDiff
  import opened Controller

  /** What a session's form satisfies once step 1 has accepted it: its name
      and class passed `@NotBlank`, its name fits in 100 code points, and the
      later steps never let more than 4 skills or 3 items in. Its stats are
      not among these: step 2 copies them unchecked. */
  predicate Accepted(f: Form) {
    && NotBlank(f.name)
    && SizeAtMost(f.name, 100)
    && NotBlank(f.characterClass)
    && |f.skills| <= 4
    && |f.equipment| <= 3
  }

  predicate AllAccepted(app: App) {
    forall k | k in app.sessions :: Accepted(app.sessions[k])
  }

  /** Every request keeps every session's form accepted. */
  lemma HandleKeepsAccepted(app: App, key: SessionKey, req: Request, now: Timestamp)
    requires AllAccepted(app)
    ensures AllAccepted(Handle(app, key, req, now).1)
  {
    var app' := Handle(app, key, req, now).1;
    HandleFrame(app, key, req, now);
    OwnFormAccepted(app, key, req, now);
    OthersAccepted(app.sessions, app'.sessions, key);
  }

  /** A map that differs from an accepted one only at `key`, where it holds
      an accepted form or nothing, is accepted throughout. */
  lemma OthersAccepted(before: map<SessionKey, Form>, after: map<SessionKey, Form>, key: SessionKey)
    requires forall k | k in before :: Accepted(before[k])
    requires after - {key} == before - {key}
    requires key in after ==> Accepted(after[key])
    ensures forall k | k in after :: Accepted(after[k])
  {
    forall k | k in after ensures Accepted(after[k]) {
      if k != key {
        assert k in after - {key};
        assert after[k] == (after - {key})[k] == (before - {key})[k];
      }
    }
  }

  /** The requesting session's form, if it still has one, is accepted. */
  lemma OwnFormAccepted(app: App, key: SessionKey, req: Request, now: Timestamp)
    requires AllAccepted(app)
    ensures var app' := Handle(app, key, req, now).1;
      key in app'.sessions ==> Accepted(app'.sessions[key])
  {
    match req
    case SubmitIdentity(f) => IdentityKeepsAccepted(app, key, f);
    case SubmitStats(f) =>
      if key in app.sessions {
        StatsKeepAccepted(app, key, f);
      }
    case SubmitSkills(xs) =>
      if key in app.sessions {
        SkillsKeepAccepted(app, key, xs);
      }
    case SubmitEquipment(xs) => EquipmentKeepsAccepted(app, key, xs, now);
    case ViewStep(n) =>
      assert Handle(app, key, req, now).1 == app;
      SameSessionsAccepted(app, app, key);
    case SubmitClone(id, p) =>
      var app' := ClonePost(app, id, p, now).1;
      ClonePostKeepsSessions(app, id, p, now);
      SameSessionsAccepted(app, app', key);
    case Compare(o, c) =>
      assert Handle(app, key, req, now).1 == app;
      SameSessionsAccepted(app, app, key);
  }

  /** Step 1 stores only a valid form, and a valid form is accepted. */
  lemma IdentityKeepsAccepted(app: App, key: SessionKey, posted: Form)
    requires AllAccepted(app)
    ensures var app' := SubmitStep1(app, key, posted).1;
      key in app'.sessions ==> Accepted(app'.sessions[key])
  {
    if FormValid(posted) {
      assert SubmitStep1(app, key, posted).1.sessions[key] == posted;
    } else {
      assert SubmitStep1(app, key, posted).1 == app;
    }
  }

  /** The clone submission leaves every session's form as it was. */
  lemma ClonePostKeepsSessions(app: App, id: Id, patch: Patch, now: Timestamp)
    ensures ClonePost(app, id, patch, now).1.sessions == app.sessions
  {
    if PatchValid(patch) && id in app.store.rows {
    } else if PatchValid(patch) {
      assert ClonePost(app, id, patch, now).1 == app;
    }
  }

  lemma SameSessionsAccepted(app: App, app': App, key: SessionKey)
    requires AllAccepted(app) && app'.sessions == app.sessions
    ensures key in app'.sessions ==> Accepted(app'.sessions[key])
  {
    if key in app'.sessions {
      assert Accepted(app.sessions[key]);
    }
  }

  lemma StatsKeepAccepted(app: App, key: SessionKey, posted: Form)
    requires AllAccepted(app) && key in app.sessions
    ensures Accepted(SubmitStep2(app, key, posted).1.sessions[key])
  {
    assert Accepted(app.sessions[key]);
  }

  lemma SkillsKeepAccepted(app: App, key: SessionKey, skills: Option<seq<string>>)
    requires AllAccepted(app) && key in app.sessions
    ensures Accepted(SubmitStep3(app, key, skills).1.sessions[key])
  {
    assert Accepted(app.sessions[key]);
  }

  lemma EquipmentKeepsAccepted(app: App, key: SessionKey, equipment: Option<seq<string>>, now: Timestamp)
    requires AllAccepted(app)
    ensures var app' := SubmitStep4(app, key, equipment, now).1;
      key in app'.sessions ==> Accepted(app'.sessions[key])
  {
    var app' := SubmitStep4(app, key, equipment, now).1;
    Step4SessionForm(app, key, equipment, now);
    if key in app'.sessions {
      assert Accepted(app.sessions[key]);
      EquipmentOnlyKeepsAccepted(app.sessions[key], app'.sessions[key]);
    }
  }

  /** After step 4 the session's form, if any, is the one before with at most
      its equipment changed, to at most 3 items. */
  lemma Step4SessionForm(app: App, key: SessionKey, equipment: Option<seq<string>>, now: Timestamp)
    ensures var app' := SubmitStep4(app, key, equipment, now).1;
      key in app'.sessions ==>
        && key in app.sessions
        && app'.sessions[key] == app.sessions[key].(equipment := app'.sessions[key].equipment)
        && (app'.sessions[key].equipment == app.sessions[key].equipment || |app'.sessions[key].equipment| <= 3)
  {
  }

  lemma EquipmentOnlyKeepsAccepted(f: Form, g: Form)
    requires Accepted(f)
    requires g == f.(equipment := g.equipment)
    requires g.equipment == f.equipment || |g.equipment| <= 3
    ensures Accepted(g)
  {
  }

  /** A session without a form is sent to step 1, and nothing changes, by the
      pages and submissions of steps 2 to 4. */
  lemma NoFormRedirects(app: App, key: SessionKey, req: Request, now: Timestamp)
    requires key !in app.sessions
    requires (req.ViewStep? && req.step > 1) || req.SubmitStats? || req.SubmitSkills? || req.SubmitEquipment?
    ensures Handle(app, key, req, now) == (RedirectStep(1), app)
  {
  }

  /** All code points of `s` are ASCII. */
  predicate IsAscii(s: string) {
    forall i | 0 <= i < |s| :: s[i] < '\U{80}'
  }

  /** An accepted form with an ASCII name and class has a name and class
      that `build()` takes. */
  lemma AsciiAcceptedBuildable(f: Form)
    requires Accepted(f) && IsAscii(f.name.value) && IsAscii(f.characterClass.value)
    ensures !IsNullOrBlank(f.name) && !IsNullOrBlank(f.characterClass)
  {
    AsciiNotBlank(f.name);
    AsciiNotBlank(f.characterClass);
  }

  /** Step 4 on an accepted form whose name and class are plain ASCII always
      saves: the session's form is removed and exactly one row is added under
      a fresh id, the form with its lists joined by ", " and its stats within
      [1, 100]. */
  lemma AsciiFormIsSaved(app: App, key: SessionKey, equipment: seq<string>, now: Timestamp)
    requires key in app.sessions && Accepted(app.sessions[key])
    requires IsAscii(app.sessions[key].name.value) && IsAscii(app.sessions[key].characterClass.value)
    requires |equipment| <= 3
    ensures var (o, app') := SubmitStep4(app, key, Some(equipment), now);
      && o == RedirectGallery
      && app'.sessions == app.sessions - {key}
      && app.store.nextId !in app.store.rows
      && app.store.nextId in app'.store.rows
      && app'.store.rows == app.store.rows[app.store.nextId := app'.store.rows[app.store.nextId]]
      && var c := app'.store.rows[app.store.nextId];
      && c.name == app.sessions[key].name
      && c.characterClass == app.sessions[key].characterClass
      && c.skills == Some(Join(", ", app.sessions[key].skills))
      && c.equipment == Some(Join(", ", equipment))
      && c.stats.InRange()
  {
    AsciiAcceptedBuildable(app.sessions[key]);
  }

  /** The name U+2000 passes step 1, yet step 4 fails on it: the build
      rejects the name as blank, nothing is saved, and the session keeps the
      form with the equipment just submitted. */
  lemma AcceptedButUnbuildable(app: App, key: SessionKey, now: Timestamp)
    ensures var f := NewForm().(name := Some("\U{2000}"), characterClass := Some("Mago"));
      var (o1, app1) := Handle(app, key, SubmitIdentity(f), now);
      var (o4, app4) := Handle(app1, key, SubmitEquipment(Some(["Botas veloces"])), now);
      && o1 == RedirectStep(2)
      && o4 == Failed(BlankName)
      && app4.store == app.store
      && key in app4.sessions && app4.sessions[key] == f.(equipment := ["Botas veloces"])
  {
    var f := NewForm().(name := Some("\U{2000}"), characterClass := Some("Mago"));
    NotBlankAdmitsBlank();
    assert Trim("Mago") == "Mago";
    assert FormValid(f);
  }

  /** The identity submitted on step 1 of the sample run. */
  const SampleIdentity: Form := NewForm().(name := Some("Test"), characterClass := Some("Guerrero"))

  /** The stats submitted on step 2 of the sample run: strength 200. */
  const SampleStats: Form := NewForm().(stats := DefaultStats.(strength := 200))

  /** The session's form after steps 1 to 3 of the sample run. */
  const SampleChosen: Form := SampleIdentity.(stats := DefaultStats.(strength := 200), skills := ["A", "B"])

  /** Steps 1 to 3 of the sample run: each moves on to the next page, and the
      session ends up holding the identity, the stats and the skills. */
  lemma SampleFirstSteps(app: App, key: SessionKey, now: Timestamp)
    ensures
      var (o1, app1) := Handle(app, key, SubmitIdentity(SampleIdentity), now);
      var (o2, app2) := Handle(app1, key, SubmitStats(SampleStats), now);
      var (o3, app3) := Handle(app2, key, SubmitSkills(Some(["A", "B"])), now);
      && o1 == RedirectStep(2) && o2 == RedirectStep(3) && o3 == RedirectStep(4)
      && app3.store == app.store
      && key in app3.sessions && app3.sessions[key] == SampleChosen
  {
    assert Trim("Test") == "Test" && Trim("Guerrero") == "Guerrero";
    assert FormValid(SampleIdentity);
    var (o1, app1) := Handle(app, key, SubmitIdentity(SampleIdentity), now);
    assert o1 == RedirectStep(2) && app1.store == app.store;
    assert key in app1.sessions && app1.sessions[key] == SampleIdentity;
    var (o2, app2) := Handle(app1, key, SubmitStats(SampleStats), now);
    assert o2 == RedirectStep(3) && app2.store == app.store;
    assert key in app2.sessions && app2.sessions[key] == MergeStats(SampleIdentity, SampleStats);
    var (o3, app3) := Handle(app2, key, SubmitSkills(Some(["A", "B"])), now);
    assert o3 == RedirectStep(4) && app3.store == app.store;
  }

  /** Step 4 of the sample run with the item X: the character is saved with
      strength clamped to 100, the other stats at 1, skills "A, B" and
      equipment "X", and the session's form is removed. */
  lemma SampleLastStep(app: App, key: SessionKey, now: Timestamp)
    requires key in app.sessions && app.sessions[key] == SampleChosen
    ensures var (o, app') := Handle(app, key, SubmitEquipment(Some(["X"])), now);
      && o == RedirectGallery
      && app'.sessions == app.sessions - {key}
      && app.store.nextId !in app.store.rows
      && app'.store.rows == app.store.rows[app.store.nextId :=
           Character(Some(app.store.nextId), Some("Test"), None, Some("Guerrero"),
                     DefaultStats.(strength := 100), Some("A, B"), Some("X"), None, Some(now))]
  {
    var f := SampleChosen.(equipment := ["X"]);
    assert !IsWhitespace("Test"[0]) && !IsWhitespace("Guerrero"[0]);
    JoinedTwo();
    var c := BuildFromForm(app.store, f, now).0.value;
    assert c.stats.Get(Strength) == 100;
    assert forall s: Stat | s != Strength :: c.stats.Get(s) == 1;
    assert c.stats.level == c.stats.Get(Level);
    assert c.stats.agility == c.stats.Get(Agility);
    assert c.stats.intelligence == c.stats.Get(Intelligence);
    assert c.stats.vitality == c.stats.Get(Vitality);
    assert c.stats.luck == c.stats.Get(Luck);
  }

  /** The whole sample run: four submissions create exactly one character,
      and the session's form is gone. */
  lemma CompleteRun(app: App, key: SessionKey, now: Timestamp)
    ensures
      var (o1, app1) := Handle(app, key, SubmitIdentity(SampleIdentity), now);
      var (o2, app2) := Handle(app1, key, SubmitStats(SampleStats), now);
      var (o3, app3) := Handle(app2, key, SubmitSkills(Some(["A", "B"])), now);
      var (o4, app4) := Handle(app3, key, SubmitEquipment(Some(["X"])), now);
      && o4 == RedirectGallery
      && key !in app4.sessions
      && app.store.nextId !in app.store.rows
      && app4.store.rows == app.store.rows[app.store.nextId :=
           Character(Some(app.store.nextId), Some("Test"), None, Some("Guerrero"),
                     DefaultStats.(strength := 100), Some("A, B"), Some("X"), None, Some(now))]
  {
    SampleFirstSteps(app, key, now);
    var (o1, app1) := Handle(app, key, SubmitIdentity(SampleIdentity), now);
    var (o2, app2) := Handle(app1, key, SubmitStats(SampleStats), now);
    var (o3, app3) := Handle(app2, key, SubmitSkills(Some(["A", "B"])), now);
    SampleLastStep(app3, key, now);
  }

  /** Five skills on step 3 are turned away and the session's form keeps its
      skills. */
  lemma FiveSkillsRejected(app: App, key: SessionKey, now: Timestamp)
    requires key in app.sessions
    ensures Handle(app, key, SubmitSkills(Some(["a", "b", "c", "d", "e"])), now) == (RedirectStep(3), app)
  {
  }

  /** The explicit size checks of the clone submission never fire once the
      patch has passed validation. */
  lemma CloneGuardsRedundant(p: Patch)
    requires PatchValid(p)
    ensures !(p.skills.Some? && |p.skills.value| > 4)
    ensures !(p.equipment.Some? && |p.equipment.value| > 3)
  {
  }

  /** A clone whose patch leaves the skills alone has no skill its source
      lacks: the comparison of source and clone lists nothing. */
  lemma CloneKeepsSkills(app: App, id: Id, p: Patch, now: Timestamp)
    requires id in app.store.rows && PatchValid(p)
    requires p.skills.None? || p.skills.value == []
    ensures var (o, app') := ClonePost(app, id, p, now);
      && o == RedirectGallery
      && CompareSkills(app'.store, id, app.store.nextId) == ShowComparison([])
  {
    var s' := ClonePost(app, id, p, now).1.store;
    var src := app.store.rows[id];
    CloneRow(app.store, id, p, now);
    SameSkillList(src, s'.rows[app.store.nextId]);
    NothingUniqueToSelf(src);
  }

  /** After the clone, the source is still in place and the clone's skill
      string is the source's, `null` read as `""`. */
  lemma CloneRow(s: Store, id: Id, p: Patch, now: Timestamp)
    requires id in s.rows
    requires p.skills.None? || p.skills.value == []
    ensures var s' := CloneCharacter(s, id, p, now).1;
      && id in s'.rows && s'.rows[id] == s.rows[id]
      && s.nextId in s'.rows
      && s'.rows[s.nextId].skills == Some(s.rows[id].skills.GetOr(""))
  {
  }

  /** A `null` skill string and `""` read back as the same, empty, list. */
  lemma SameSkillList(src: Character, c: Character)
    requires c.skills == Some(src.skills.GetOr(""))
    ensures SkillList(c) == SkillList(src)
  {
    if src.skills.None? {
      assert IsBlank("");
    }
  }

  /** Every stored character is well formed. */
  predicate StoreWellFormed(s: Store) {
    forall k | k in s.rows :: WellFormed(s.rows[k])
  }

  /** The clone submission checks the new name only with the trimming
      `@NotBlank`, and the registry sets it unchecked: a clone named U+2000 is
      saved, with a name that `build()` would refuse. */
  lemma CloneAdmitsBlankName(app: App, id: Id, now: Timestamp)
    requires id in app.store.rows
    ensures var (o, app') := ClonePost(app, id, Patch(Some("\U{2000}"), None, None, None), now);
      && o == RedirectGallery
      && app.store.nextId in app'.store.rows
      && app'.store.rows[app.store.nextId].name == Some("\U{2000}")
      && !WellFormed(app'.store.rows[app.store.nextId])
  {
    NotBlankAdmitsBlank();
  }

  /** Every request keeps every stored character well formed, as long as no
      clone is named with a string `isBlank()` rejects: step 4 saves only what
      `build()` accepts, with clamped stats, and a clone of a well-formed
      character under such a name is well formed. */
  lemma HandleKeepsStoreWellFormed(app: App, key: SessionKey, req: Request, now: Timestamp)
    requires StoreWellFormed(app.store)
    requires req.SubmitClone? && req.patch.name.Some? ==> !IsBlank(req.patch.name.value)
    ensures StoreWellFormed(Handle(app, key, req, now).1.store)
  {
    HandleFrame(app, key, req, now);
    match req
    case SubmitEquipment(xs) => Step4KeepsStoreWellFormed(app, key, xs, now);
    case SubmitClone(id, p) => ClonePostKeepsStoreWellFormed(app, id, p, now);
    case ViewStep(n) =>
    case SubmitIdentity(f) =>
    case SubmitStats(f) =>
    case SubmitSkills(xs) =>
    case Compare(o, c) =>
  }

  lemma Step4KeepsStoreWellFormed(app: App, key: SessionKey, xs: Option<seq<string>>, now: Timestamp)
    requires StoreWellFormed(app.store)
    ensures StoreWellFormed(SubmitStep4(app, key, xs, now).1.store)
  {
    var (o, app') := SubmitStep4(app, key, xs, now);
    if key in app.sessions && (xs.None? || |xs.value| <= 3) && !o.Failed? {
      var f := app.sessions[key].(equipment := xs.GetOr([]));
      assert WellFormed(BuildFromForm(app.store, f, now).0.value);
    }
  }

  lemma ClonePostKeepsStoreWellFormed(app: App, id: Id, p: Patch, now: Timestamp)
    requires StoreWellFormed(app.store)
    requires p.name.Some? ==> !IsBlank(p.name.value)
    ensures StoreWellFormed(ClonePost(app, id, p, now).1.store)
  {
    if PatchValid(p) && id in app.store.rows {
      CloneWellFormed(app.store, id, p, now);
    }
  }

  /** The size limits count entries, not commas: three entries, two of them
      holding ", ", pass the four-skill limit of step 3 and the three-item
      limit of step 4, but the saved string reads back as five entries. */
  lemma EntriesWithCommasReadBackAsMore(s: Store, f: Form, now: Timestamp)
    requires f.skills == ["a, b", "c, d", "e"] && f.equipment == ["a, b", "c, d", "e"]
    requires BuildFromForm(s, f, now).0.Success?
    ensures var c := BuildFromForm(s, f, now).0.value;
      && |f.skills| == 3 && |f.equipment| == 3
      && |ParseList(c.skills)| == 5 && |ParseList(c.equipment)| == 5
  {
    CommaEntriesJoined();
    FiveLettersParsed();
  }

  /** ["a, b", "c, d", "e"] and ["a", "b", "c", "d", "e"] are stored as the
      same string. */
  lemma CommaEntriesJoined()
    ensures Join(", ", ["a, b", "c, d", "e"]) == Join(", ", ["a", "b", "c", "d", "e"])
  {
    var ab: seq<string>, cd: seq<string> := ["a", "b"], ["c", "d"];
    JoinOfJoins(ab, cd, "e");
    PairsJoined();
    assert ab + cd + ["e"] == ["a", "b", "c", "d", "e"];
  }

  lemma PairsJoined()
    ensures Join(", ", ["a", "b"]) == "a, b" && Join(", ", ["c", "d"]) == "c, d"
  {
    var ab: seq<string>, cd: seq<string> := ["a", "b"], ["c", "d"];
    assert ab[1..] == ["b"] && cd[1..] == ["d"];
  }

  /** Joining two joined lists and one more entry is joining all their
      entries. */
  lemma JoinOfJoins(xs: seq<string>, ys: seq<string>, z: string)
    requires |xs| >= 1 && |ys| >= 1
    ensures Join(", ", [Join(", ", xs), Join(", ", ys), z]) == Join(", ", xs + ys + [z])
  {
    var outer: seq<string> := [Join(", ", xs), Join(", ", ys), z];
    assert outer == [Join(", ", xs)] + ([Join(", ", ys)] + [z]);
    JoinAppend([Join(", ", xs)], [Join(", ", ys)] + [z]);
    JoinAppend([Join(", ", ys)], [z]);
    assert xs + ys + [z] == xs + (ys + [z]);
    JoinAppend(xs, ys + [z]);
    JoinAppend(ys, [z]);
  }

  /** "a, b, c, d, e" reads back as five entries. */
  lemma FiveLettersParsed()
    ensures ParseList(Some(Join(", ", ["a", "b", "c", "d", "e"]))) == ["a", "b", "c", "d", "e"]
  {
    var five: seq<string> := ["a", "b", "c", "d", "e"];
    assert forall k | 0 <= k < 5 :: |five[k]| == 1 && five[k][0] != ',' && !IsRegexSpace(five[k][0]);
    ParseListOfJoin(five);
  }
}
