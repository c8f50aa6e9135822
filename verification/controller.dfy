/** `CharacterController`: the four-step creation wizard, the clone
    submission and the comparison page, each request a transition of the
    sessions and the store. A session holds at most one wizard form, under the
    attribute `wizardForm`; view names and redirects become `Outcome`s. */
module Controller {
  import opened Wrappers
  import opened Text
  import opened Domain
  import opened Repository
  import opened Dto
  import opened CharacterService
  import opened CharacterRegistry
  import opened SkillDiff

  /** The identity of an HTTP session. */
  type SessionKey = string

  /** The four wizard pages. */
  type WizardStep = n: nat | 1 <= n <= 4 witness 1

  /** Everything the handlers read or change: the wizard form of every
      session that has one, and the character store. */
  datatype App = App(sessions: map<SessionKey, Form>, store: Store)

  /** What a handler answers. */
  datatype Outcome =
    | ShowStep(step: WizardStep, form: Form)   // the step's page, showing the form
    | ShowErrors(form: Form)                   // the first page again, with field errors
    | RedirectStep(step: WizardStep)           // a redirect to the step's page
    | RedirectGallery                          // a redirect to the gallery
    | RedirectCloneDialog(id: Id)              // a redirect to the gallery with the clone dialog of `id` open
    | ShowComparison(uniqueToClone: seq<string>) // the comparison page
    | Failed(error: Error)                      // an exception escapes the handler

  /** The requests the controller serves. The clock reading `now` is passed
      to `Handle` separately. */
  datatype Request =
    | ViewStep(step: WizardStep)                      // GET /wizard/step{n}
    | SubmitIdentity(form: Form)                      // POST /wizard/step1
    | SubmitStats(form: Form)                         // POST /wizard/step2
    | SubmitSkills(skills: Option<seq<string>>)       // POST /wizard/step3
    | SubmitEquipment(equipment: Option<seq<string>>) // POST /wizard/step4
    | SubmitClone(id: Id, patch: Patch)               // POST /clone/{id}
    | Compare(original: Id, clone: Id)                // GET /compare

  /** Writing one key leaves every other entry as it was. */
  lemma UpdateKeepsOthers(m: map<SessionKey, Form>, key: SessionKey, f: Form)
    ensures m[key := f] - {key} == m - {key}
  {
  }

  /** The wizard pages: the first shows the session's form or a fresh one and
      stores nothing; the others send a session without a form back to the
      first page and otherwise show its form. */
  function ViewWizardStep(app: App, key: SessionKey, step: WizardStep): (r: Outcome)
    ensures step == 1 && key in app.sessions ==> r == ShowStep(1, app.sessions[key])
    ensures step == 1 && key !in app.sessions ==> r == ShowStep(1, NewForm())
    ensures step > 1 && key !in app.sessions ==> r == RedirectStep(1)
    ensures step > 1 && key in app.sessions ==> r == ShowStep(step, app.sessions[key])
  {
    if key in app.sessions then ShowStep(step, app.sessions[key])
    else if step == 1 then ShowStep(1, NewForm())
    else RedirectStep(1)
  }

  /** Step 1 submitted: a form that breaks its constraints is shown again and
      nothing changes; a valid one replaces whatever the session held, as a
      whole, and the wizard moves to step 2. */
  function SubmitStep1(app: App, key: SessionKey, form: Form): (r: (Outcome, App))
    ensures !FormValid(form) ==> r == (ShowErrors(form), app)
    ensures FormValid(form) ==>
      && r.0 == RedirectStep(2)
      && r.1.store == app.store
      && key in r.1.sessions && r.1.sessions[key] == form
      && r.1.sessions - {key} == app.sessions - {key}
  {
    if !FormValid(form) then (ShowErrors(form), app)
    else
      UpdateKeepsOthers(app.sessions, key, form);
      (RedirectStep(2), app.(sessions := app.sessions[key := form]))
  }

  /** The five stats of step 2 taken from `posted`; the level and every other
      field kept from `existing`. */
  function MergeStats(existing: Form, posted: Form): (r: Form)
    ensures r.stats.level == existing.stats.level
    ensures forall s: Stat | s != Level :: r.stats.Get(s) == posted.stats.Get(s)
    ensures r == existing.(stats := r.stats)
  {
    existing.(stats := existing.stats
      .(strength := posted.stats.strength)
      .(agility := posted.stats.agility)
      .(intelligence := posted.stats.intelligence)
      .(vitality := posted.stats.vitality)
      .(luck := posted.stats.luck))
  }

  /** Step 2 submitted: without a session form, back to step 1 and nothing
      changes. Otherwise strength, agility, intelligence, vitality and luck
      are copied into the session form, unchecked, while its level, name,
      race, class and lists stay; the wizard moves to step 3. */
  function SubmitStep2(app: App, key: SessionKey, posted: Form): (r: (Outcome, App))
    ensures key !in app.sessions ==> r == (RedirectStep(1), app)
    ensures key in app.sessions ==>
      && r.0 == RedirectStep(3)
      && r.1.store == app.store
      && key in r.1.sessions
      && r.1.sessions[key].stats.level == app.sessions[key].stats.level
      && (forall s: Stat | s != Level :: r.1.sessions[key].stats.Get(s) == posted.stats.Get(s))
      && r.1.sessions[key] == app.sessions[key].(stats := r.1.sessions[key].stats)
      && r.1.sessions - {key} == app.sessions - {key}
  {
    if key !in app.sessions then (RedirectStep(1), app)
    else
      var f := MergeStats(app.sessions[key], posted);
      UpdateKeepsOthers(app.sessions, key, f);
      (RedirectStep(3), app.(sessions := app.sessions[key := f]))
  }

  /** Step 3 submitted: without a session form, back to step 1. More than four
      skills: back to step 3 with nothing changed. Otherwise the list (empty
      when absent) replaces the session form's skills and the wizard moves to
      step 4. */
  function SubmitStep3(app: App, key: SessionKey, skills: Option<seq<string>>): (r: (Outcome, App))
    ensures key !in app.sessions ==> r == (RedirectStep(1), app)
    ensures key in app.sessions && skills.Some? && |skills.value| > 4 ==> r == (RedirectStep(3), app)
    ensures key in app.sessions && (skills.None? || |skills.value| <= 4) ==>
      && r.0 == RedirectStep(4)
      && r.1.store == app.store
      && key in r.1.sessions
      && r.1.sessions[key].skills == skills.GetOr([])
      && r.1.sessions[key] == app.sessions[key].(skills := r.1.sessions[key].skills)
      && r.1.sessions - {key} == app.sessions - {key}
  {
    if key !in app.sessions then (RedirectStep(1), app)
    else if skills.Some? && |skills.value| > 4 then (RedirectStep(3), app)
    else
      var f := SetSkills(app.sessions[key], skills);
      UpdateKeepsOthers(app.sessions, key, f);
      (RedirectStep(4), app.(sessions := app.sessions[key := f]))
  }

  /** Step 4 submitted at time `now`: without a session form, back to step 1.
      More than three items: back to step 4 with nothing changed. Otherwise
      the list (empty when absent) is written into the session form first;
      then the form is built and saved. If the build throws, the exception
      escapes, nothing is saved and the session keeps the form with its new
      equipment. If it succeeds, exactly one character is added to the store,
      the session's form is removed and the browser goes to the gallery. */
  function SubmitStep4(app: App, key: SessionKey, equipment: Option<seq<string>>, now: Timestamp): (r: (Outcome, App))
    ensures key !in app.sessions ==> r == (RedirectStep(1), app)
    ensures key in app.sessions && equipment.Some? && |equipment.value| > 3 ==> r == (RedirectStep(4), app)
    ensures key in app.sessions && (equipment.None? || |equipment.value| <= 3) ==>
      var f := app.sessions[key].(equipment := equipment.GetOr([]));
      && (r.0.Failed? <==> IsNullOrBlank(f.name) || IsNullOrBlank(f.characterClass))
      && (r.0.Failed? ==>
            && r.1.store == app.store
            && key in r.1.sessions && r.1.sessions[key] == f
            && r.1.sessions - {key} == app.sessions - {key})
      && (!r.0.Failed? ==>
            && r.0 == RedirectGallery
            && r.1.sessions == app.sessions - {key}
            && app.store.nextId !in app.store.rows
            && r.1.store.rows == app.store.rows[app.store.nextId := BuildFromForm(app.store, f, now).0.value])
  {
    if key !in app.sessions then (RedirectStep(1), app)
    else if equipment.Some? && |equipment.value| > 3 then (RedirectStep(4), app)
    else
      var f := SetEquipment(app.sessions[key], equipment);
      UpdateKeepsOthers(app.sessions, key, f);
      var app := app.(sessions := app.sessions[key := f]);
      var (built, store') := BuildFromForm(app.store, f, now);
      match built
      case Failure(e) => (Failed(e), app)
      case Success(_) => (RedirectGallery, App(app.sessions - {key}, store'))
  }

  /** The clone submission at time `now`: a patch that breaks its constraints
      sends the browser back to the clone dialog with nothing changed, as do
      more than four skills or more than three items (a check that valid
      patches always pass). An unknown id throws and nothing changes.
      Otherwise the clone is saved and the browser goes to the gallery. */
  function ClonePost(app: App, id: Id, patch: Patch, now: Timestamp): (r: (Outcome, App))
    ensures !PatchValid(patch) ==> r == (RedirectCloneDialog(id), app)
    ensures patch.skills.Some? && |patch.skills.value| > 4 ==> r == (RedirectCloneDialog(id), app)
    ensures patch.equipment.Some? && |patch.equipment.value| > 3 ==> r == (RedirectCloneDialog(id), app)
    ensures PatchValid(patch) && id !in app.store.rows ==> r == (Failed(NotFound(id)), app)
    ensures PatchValid(patch) && id in app.store.rows ==>
      && r.0 == RedirectGallery
      && r.1.sessions == app.sessions
      && app.store.nextId !in app.store.rows
      && r.1.store.rows == app.store.rows[app.store.nextId := CloneCharacter(app.store, id, patch, now).0.value]
      && r.1.store.rows[app.store.nextId].clonedFromId == Some(id)
  {
    if !PatchValid(patch) then (RedirectCloneDialog(id), app)
    else if patch.skills.Some? && |patch.skills.value| > 4 then (RedirectCloneDialog(id), app)
    else if patch.equipment.Some? && |patch.equipment.value| > 3 then (RedirectCloneDialog(id), app)
    else
      var (cloned, store') := CloneCharacter(app.store, id, patch, now);
      match cloned
      case Failure(e) => (Failed(e), app)
      case Success(_) => (RedirectGallery, app.(store := store'))
  }

  /** The comparison page: an unknown original throws first, then an unknown
      clone; otherwise the page lists the clone's trimmed skills that the
      original lacks, in the clone's order and as often as the clone lists
      them. */
  function CompareSkills(s: Store, original: Id, clone: Id): (r: Outcome)
    ensures original !in s.rows ==> r == Failed(NotFound(original))
    ensures original in s.rows && clone !in s.rows ==> r == Failed(NotFound(clone))
    ensures original in s.rows && clone in s.rows ==>
      && r.ShowComparison?
      && (forall x :: x in r.uniqueToClone <==>
            x in TrimAll(SkillList(s.rows[clone])) && x !in TrimAll(SkillList(s.rows[original])))
      && (forall x :: multiset(r.uniqueToClone)[x] ==
            if x in TrimAll(SkillList(s.rows[original])) then 0
            else multiset(TrimAll(SkillList(s.rows[clone])))[x])
      && IsSubsequence(r.uniqueToClone, TrimAll(SkillList(s.rows[clone])))
  {
    match FindById(s, original)
    case None => Failed(NotFound(original))
    case Some(o) =>
      match FindById(s, clone)
      case None => Failed(NotFound(clone))
      case Some(c) => ShowComparison(UniqueToClone(SkillList(o), SkillList(c)))
  }

  /** One request of session `key` at time `now`, routed to its handler. Each
      request has its own few answers; an exception that escapes leaves the
      store as it was, and a redirect to the gallery means a row was added
      under the store's next id. */
  function Handle(app: App, key: SessionKey, req: Request, now: Timestamp): (r: (Outcome, App))
    ensures req.ViewStep? ==> r.0.ShowStep? || r.0 == RedirectStep(1)
    ensures req.SubmitIdentity? ==> r.0.ShowErrors? || r.0 == RedirectStep(2)
    ensures req.SubmitStats? ==> r.0 == RedirectStep(1) || r.0 == RedirectStep(3)
    ensures req.SubmitSkills? ==> r.0 == RedirectStep(1) || r.0 == RedirectStep(3) || r.0 == RedirectStep(4)
    ensures req.SubmitEquipment? ==>
      r.0 == RedirectStep(1) || r.0 == RedirectStep(4) || r.0 == RedirectGallery || r.0.Failed?
    ensures req.SubmitClone? ==>
      r.0 == RedirectCloneDialog(req.id) || r.0 == RedirectGallery || r.0 == Failed(NotFound(req.id))
    ensures req.Compare? ==>
      r.0.ShowComparison? || r.0 == Failed(NotFound(req.original)) || r.0 == Failed(NotFound(req.clone))
    ensures r.0.Failed? ==> r.1.store == app.store
    ensures r.0 == RedirectGallery ==>
      app.store.nextId !in app.store.rows && app.store.nextId in r.1.store.rows
  {
    match req
    case ViewStep(n) => (ViewWizardStep(app, key, n), app)
    case SubmitIdentity(f) => SubmitStep1(app, key, f)
    case SubmitStats(f) => SubmitStep2(app, key, f)
    case SubmitSkills(xs) => SubmitStep3(app, key, xs)
    case SubmitEquipment(xs) => SubmitStep4(app, key, xs, now)
    case SubmitClone(id, p) => ClonePost(app, id, p, now)
    case Compare(o, c) => (CompareSkills(app.store, o, c), app)
  }

  /** What a request may touch: the pages change nothing, only the clone
      submission and step 4 write to the store, the clone submission leaves
      the sessions alone, and no request touches another session's form. */
  lemma HandleFrame(app: App, key: SessionKey, req: Request, now: Timestamp)
    ensures var r := Handle(app, key, req, now);
      && (req.ViewStep? || req.Compare? ==> r.1 == app)
      && (req.SubmitClone? ==> r.1.sessions == app.sessions)
      && (!req.SubmitClone? && !req.SubmitEquipment? ==> r.1.store == app.store)
      && r.1.sessions - {key} == app.sessions - {key}
  {
    match req
    case ViewStep(n) =>
    case SubmitIdentity(f) =>
    case SubmitStats(f) =>
    case SubmitSkills(xs) =>
    case SubmitEquipment(xs) => Step4Frame(app, key, xs, now);
    case SubmitClone(id, p) =>
    case Compare(o, c) =>
  }

  /** Step 4 touches no session but its own. */
  lemma Step4Frame(app: App, key: SessionKey, xs: Option<seq<string>>, now: Timestamp)
    ensures SubmitStep4(app, key, xs, now).1.sessions - {key} == app.sessions - {key}
  {
    var (o, app') := SubmitStep4(app, key, xs, now);
    if o == RedirectGallery {
      assert app'.sessions == app.sessions - {key};
      assert app'.sessions - {key} == app.sessions - {key};
    }
  }
}
