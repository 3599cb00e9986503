/** Tenant applications: the `Application` user model and its manager
    (`create_user`, `create_superuser`). Passwords are not modelled. */
module Auth {
  import opened Outcomes

  type AppId = nat

  /** Width of the `name` column. */
  const NameMaxLength := 100

  const MissingNameMessage := "Application must have a name"

  datatype Application = Application(id: AppId, name: string, isActive: bool, isAdmin: bool) {

    /** Staff status is the admin flag itself. */
    predicate IsStaff() { isAdmin }

    /** Every application holds every permission. */
    predicate HasPerm(perm: string) { true }

    predicate HasModulePerms(appLabel: string) { true }

    function ToString(): string { name }
  }

  /** The application table: rows by primary key, and the next key the
      auto-increment sequence hands out. */
  datatype Registry = Registry(apps: map<AppId, Application>, nextId: AppId)

  /** Result of a successful manager call: the new table and the created row. */
  datatype Created = Created(registry: Registry, app: Application)

  predicate NameTaken(reg: Registry, name: string) {
    exists id :: id in reg.apps && reg.apps[id].name == name
  }

  /** Table invariant: rows are stored under their own key, keys are below the
      sequence, names are non-empty, fit the column and are unique. */
  ghost predicate Valid(reg: Registry) {
    && (forall id :: id in reg.apps ==> reg.apps[id].id == id && id < reg.nextId)
    && (forall id :: id in reg.apps ==> 0 < |reg.apps[id].name| <= NameMaxLength)
    && (forall a, b :: a in reg.apps && b in reg.apps && reg.apps[a].name == reg.apps[b].name ==> a == b)
  }

  /** `ApplicationManager.create_user`: an empty name raises `ValueError`; a
      name longer than the column or already in use fails at the insert. */
  function CreateUser(reg: Registry, name: string): (r: Result<Created>)
    ensures name == "" ==> r == Err(ValueError(MissingNameMessage))
    ensures name != "" && NameTaken(reg, name) && |name| <= NameMaxLength ==> r == Err(UniqueViolation("name"))
    ensures r.Ok? <==> name != "" && |name| <= NameMaxLength && !NameTaken(reg, name)
    ensures r.Err? ==> r.failure.ValueError? || r.failure.ValueTooLong? || r.failure.UniqueViolation?
    ensures r.Ok? ==> var app := r.value.app;
      && app.name == name && app.isActive && !app.isAdmin
      && r.value.registry.apps.Keys == reg.apps.Keys + {app.id}
      && r.value.registry.apps[app.id] == app
    ensures Valid(reg) && r.Ok? ==>
      && r.value.app.id !in reg.apps
      && (forall id :: id in reg.apps ==> r.value.registry.apps[id] == reg.apps[id])
      && Valid(r.value.registry)
  {
    if name == "" then Err(ValueError(MissingNameMessage))
    else if |name| > NameMaxLength then Err(ValueTooLong("name"))
    else if NameTaken(reg, name) then Err(UniqueViolation("name"))
    else
      var app := Application(reg.nextId, name, true, false);
      Ok(Created(Registry(reg.apps[reg.nextId := app], reg.nextId + 1), app))
  }

  /** `ApplicationManager.create_superuser`: `create_user`, then set the admin
      flag on the new row and save it again. */
  function CreateSuperuser(reg: Registry, name: string): (r: Result<Created>)
    ensures r.Ok? <==> CreateUser(reg, name).Ok?
    ensures r.Err? ==> r == CreateUser(reg, name)
    ensures r.Ok? ==> var app := r.value.app;
      && app.name == name && app.isAdmin && app.isActive
      && r.value.registry.apps.Keys == reg.apps.Keys + {app.id}
      && r.value.registry.apps[app.id] == app
    ensures Valid(reg) && r.Ok? ==>
      && r.value.app.id !in reg.apps
      && (forall id :: id in reg.apps ==> r.value.registry.apps[id] == reg.apps[id])
      && Valid(r.value.registry)
  {
    var c :- CreateUser(reg, name);
    var admin := c.app.(isAdmin := true);
    Ok(Created(c.registry.(apps := c.registry.apps[admin.id := admin]), admin))
  }

  /** A second application with a name already created is refused, whether
      the first was made by `create_user` or `create_superuser`. */
  lemma {:induction false} DuplicateNameRejected(reg: Registry, name: string, admin: bool)
    requires Valid(reg)
    requires (if admin then CreateSuperuser(reg, name) else CreateUser(reg, name)).Ok?
    ensures var c := (if admin then CreateSuperuser(reg, name) else CreateUser(reg, name)).value;
      && CreateUser(c.registry, name) == Err(UniqueViolation("name"))
      && CreateSuperuser(c.registry, name) == Err(UniqueViolation("name"))
  {
    var c := (if admin then CreateSuperuser(reg, name) else CreateUser(reg, name)).value;
    assert c.registry.apps[c.app.id].name == name;
    assert NameTaken(c.registry, name);
  }

  /** What the created rows answer: `create_user` gives an active non-staff
      application, `create_superuser` an active staff one; both hold every
      permission and print as their name. */
  lemma {:induction false} CreatedFlags(reg: Registry, name: string, perm: string, appLabel: string)
    ensures CreateUser(reg, name).Ok? ==> var app := CreateUser(reg, name).value.app;
      && !app.IsStaff() && app.isActive
      && app.HasPerm(perm) && app.HasModulePerms(appLabel) && app.ToString() == name
    ensures CreateSuperuser(reg, name).Ok? ==> var app := CreateSuperuser(reg, name).value.app;
      && app.IsStaff() && app.isActive
      && app.HasPerm(perm) && app.HasModulePerms(appLabel) && app.ToString() == name
  {
  }

  /** For every application, staff status equals the admin flag and both
      permission checks grant. This only documents the definitions, which are
      one-line constants in the source. */
  lemma {:induction false} ApplicationAnswers(app: Application, perm: string, appLabel: string)
    ensures app.IsStaff() <==> app.isAdmin
    ensures app.HasPerm(perm) && app.HasModulePerms(appLabel)
    ensures app.ToString() == app.name
  {
  }
}
