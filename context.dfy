/** `TychoContext` of `tycho/context.py`: compiling the app registry. The
    registry document is the already loaded YAML (reading the file is left out),
    and `_grok` keeps the apps of the registries named after the product or
    `common`, keyed by id, with the repository URLs substituted into each app's
    `spec`, `icon` and `docs`.

    `TychoContext._parse_env` is the `.env` parsing of `TychoUtils.ParseEnv`. */
module Context {
  import opened Wrappers
  import opened Template

  /** An app definition, its string-valued keys (`id`, `spec`, `icon`, ...). */
  type App = map<string, string>

  /** An element of `repositories`; `None` for an absent key. */
  datatype Repository = Repository(id: Option<string>, url: Option<string>)

  /** An element of `registries`; `None` for an absent key. */
  datatype Registry = Registry(id: Option<string>, name: Option<string>, apps: Option<seq<App>>)

  /** The registry document; `None` for an absent key. */
  datatype RegistryDoc = RegistryDoc(repositories: Option<seq<Repository>>, registries: Option<seq<Registry>>)

  /** The app keys whose values are URL templates, in the order they are rewritten. */
  const UrlKeys: seq<string> := ["spec", "icon", "docs"]

  /** The registry used when none is named. */
  const Common: string := "common"

  // ---------------------------------------------------------------------------
  // The repository context
  // ---------------------------------------------------------------------------

  /** `{r['id']: r['url'] for r in repositories}`: a missing key raises
      `KeyError`, a later id overrides an earlier one. */
  function RepositoryContext(repos: seq<Repository>): Result<map<string, string>>
    decreases |repos|
  {
    if repos == [] then Ok(map[])
    else
      match RepositoryContext(repos[..|repos| - 1])
      case Err(e) => Err(e)
      case Ok(m) =>
        var r := repos[|repos| - 1];
        if r.id.None? || r.url.None? then Err(KeyError) else Ok(m[r.id.value := r.url.value])
  }

  /** The context exists exactly when every repository has an id and a URL;
      otherwise the failure is a `KeyError`. */
  lemma {:induction false} RepositoryContextOk(repos: seq<Repository>)
    ensures RepositoryContext(repos).Ok?
      <==> forall i :: 0 <= i < |repos| ==> repos[i].id.Some? && repos[i].url.Some?
    ensures RepositoryContext(repos).Err? ==> RepositoryContext(repos).error == KeyError
    decreases |repos|
  {
    if repos != [] {
      var init := repos[..|repos| - 1];
      RepositoryContextOk(init);
      assert forall i :: 0 <= i < |init| ==> init[i] == repos[i];
    }
  }

  /** The keys of the context are the repository ids. */
  lemma {:induction false} RepositoryContextKeys(repos: seq<Repository>)
    requires RepositoryContext(repos).Ok?
    ensures forall id ::
      (id in RepositoryContext(repos).value <==> exists i :: 0 <= i < |repos| && repos[i].id == Some(id))
    decreases |repos|
  {
    if repos != [] {
      var init := repos[..|repos| - 1];
      RepositoryContextKeys(init);
      assert forall i :: 0 <= i < |init| ==> init[i] == repos[i];
    }
  }

  /** Each id maps to the URL of the last repository with that id. */
  lemma {:induction false} RepositoryContextLastWins(repos: seq<Repository>, i: nat)
    requires RepositoryContext(repos).Ok? && i < |repos|
    requires forall j :: i < j < |repos| ==> repos[j].id != repos[i].id
    ensures repos[i].id.Some? && repos[i].url.Some?
    ensures repos[i].id.value in RepositoryContext(repos).value
    ensures RepositoryContext(repos).value[repos[i].id.value] == repos[i].url.value
    decreases |repos|
  {
    var init := repos[..|repos| - 1];
    assert RepositoryContext(init).Ok?;
    if i < |repos| - 1 {
      assert init[i] == repos[i];
      assert forall j :: i < j < |init| ==> init[j] == repos[j];
      RepositoryContextLastWins(init, i);
    }
  }

  // ---------------------------------------------------------------------------
  // Rewriting one app
  // ---------------------------------------------------------------------------

  /** The loop over `keys`: each `app[key]` is replaced by its substitution
      against `ctx`; a missing key raises `KeyError`. */
  function RewriteKeys(app: App, keys: seq<string>, ctx: map<string, string>): Result<App>
    decreases |keys|
  {
    if keys == [] then Ok(app)
    else
      match RewriteKeys(app, keys[..|keys| - 1], ctx)
      case Err(e) => Err(e)
      case Ok(a) =>
        var key := keys[|keys| - 1];
        if key !in a then Err(KeyError) else Ok(a[key := SafeSubstitute(a[key], ctx)])
  }

  /** Rewriting succeeds exactly when the app has every key; the failure is a
      `KeyError`. */
  lemma {:induction false} RewriteKeysOk(app: App, keys: seq<string>, ctx: map<string, string>)
    ensures RewriteKeys(app, keys, ctx).Ok? <==> forall i :: 0 <= i < |keys| ==> keys[i] in app
    ensures RewriteKeys(app, keys, ctx).Err? ==> RewriteKeys(app, keys, ctx).error == KeyError
    ensures RewriteKeys(app, keys, ctx).Ok? ==> RewriteKeys(app, keys, ctx).value.Keys == app.Keys
    decreases |keys|
  {
    if keys != [] {
      var init := keys[..|keys| - 1];
      assert forall i :: 0 <= i < |init| ==> init[i] == keys[i];
      RewriteKeysOk(app, init, ctx);
    }
  }

  /** Rewriting distinct keys substitutes each of them once and keeps every
      other entry. */
  lemma {:induction false} RewriteKeysValues(app: App, keys: seq<string>, ctx: map<string, string>, k: string)
    requires forall i, j :: 0 <= i < j < |keys| ==> keys[i] != keys[j]
    requires RewriteKeys(app, keys, ctx).Ok? && k in app
    ensures k in RewriteKeys(app, keys, ctx).value
    ensures RewriteKeys(app, keys, ctx).value[k] == (if k in keys then SafeSubstitute(app[k], ctx) else app[k])
    decreases |keys|
  {
    RewriteKeysOk(app, keys, ctx);
    if keys != [] {
      var init := keys[..|keys| - 1];
      var key := keys[|keys| - 1];
      assert forall i :: 0 <= i < |init| ==> init[i] == keys[i];
      assert RewriteKeys(app, init, ctx).Ok?;
      RewriteKeysValues(app, init, ctx, k);
      assert keys == init + [key];
      if k == key {
        assert key !in init;
      }
    }
  }

  /** The rewritten app: `spec`, `icon` and `docs` substituted. */
  function RewriteApp(app: App, ctx: map<string, string>): Result<App>
  {
    RewriteKeys(app, UrlKeys, ctx)
  }

  /** An app that `_grok` can take: it has an id and all three URL keys. */
  predicate Usable(app: App)
  {
    "id" in app && "spec" in app && "icon" in app && "docs" in app
  }

  /** Rewriting fails, with a `KeyError`, exactly on a missing URL key. */
  lemma RewriteAppOk(app: App, ctx: map<string, string>)
    ensures RewriteApp(app, ctx).Ok? <==> "spec" in app && "icon" in app && "docs" in app
    ensures RewriteApp(app, ctx).Err? ==> RewriteApp(app, ctx).error == KeyError
  {
    RewriteKeysOk(app, UrlKeys, ctx);
  }

  /** A rewritten app has the three URL templates substituted and every other
      entry kept. */
  lemma RewriteAppSpec(app: App, ctx: map<string, string>)
    requires RewriteApp(app, ctx).Ok?
    ensures RewriteApp(app, ctx).value.Keys == app.Keys
    ensures forall k :: k in app ==>
        RewriteApp(app, ctx).value[k] == (if k in UrlKeys then SafeSubstitute(app[k], ctx) else app[k])
  {
    RewriteKeysOk(app, UrlKeys, ctx);
    forall k | k in app
      ensures RewriteApp(app, ctx).value[k] == (if k in UrlKeys then SafeSubstitute(app[k], ctx) else app[k])
    {
      RewriteKeysValues(app, UrlKeys, ctx, k);
    }
  }

  /** A `spec` that starts with `${repo}` starts, once rewritten, with the URL
      of the last repository whose id is `repo`. */
  lemma SpecResolvesRepository(app: App, repos: seq<Repository>, i: nat, rest: string)
    requires RepositoryContext(repos).Ok? && i < |repos|
    requires forall j :: i < j < |repos| ==> repos[j].id != repos[i].id
    requires "spec" in app && "icon" in app && "docs" in app
    requires repos[i].id.Some? && repos[i].url.Some? && IsIdentifier(repos[i].id.value)
    requires app["spec"] == "${" + repos[i].id.value + "}" + rest
    ensures RewriteApp(app, RepositoryContext(repos).value).Ok?
    ensures "spec" in RewriteApp(app, RepositoryContext(repos).value).value
    ensures RewriteApp(app, RepositoryContext(repos).value).value["spec"]
         == repos[i].url.value + SafeSubstitute(rest, RepositoryContext(repos).value)
  {
    var ctx := RepositoryContext(repos).value;
    RepositoryContextLastWins(repos, i);
    RewriteAppOk(app, ctx);
    RewriteAppSpec(app, ctx);
    assert "spec" in UrlKeys;
    BracedPlaceholder(repos[i].id.value, rest, ctx);
  }

  // ---------------------------------------------------------------------------
  // Collecting the apps
  // ---------------------------------------------------------------------------

  /** The loop over one registry's apps: each is stored under its id, rewritten. */
  function AppsInto(apps: map<string, App>, list: seq<App>, ctx: map<string, string>): Result<map<string, App>>
    decreases |list|
  {
    if list == [] then Ok(apps)
    else
      match AppsInto(apps, list[..|list| - 1], ctx)
      case Err(e) => Err(e)
      case Ok(m) =>
        var app := list[|list| - 1];
        if "id" !in app then Err(KeyError)
        else
          match RewriteApp(app, ctx)
          case Err(e) => Err(e)
          case Ok(a) => Ok(m[app["id"] := a])
  }

  /** A registry `_grok` reads. */
  predicate Selected(r: Registry, product: string)
    requires r.id.Some?
  {
    r.id.value == product || r.id.value == Common
  }

  /** The loop over the registries: an id is required of every registry, a
      name of every selected one, and only the selected ones add apps. */
  function RegistriesInto(regs: seq<Registry>, product: string, ctx: map<string, string>): Result<map<string, App>>
    decreases |regs|
  {
    if regs == [] then Ok(map[])
    else
      match RegistriesInto(regs[..|regs| - 1], product, ctx)
      case Err(e) => Err(e)
      case Ok(m) =>
        var r := regs[|regs| - 1];
        if r.id.None? then Err(KeyError)
        else if !Selected(r, product) then Ok(m)
        else if r.name.None? then Err(KeyError)
        else AppsInto(m, r.apps.GetOr([]), ctx)
  }

  /** `_grok`: the compiled apps of the registry document. */
  function Compile(doc: RegistryDoc, product: string): Result<map<string, App>>
  {
    match RepositoryContext(doc.repositories.GetOr([]))
    case Err(e) => Err(e)
    case Ok(ctx) => RegistriesInto(doc.registries.GetOr([]), product, ctx)
  }

  // ---------------------------------------------------------------------------
  // What Compile computes
  // ---------------------------------------------------------------------------

  /** The apps of the selected registries, in registry order. */
  function SelectedApps(regs: seq<Registry>, product: string): seq<App>
    decreases |regs|
  {
    if regs == [] then []
    else
      var r := regs[|regs| - 1];
      SelectedApps(regs[..|regs| - 1], product)
        + (if r.id.Some? && Selected(r, product) then r.apps.GetOr([]) else [])
  }

  /** Every registry has an id and every selected one a name. */
  predicate RegistriesNamed(regs: seq<Registry>, product: string)
  {
    forall i :: 0 <= i < |regs| ==> regs[i].id.Some? && (Selected(regs[i], product) ==> regs[i].name.Some?)
  }

  lemma {:induction false} AppsIntoOk(apps: map<string, App>, list: seq<App>, ctx: map<string, string>)
    ensures AppsInto(apps, list, ctx).Ok? <==> forall i :: 0 <= i < |list| ==> Usable(list[i])
    ensures AppsInto(apps, list, ctx).Err? ==> AppsInto(apps, list, ctx).error == KeyError
    decreases |list|
  {
    if list != [] {
      var init := list[..|list| - 1];
      var app := list[|list| - 1];
      AppsIntoOk(apps, init, ctx);
      RewriteAppOk(app, ctx);
      if AppsInto(apps, init, ctx).Ok? {
        assert forall i :: 0 <= i < |list| - 1 ==> list[i] == init[i];
      } else {
        var i :| 0 <= i < |init| && !Usable(init[i]);
        assert list[i] == init[i];
      }
    }
  }

  lemma {:induction false} AppsIntoAppend(apps: map<string, App>, a: seq<App>, b: seq<App>, ctx: map<string, string>)
    requires AppsInto(apps, a, ctx).Ok?
    ensures AppsInto(apps, a + b, ctx) == AppsInto(AppsInto(apps, a, ctx).value, b, ctx)
    decreases |b|
  {
    if b == [] {
      assert a + b == a;
    } else {
      assert (a + b)[..|a + b| - 1] == a + b[..|b| - 1];
      AppsIntoAppend(apps, a, b[..|b| - 1], ctx);
    }
  }

  /** The registry loop is the app loop over the selected apps, once every
      registry has the keys it is asked for. */
  lemma {:induction false} RegistriesAsApps(regs: seq<Registry>, product: string, ctx: map<string, string>)
    requires RegistriesNamed(regs, product)
    ensures RegistriesInto(regs, product, ctx) == AppsInto(map[], SelectedApps(regs, product), ctx)
    decreases |regs|
  {
    if regs != [] {
      var init := regs[..|regs| - 1];
      assert forall i :: 0 <= i < |init| ==> init[i] == regs[i];
      RegistriesAsApps(init, product, ctx);
      var r := regs[|regs| - 1];
      var extra := if Selected(r, product) then r.apps.GetOr([]) else [];
      if AppsInto(map[], SelectedApps(init, product), ctx).Ok? {
        AppsIntoAppend(map[], SelectedApps(init, product), extra, ctx);
        if extra == [] {
          assert SelectedApps(init, product) + extra == SelectedApps(init, product);
        }
      } else {
        AppsIntoOk(map[], SelectedApps(init, product), ctx);
        AppsIntoOk(map[], SelectedApps(regs, product), ctx);
        var i :| 0 <= i < |SelectedApps(init, product)| && !Usable(SelectedApps(init, product)[i]);
        assert SelectedApps(regs, product)[i] == SelectedApps(init, product)[i];
      }
    }
  }

  /** A registry loop that succeeds met only registries with the keys it asks for. */
  lemma {:induction false} RegistriesOkNamed(regs: seq<Registry>, product: string, ctx: map<string, string>)
    requires RegistriesInto(regs, product, ctx).Ok?
    ensures RegistriesNamed(regs, product)
    decreases |regs|
  {
    if regs != [] {
      var init := regs[..|regs| - 1];
      RegistriesOkNamed(init, product, ctx);
      assert forall i :: 0 <= i < |init| ==> init[i] == regs[i];
    }
  }

  /** `_grok` succeeds exactly when every repository has an id and a URL, every
      registry an id, every selected registry a name, and every selected app an
      id, a `spec`, an `icon` and a `docs`; every failure is a `KeyError`. */
  lemma CompileSucceeds(doc: RegistryDoc, product: string)
    ensures Compile(doc, product).Ok? <==>
      && RepositoryContext(doc.repositories.GetOr([])).Ok?
      && RegistriesNamed(doc.registries.GetOr([]), product)
      && forall i :: 0 <= i < |SelectedApps(doc.registries.GetOr([]), product)| ==>
           Usable(SelectedApps(doc.registries.GetOr([]), product)[i])
    ensures Compile(doc, product).Err? ==> Compile(doc, product).error == KeyError
  {
    var repos, regs := doc.repositories.GetOr([]), doc.registries.GetOr([]);
    RepositoryContextOk(repos);
    if RepositoryContext(repos).Ok? {
      var ctx := RepositoryContext(repos).value;
      if RegistriesInto(regs, product, ctx).Ok? {
        RegistriesOkNamed(regs, product, ctx);
      }
      if RegistriesNamed(regs, product) {
        RegistriesAsApps(regs, product, ctx);
        AppsIntoOk(map[], SelectedApps(regs, product), ctx);
      } else {
        RegistriesErrIsKeyError(regs, product, ctx);
      }
    }
  }

  lemma {:induction false} RegistriesErrIsKeyError(regs: seq<Registry>, product: string, ctx: map<string, string>)
    ensures RegistriesInto(regs, product, ctx).Err? ==> RegistriesInto(regs, product, ctx).error == KeyError
    decreases |regs|
  {
    if regs != [] {
      RegistriesErrIsKeyError(regs[..|regs| - 1], product, ctx);
      var r := regs[|regs| - 1];
      if RegistriesInto(regs[..|regs| - 1], product, ctx).Ok? && r.id.Some? && Selected(r, product) && r.name.Some? {
        AppsIntoOk(RegistriesInto(regs[..|regs| - 1], product, ctx).value, r.apps.GetOr([]), ctx);
      }
    }
  }

  /** The ids in the compiled map are those of the apps loaded, and the ones
      already present. */
  lemma {:induction false} AppsIntoKeys(apps: map<string, App>, list: seq<App>, ctx: map<string, string>)
    requires AppsInto(apps, list, ctx).Ok?
    ensures forall id ::
      (id in AppsInto(apps, list, ctx).value
       <==> id in apps || exists i :: 0 <= i < |list| && "id" in list[i] && list[i]["id"] == id)
    decreases |list|
  {
    if list != [] {
      var init := list[..|list| - 1];
      AppsIntoKeys(apps, init, ctx);
      assert forall i :: 0 <= i < |init| ==> init[i] == list[i];
    }
  }

  /** An id maps to the rewritten form of the last app with that id. */
  lemma {:induction false} AppsIntoLastWins(apps: map<string, App>, list: seq<App>, ctx: map<string, string>, i: nat)
    requires AppsInto(apps, list, ctx).Ok? && i < |list| && "id" in list[i]
    requires forall j :: i < j < |list| && "id" in list[j] ==> list[j]["id"] != list[i]["id"]
    ensures RewriteApp(list[i], ctx).Ok? && list[i]["id"] in AppsInto(apps, list, ctx).value
    ensures AppsInto(apps, list, ctx).value[list[i]["id"]] == RewriteApp(list[i], ctx).value
    decreases |list|
  {
    var init := list[..|list| - 1];
    assert AppsInto(apps, init, ctx).Ok?;
    if i < |list| - 1 {
      assert init[i] == list[i];
      assert forall j :: i < j < |init| ==> init[j] == list[j];
      AppsIntoLastWins(apps, init, ctx, i);
    }
  }

  /** The compiled map is the app loop over the selected apps: with
      `AppsIntoKeys` and `AppsIntoLastWins` its keys are the ids of the
      selected apps and each id holds the last such app, rewritten. */
  lemma CompileSelected(doc: RegistryDoc, product: string)
    requires Compile(doc, product).Ok?
    ensures var ctx := RepositoryContext(doc.repositories.GetOr([])).value;
      Compile(doc, product) == AppsInto(map[], SelectedApps(doc.registries.GetOr([]), product), ctx)
  {
    var ctx := RepositoryContext(doc.repositories.GetOr([])).value;
    RegistriesOkNamed(doc.registries.GetOr([]), product, ctx);
    RegistriesAsApps(doc.registries.GetOr([]), product, ctx);
  }

  // ---------------------------------------------------------------------------
  // The loops
  // ---------------------------------------------------------------------------

  lemma {:induction false} RewriteFailureSticks(app: App, keys: seq<string>, ctx: map<string, string>, k: nat)
    requires k <= |keys| && RewriteKeys(app, keys[..k], ctx).Err?
    ensures RewriteKeys(app, keys, ctx) == RewriteKeys(app, keys[..k], ctx)
    decreases |keys|
  {
    if k < |keys| {
      assert keys[..|keys| - 1][..k] == keys[..k];
      RewriteFailureSticks(app, keys[..|keys| - 1], ctx, k);
    } else {
      assert keys[..k] == keys;
    }
  }

  lemma {:induction false} AppsFailureSticks(apps: map<string, App>, list: seq<App>, ctx: map<string, string>, k: nat)
    requires k <= |list| && AppsInto(apps, list[..k], ctx).Err?
    ensures AppsInto(apps, list, ctx) == AppsInto(apps, list[..k], ctx)
    decreases |list|
  {
    if k < |list| {
      assert list[..|list| - 1][..k] == list[..k];
      AppsFailureSticks(apps, list[..|list| - 1], ctx, k);
    } else {
      assert list[..k] == list;
    }
  }

  lemma {:induction false} RegistriesFailureSticks(regs: seq<Registry>, product: string, ctx: map<string, string>, k: nat)
    requires k <= |regs| && RegistriesInto(regs[..k], product, ctx).Err?
    ensures RegistriesInto(regs, product, ctx) == RegistriesInto(regs[..k], product, ctx)
    decreases |regs|
  {
    if k < |regs| {
      assert regs[..|regs| - 1][..k] == regs[..k];
      RegistriesFailureSticks(regs[..|regs| - 1], product, ctx, k);
    } else {
      assert regs[..k] == regs;
    }
  }

  /** The loop over the URL keys of one app. */
  method RewriteUrls(app: App, ctx: map<string, string>) returns (r: Result<App>)
    ensures r == RewriteApp(app, ctx)
  {
    var a := app;
    for i := 0 to |UrlKeys|
      invariant RewriteKeys(app, UrlKeys[..i], ctx) == Ok(a)
    {
      assert UrlKeys[..i + 1][..i] == UrlKeys[..i];
      var key := UrlKeys[i];
      if key !in a {
        RewriteFailureSticks(app, UrlKeys, ctx, i + 1);
        return Err(KeyError);
      }
      a := a[key := SafeSubstitute(a[key], ctx)];
    }
    assert UrlKeys[..|UrlKeys|] == UrlKeys;
    r := Ok(a);
  }

  /** The loop over the apps of one selected registry. */
  method LoadApps(apps: map<string, App>, list: seq<App>, ctx: map<string, string>) returns (r: Result<map<string, App>>)
    ensures r == AppsInto(apps, list, ctx)
  {
    var m := apps;
    for i := 0 to |list|
      invariant AppsInto(apps, list[..i], ctx) == Ok(m)
    {
      assert list[..i + 1][..i] == list[..i];
      var app := list[i];
      if "id" !in app {
        AppsFailureSticks(apps, list, ctx, i + 1);
        return Err(KeyError);
      }
      var rewritten := RewriteUrls(app, ctx);
      if rewritten.Err? {
        AppsFailureSticks(apps, list, ctx, i + 1);
        return Err(rewritten.error);
      }
      m := m[app["id"] := rewritten.value];
    }
    assert list[..|list|] == list;
    r := Ok(m);
  }

  /** `TychoContext`: the loaded registry, the product, and the compiled apps. */
  class TychoContext {
    const registry: RegistryDoc
    const product: string
    var apps: map<string, App>

    constructor Init(registry: RegistryDoc, product: string, apps: map<string, App>)
      ensures this.registry == registry && this.product == product && this.apps == apps
    {
      this.registry := registry;
      this.product := product;
      this.apps := apps;
    }

    /** `TychoContext(registry_config, product)` with the registry already
        loaded: the context exists exactly when `_grok` succeeds. */
    static method Load(registry: RegistryDoc, product: string) returns (r: Result<TychoContext>)
      ensures r.Ok? <==> Compile(registry, product).Ok?
      ensures r.Err? ==> r.error == Compile(registry, product).error
      ensures r.Ok? ==> fresh(r.value) && r.value.registry == registry && r.value.product == product
      ensures r.Ok? ==> r.value.apps == Compile(registry, product).value
    {
      var compiled := Grok(registry, product);
      if compiled.Err? {
        return Err(compiled.error);
      }
      var c := new TychoContext.Init(registry, product, compiled.value);
      r := Ok(c);
    }

    /** `_grok`: the loops over the registries, their apps and the URL keys. */
    static method Grok(registry: RegistryDoc, product: string) returns (r: Result<map<string, App>>)
      ensures r == Compile(registry, product)
    {
      var context := RepositoryContext(registry.repositories.GetOr([]));
      if context.Err? {
        return Err(context.error);
      }
      var ctx := context.value;
      var regs := registry.registries.GetOr([]);
      var apps: map<string, App> := map[];
      for i := 0 to |regs|
        invariant RegistriesInto(regs[..i], product, ctx) == Ok(apps)
      {
        assert regs[..i + 1][..i] == regs[..i];
        var reg := regs[i];
        if reg.id.None? {
          RegistriesFailureSticks(regs, product, ctx, i + 1);
          return Err(KeyError);
        }
        if reg.id.value == product || reg.id.value == Common {
          if reg.name.None? {
            RegistriesFailureSticks(regs, product, ctx, i + 1);
            return Err(KeyError);
          }
          var loaded := LoadApps(apps, reg.apps.GetOr([]), ctx);
          if loaded.Err? {
            RegistriesFailureSticks(regs, product, ctx, i + 1);
            return loaded;
          }
          apps := loaded.value;
        }
      }
      assert regs[..|regs|] == regs;
      r := Ok(apps);
    }
  }
}
