/** `System` of `tycho/model.py`: a named, identified set of containers with
    their network services and volume bindings, the context merge of
    `System.render`, and `System.parse`, which turns a docker-compose document
    into a system.

    The random identifier of `parse`, its `yaml.dump`/`yaml.load` round trip
    and `TYCHO_ON_MINIKUBE` are parameters: `Parse` takes the document after
    substitution, the identifier, the variable's value, and the function that
    dumps a system to text. */
module SystemModel {
  import opened Wrappers
  import opened Text
  import opened Template
  import opened Model
  import opened Volumes

  /** A constructed `System`; `containers` holds `Container` objects when the
      list given was one of dictionaries, and the list as given otherwise. */
  datatype System = System(
    identifier: string,
    systemName: string,
    name: string,
    containers: seq<ContainerArg>,
    services: map<string, Service>,
    volumes: Option<seq<VolumeBinding>>,
    sourceText: Option<string>)

  // ---------------------------------------------------------------------------
  // The constructor
  // ---------------------------------------------------------------------------

  /** Python truthiness of a list element. */
  predicate Truthy(c: ContainerArg)
  {
    !c.NullArg?
  }

  /** `[c for c in containers if c == None]`. */
  function NullsOf(cs: seq<ContainerArg>): seq<ContainerArg>
  {
    if cs == [] then [] else (if cs[0].NullArg? then [cs[0]] else []) + NullsOf(cs[1..])
  }

  /** `not any([c for c in containers if c == None])`. */
  predicate NoneAreNull(cs: seq<ContainerArg>)
  {
    !exists c :: c in NullsOf(cs) && Truthy(c)
  }

  lemma {:induction false} NullsAreNull(cs: seq<ContainerArg>)
    ensures forall c :: c in NullsOf(cs) ==> c.NullArg?
    decreases |cs|
  {
    if cs != [] {
      NullsAreNull(cs[1..]);
    }
  }

  /** The null check as written never fails: the list it inspects holds only
      `None`s, and `any` of those is false. */
  lemma NullCheckVacuous(cs: seq<ContainerArg>)
    ensures NoneAreNull(cs)
  {
    NullsAreNull(cs);
  }

  /** The check the assertion's message describes: no element is `None`. */
  predicate NoNulls(cs: seq<ContainerArg>)
  {
    forall i :: 0 <= i < |cs| ==> !cs[i].NullArg?
  }

  /** `[None]` passes the check as written although its one element is null. */
  lemma NullCheckAdmitsNull()
    ensures NoneAreNull([NullArg]) && !NoNulls([NullArg])
  {
    NullCheckVacuous([NullArg]);
    assert [NullArg][0].NullArg?;
  }

  /** `list(map(lambda v: Container(**v), containers))`: the first container
      that is not a dictionary, or whose construction fails, raises. */
  function BuildAll(cs: seq<ContainerArg>): (r: Result<seq<ContainerArg>>)
    ensures r.Ok? <==> forall i :: 0 <= i < |cs| ==> cs[i].SpecArg? && NewContainer(cs[i].spec).Ok?
    ensures r.Ok? ==> |r.value| == |cs|
    ensures r.Ok? ==> forall i :: 0 <= i < |cs| ==> r.value[i] == BuiltArg(NewContainer(cs[i].spec).value)
  {
    if cs == [] then Ok([])
    else
      var rest := BuildAll(cs[1..]);
      assert forall i :: 1 <= i < |cs| ==> cs[i] == cs[1..][i - 1];
      if !cs[0].SpecArg? then Err(TypeError)
      else
        match NewContainer(cs[0].spec)
        case Err(e) => Err(e)
        case Ok(c) => if rest.Err? then rest else Ok([BuiltArg(c)] + rest.value)
  }

  /** The containers mapped through `Container(**v)` when the first one is a
      dictionary, kept as they are otherwise. */
  function BuildContainers(cs: seq<ContainerArg>): Result<seq<ContainerArg>>
    requires cs != []
  {
    if cs[0].SpecArg? then BuildAll(cs) else Ok(cs)
  }

  /** `{k: Service(**d) for k, d in services.items()}`. */
  function BuildServices(defs: map<string, ServiceDef>): Result<map<string, Service>>
  {
    if forall k :: k in defs ==> NewService(defs[k]).Ok? then Ok(map k | k in defs :: NewService(defs[k]).value)
    else Err(ValueError)
  }

  /** A service after the constructor's renaming loop. */
  function Qualified(svc: Service, key: string, identifier: string): Service
  {
    svc.(name := Some(key + "-" + identifier), nameNoid := Some(key))
  }

  /** `System(config, identifier, name, containers, services)`. */
  function SystemOf(identifier: string, name: string, cs: seq<ContainerArg>, defs: map<string, ServiceDef>,
                    minikube: Option<string>): Result<System>
  {
    if !(|cs| > 0 && NoneAreNull(cs)) then Err(AssertionError)
    else
      match BuildContainers(cs)
      case Err(e) => Err(e)
      case Ok(containers) =>
        match BuildServices(defs)
        case Err(e) => Err(e)
        case Ok(made) =>
          var services := map k | k in made :: Qualified(made[k], k, identifier);
          Ok(System(identifier, name, name + "-" + identifier, containers, services,
                    ProcessedVolumes(identifier, minikube, cs), None))
  }

  /** The loop over the services that gives each its qualified and plain name. */
  method NameServices(made: map<string, Service>, identifier: string) returns (services: map<string, Service>)
    ensures services == map k | k in made :: Qualified(made[k], k, identifier)
  {
    services := made;
    var pending := services.Keys;
    while pending != {}
      invariant pending <= made.Keys && services.Keys == made.Keys
      invariant forall k :: k in services ==>
        services[k] == if k in pending then made[k] else Qualified(made[k], k, identifier)
      decreases pending
    {
      var k :| k in pending;
      services := services[k := services[k].(name := Some(k + "-" + identifier), nameNoid := Some(k))];
      pending := pending - {k};
    }
  }

  /** The constructor: the checks, the container and service maps, the loop
      that names each service, and the volume bindings of the containers as
      given. */
  method NewSystem(identifier: string, name: string, cs: seq<ContainerArg>, defs: map<string, ServiceDef>,
                   minikube: Option<string>) returns (r: Result<System>)
    ensures r == SystemOf(identifier, name, cs, defs, minikube)
  {
    var fullName := name + "-" + identifier;
    if !(|cs| > 0 && NoneAreNull(cs)) {
      return Err(AssertionError);
    }
    var built := BuildContainers(cs);
    if built.Err? {
      return Err(built.error);
    }
    var made := BuildServices(defs);
    if made.Err? {
      return Err(made.error);
    }
    var services := NameServices(made.value, identifier);
    var volumes := new Volumes(fullName, name, identifier, cs);
    var bindings := volumes.ProcessVolumes(minikube);
    assert [] + Resolve(identifier, minikube, cs).out == Resolve(identifier, minikube, cs).out;
    r := Ok(System(identifier, name, fullName, built.value, services, bindings, None));
  }

  /** A system is built exactly when the container list is non-empty, every
      container is constructible if the first is a dictionary, and every client
      network is valid; an empty list fails the assertion. */
  lemma SystemSucceeds(identifier: string, name: string, cs: seq<ContainerArg>, defs: map<string, ServiceDef>,
                       minikube: Option<string>)
    ensures SystemOf(identifier, name, cs, defs, minikube).Ok?
      <==> && |cs| > 0
           && (cs[0].SpecArg? ==> forall i :: 0 <= i < |cs| ==> cs[i].SpecArg? && NewContainer(cs[i].spec).Ok?)
           && forall k :: k in defs ==> NewService(defs[k]).Ok?
    ensures cs == [] ==> SystemOf(identifier, name, cs, defs, minikube) == Err(AssertionError)
  {
    NullCheckVacuous(cs);
  }

  /** A lone `None` container passes the constructor: the list is kept as
      given, and its volumes are `None` because `process_volumes` raised. */
  lemma NullSystemBuilt(identifier: string, name: string, defs: map<string, ServiceDef>, minikube: Option<string>)
    requires forall k :: k in defs ==> NewService(defs[k]).Ok?
    ensures SystemOf(identifier, name, [NullArg], defs, minikube).Ok?
    ensures SystemOf(identifier, name, [NullArg], defs, minikube).value.containers == [NullArg]
    ensures SystemOf(identifier, name, [NullArg], defs, minikube).value.volumes == None
  {
    NullCheckVacuous([NullArg]);
    var s := Setting(identifier, minikube, GpuLimits([NullArg]));
    assert [NullArg][..0] == [];
    assert !ContainersStep(s, [NullArg]).ok;
  }

  /** The constructor with the null check its assertion message describes. */
  function SystemOfIntended(identifier: string, name: string, cs: seq<ContainerArg>, defs: map<string, ServiceDef>,
                            minikube: Option<string>): Result<System>
  {
    if !(|cs| > 0 && NoNulls(cs)) then Err(AssertionError)
    else SystemOf(identifier, name, cs, defs, minikube)
  }

  /** With the intended check, a system is built exactly when the list is
      non-empty with no null element, every container is constructible if the
      first is a dictionary, and every client network is valid; a null element
      fails the assertion; and a built system is the one the constructor as
      written builds. */
  lemma IntendedSystemSucceeds(identifier: string, name: string, cs: seq<ContainerArg>,
                               defs: map<string, ServiceDef>, minikube: Option<string>)
    ensures SystemOfIntended(identifier, name, cs, defs, minikube).Ok?
      <==> && |cs| > 0
           && (forall i :: 0 <= i < |cs| ==> !cs[i].NullArg?)
           && (cs[0].SpecArg? ==> forall i :: 0 <= i < |cs| ==> cs[i].SpecArg? && NewContainer(cs[i].spec).Ok?)
           && forall k :: k in defs ==> NewService(defs[k]).Ok?
    ensures (exists i :: 0 <= i < |cs| && cs[i].NullArg?)
        ==> SystemOfIntended(identifier, name, cs, defs, minikube) == Err(AssertionError)
    ensures SystemOfIntended(identifier, name, cs, defs, minikube).Ok?
        ==> SystemOfIntended(identifier, name, cs, defs, minikube) == SystemOf(identifier, name, cs, defs, minikube)
  {
    SystemSucceeds(identifier, name, cs, defs, minikube);
  }

  /** The system is `name-identifier`; every service keeps its port and
      canonical clients and is named `key-identifier`, its bare name `key`; the
      containers are constructed when given as dictionaries and kept otherwise;
      the volumes are those of the containers as given. */
  lemma SystemNaming(identifier: string, name: string, cs: seq<ContainerArg>, defs: map<string, ServiceDef>,
                     minikube: Option<string>)
    requires SystemOf(identifier, name, cs, defs, minikube).Ok?
    ensures var sys := SystemOf(identifier, name, cs, defs, minikube).value;
      && sys.name == name + "-" + identifier && sys.systemName == name && sys.identifier == identifier
      && sys.services.Keys == defs.Keys
      && (forall k :: k in defs ==>
            && NewService(defs[k]).Ok?
            && sys.services[k].name == Some(k + "-" + identifier) && sys.services[k].nameNoid == Some(k)
            && sys.services[k].port == defs[k].port
            && sys.services[k].clients == CanonicalClients(defs[k].clients).value)
      && (cs[0].SpecArg? ==>
            && |sys.containers| == |cs|
            && forall i :: 0 <= i < |cs| ==> sys.containers[i] == BuiltArg(NewContainer(cs[i].spec).value))
      && (!cs[0].SpecArg? ==> sys.containers == cs)
      && sys.volumes == ProcessedVolumes(identifier, minikube, cs)
      && sys.sourceText == None
  {
    NullCheckVacuous(cs);
  }

  // ---------------------------------------------------------------------------
  // requires_network_policy
  // ---------------------------------------------------------------------------

  /** `any([len(svc.clients) > 0 for name, svc in self.services.items()])`. */
  predicate RequiresNetworkPolicy(sys: System)
  {
    exists k :: k in sys.services && |sys.services[k].clients| > 0
  }

  /** A system needs a network policy exactly when some service definition
      lists a client. */
  lemma NetworkPolicyIffClients(identifier: string, name: string, cs: seq<ContainerArg>,
                                defs: map<string, ServiceDef>, minikube: Option<string>)
    requires SystemOf(identifier, name, cs, defs, minikube).Ok?
    ensures RequiresNetworkPolicy(SystemOf(identifier, name, cs, defs, minikube).value)
        <==> exists k :: k in defs && defs[k].clients != []
  {
    SystemNaming(identifier, name, cs, defs, minikube);
    var sys := SystemOf(identifier, name, cs, defs, minikube).value;
    if exists k :: k in defs && defs[k].clients != [] {
      var k :| k in defs && defs[k].clients != [];
      assert |sys.services[k].clients| == |defs[k].clients|;
    }
  }

  // ---------------------------------------------------------------------------
  // The context of System.render
  // ---------------------------------------------------------------------------

  /** `final_context = {"system": self}` updated with each caller entry. */
  method MergeContext<V>(system: V, context: map<string, V>) returns (r: map<string, V>)
    ensures r.Keys == context.Keys + {"system"}
    ensures forall n :: n in context ==> r[n] == context[n]
    ensures "system" !in context ==> r["system"] == system
  {
    r := map["system" := system];
    var pending := context.Keys;
    while pending != {}
      invariant pending <= context.Keys
      invariant r.Keys == (context.Keys - pending) + {"system"}
      invariant forall n :: n in context && n !in pending ==> r[n] == context[n]
      invariant "system" !in context || "system" in pending ==> r["system"] == system
      decreases pending
    {
      var n :| n in pending;
      r := r[n := context[n]];
      pending := pending - {n};
    }
  }

  // ---------------------------------------------------------------------------
  // System.parse
  // ---------------------------------------------------------------------------

  /** The variables substituted into the dumped compose text: the caller's
      settings (none when absent or empty) with `app` set to `name-identifier`. */
  function SubstitutionEnv(env: Option<map<string, string>>, name: string, identifier: string): map<string, string>
  {
    var settings := match env case Some(m) => m case None => map[];
    settings["app" := name + "-" + identifier]
  }

  /** `Template(system_template).safe_substitute(**env)`. */
  function RenderSystemText(template: string, env: Option<map<string, string>>, name: string, identifier: string)
    : string
  {
    SafeSubstitute(template, SubstitutionEnv(env, name, identifier))
  }

  /** `${app}` in the compose text becomes `name-identifier`, whatever the
      caller's settings say about `app`. */
  lemma AppPlaceholder(rest: string, env: Option<map<string, string>>, name: string, identifier: string)
    ensures RenderSystemText("${app}" + rest, env, name, identifier)
         == name + "-" + identifier + RenderSystemText(rest, env, name, identifier)
  {
    assert IsIdentifier("app") by {
      assert IsIdStart('a') && IsIdChar('a') && IsIdChar('p');
    }
    var m := SubstitutionEnv(env, name, identifier);
    BracedPlaceholder("app", rest, m);
    assert "${app}" + rest == "${" + "app" + "}" + rest;
    assert "app" in m && m["app"] == name + "-" + identifier;
  }

  /** `p.split(':')[1] if ':' in p else p`. */
  function PortOf(p: string): string
  {
    if ':' in p then (SplitHasSecond(p, ':'); Split(p, ':')[1]) else p
  }

  /** A `host:container` mapping yields the container port; a bare port is kept. */
  lemma PortOfMapping(host: string, container: string)
    requires ':' !in host && ':' !in container
    ensures PortOf(host + ":" + container) == container
    ensures PortOf(container) == container
  {
    JoinSplit([host, container], ':');
    assert Join([host, container], ':') == host + ":" + container;
  }

  /** The `ports` loop: one `{containerPort: ...}` per port, in order. */
  method NormalizePorts(ports: seq<string>) returns (r: seq<PortSpec>)
    ensures |r| == |ports| && forall i :: 0 <= i < |ports| ==> r[i] == PortSpec(PortOf(ports[i]))
  {
    r := [];
    for i := 0 to |ports|
      invariant |r| == i && forall j :: 0 <= j < i ==> r[j] == PortSpec(PortOf(ports[j]))
    {
      var p := ports[i];
      if ':' in p {
        SplitHasSecond(p, ':');
        r := r + [PortSpec(Split(p, ':')[1])];
      } else {
        r := r + [PortSpec(p)];
      }
    }
  }

  /** The `expose` loop: one `{containerPort: e}` per entry, in order. */
  method NormalizeExpose(expose: seq<string>) returns (r: seq<PortSpec>)
    ensures |r| == |expose| && forall i :: 0 <= i < |expose| ==> r[i].containerPort == expose[i]
  {
    r := [];
    for i := 0 to |expose|
      invariant |r| == i && forall j :: 0 <= j < i ==> r[j].containerPort == expose[j]
    {
      r := r + [PortSpec(expose[i])];
    }
  }

  /** The container command: a string entrypoint split on whitespace, a list
      kept as it is. */
  function Command(e: Entrypoint): (r: seq<string>)
    ensures e.EntrypointText? ==> Concat(r) == NonSpace(e.text) && forall w :: w in r ==> IsWord(w)
    ensures e.EntrypointList? ==> r == e.words
  {
    match e
    case EntrypointText(text) =>
      WordsKeepText(text);
      WordsAreWords(text);
      Words(text)
    case EntrypointList(words) => words
  }

  /** `spec.get('env', []) or spec.get('environment', [])`. */
  function EnvOf(svc: ComposeService): seq<string>
  {
    if svc.env != [] then svc.env else svc.environment
  }

  /** The container dictionary `parse` builds for one compose service. */
  function ComposeContainer(e: ComposeEntry): ContainerSpec
    requires e.service.image.Some?
  {
    var svc := e.service;
    var ports := svc.ports.GetOr([]);
    ContainerSpec(
      Some(e.name), svc.image, Some(Command(svc.entrypoint)), Some(EnvOf(svc)), None,
      svc.limits.GetOr(LimitsDict(map[])), svc.reservations.GetOr(LimitsDict(map[])),
      seq(|ports|, i requires 0 <= i < |ports| => PortSpec(PortOf(ports[i]))),
      seq(|svc.expose|, i requires 0 <= i < |svc.expose| => PortSpec(svc.expose[i])),
      Some(svc.dependsOn), Some(svc.volumes))
  }

  /** The compose services as container dictionaries; a service without an
      `image` raises `KeyError`. */
  function ComposeContainers(compose: Compose): Result<seq<ContainerArg>>
  {
    var entries := compose.services.GetOr([]);
    if forall k :: 0 <= k < |entries| ==> entries[k].service.image.Some? then
      Ok(seq(|entries|, k requires 0 <= k < |entries| => SpecArg(ComposeContainer(entries[k]))))
    else Err(KeyError)
  }

  /** `System.parse` on a substituted compose document. */
  function ParseSpec(identifier: string, name: string, compose: Compose, defs: map<string, ServiceDef>,
                     minikube: Option<string>, dump: System -> string): Result<System>
  {
    match ComposeContainers(compose)
    case Err(e) => Err(e)
    case Ok(cs) =>
      match SystemOf(identifier, name, cs, defs, minikube)
      case Err(e) => Err(e)
      case Ok(sys) => Ok(sys.(sourceText := Some(dump(sys))))
  }

  /** The loop over the compose services, then the constructor, then the dump
      of the new system into its `source_text`. */
  method Parse(identifier: string, name: string, compose: Compose, defs: map<string, ServiceDef>,
               minikube: Option<string>, dump: System -> string) returns (r: Result<System>)
    ensures r == ParseSpec(identifier, name, compose, defs, minikube, dump)
  {
    var entries := compose.services.GetOr([]);
    var containers: seq<ContainerArg> := [];
    for i := 0 to |entries|
      invariant forall k :: 0 <= k < i ==> entries[k].service.image.Some?
      invariant containers == seq(i, k requires 0 <= k < i => SpecArg(ComposeContainer(entries[k])))
    {
      var svc := entries[i].service;
      var command := Command(svc.entrypoint);
      var ports := NormalizePorts(svc.ports.GetOr([]));
      var expose := NormalizeExpose(svc.expose);
      if svc.image.None? {  // spec['image']
        return Err(KeyError);
      }
      var spec := ContainerSpec(
        Some(entries[i].name), svc.image, Some(command), Some(EnvOf(svc)), None,
        svc.limits.GetOr(LimitsDict(map[])), svc.reservations.GetOr(LimitsDict(map[])),
        ports, expose, Some(svc.dependsOn), Some(svc.volumes));
      assert spec == ComposeContainer(entries[i]);
      containers := containers + [SpecArg(spec)];
    }
    var made := NewSystem(identifier, name, containers, defs, minikube);
    if made.Err? {
      return made;
    }
    var sys := made.value;
    r := Ok(sys.(sourceText := Some(dump(sys))));
  }

  /** A compose service without an image makes `parse` raise `KeyError`; a
      document without services fails the constructor's assertion. */
  lemma ParseFailures(identifier: string, name: string, compose: Compose, defs: map<string, ServiceDef>,
                      minikube: Option<string>, dump: System -> string)
    ensures var entries := compose.services.GetOr([]);
      (exists k :: 0 <= k < |entries| && entries[k].service.image.None?)
        ==> ParseSpec(identifier, name, compose, defs, minikube, dump) == Err(KeyError)
    ensures compose.services.GetOr([]) == []
        ==> ParseSpec(identifier, name, compose, defs, minikube, dump) == Err(AssertionError)
  {
  }

  /** Container `k` of a parsed system is compose service `k`: its name, image
      and command, its environment from `env` or else `environment`, its
      container ports, and, when `deploy.resources` says nothing, empty limits
      and requests. */
  lemma ParsedContainers(identifier: string, name: string, compose: Compose, defs: map<string, ServiceDef>,
                         minikube: Option<string>, dump: System -> string, k: nat)
    requires ParseSpec(identifier, name, compose, defs, minikube, dump).Ok?
    requires k < |compose.services.GetOr([])|
    ensures var sys := ParseSpec(identifier, name, compose, defs, minikube, dump).value;
      var e := compose.services.GetOr([])[k];
      && sys.name == name + "-" + identifier
      && |sys.containers| == |compose.services.GetOr([])|
      && sys.containers[k].BuiltArg?
      && var c := sys.containers[k].container;
      && c.name == e.name && Some(c.image) == e.service.image
      && c.command == Some(Command(e.service.entrypoint))
      && c.env == EnvPieces(EnvOf(e.service))
      && |c.ports| == |e.service.ports.GetOr([])|
      && (forall i :: 0 <= i < |c.ports| ==> c.ports[i].containerPort == PortOf(e.service.ports.GetOr([])[i]))
      && (e.service.limits.None? ==> c.limits == LimitsValue(Limits(None, None, None)))
      && (e.service.reservations.None? ==> c.requests == LimitsValue(Limits(None, None, None)))
  {
    var entries := compose.services.GetOr([]);
    var cs := ComposeContainers(compose).value;
    SystemNaming(identifier, name, cs, defs, minikube);
    assert cs[k] == SpecArg(ComposeContainer(entries[k]));
    ComposeContainerBuilt(entries[k]);
  }

  lemma ComposeContainerBuilt(e: ComposeEntry)
    requires e.service.image.Some? && NewContainer(ComposeContainer(e)).Ok?
    ensures var c := NewContainer(ComposeContainer(e)).value;
      && c.name == e.name && Some(c.image) == e.service.image
      && c.command == Some(Command(e.service.entrypoint))
      && c.env == EnvPieces(EnvOf(e.service))
      && |c.ports| == |e.service.ports.GetOr([])|
      && (forall i :: 0 <= i < |c.ports| ==> c.ports[i].containerPort == PortOf(e.service.ports.GetOr([])[i]))
      && (e.service.limits.None? ==> c.limits == LimitsValue(Limits(None, None, None)))
      && (e.service.reservations.None? ==> c.requests == LimitsValue(Limits(None, None, None)))
  {
    assert LimitsOf(map[]) == Ok(Limits(None, None, None));
    var env := EnvOf(e.service);
    assert Some(env).GetOr([]) == env;
  }
}
