/** The value entities of `tycho/model.py`: resource limits, containers and
    network services, plus the docker-compose input that `System.parse` reads.

    A Python dictionary passed as keyword arguments (`Container(**v)`,
    `Limits(**v)`, `Service(**v)`) is a record whose optional keys are `Option`
    fields; a missing required argument or an unexpected keyword is the
    `TypeError` Python raises for the call. */
module Model {
  import opened Wrappers
  import opened Text
  import Network

  // ---------------------------------------------------------------------------
  // Limits
  // ---------------------------------------------------------------------------

  /** `Limits`: CPU, GPU and memory quantities, kept as the text they were given as. */
  datatype Limits = Limits(cpus: Option<string>, gpus: Option<string>, memory: Option<string>)

  /** The keyword arguments `Limits.__init__` accepts. */
  const LimitKeys: set<string> := {"cpus", "gpus", "memory"}

  /** The field of a `Limits` that keyword `k` sets. */
  function LimitField(l: Limits, k: string): Option<string>
    requires k in LimitKeys
  {
    if k == "cpus" then l.cpus else if k == "gpus" then l.gpus else l.memory
  }

  function Lookup(m: map<string, string>, k: string): Option<string>
  {
    if k in m then Some(m[k]) else None
  }

  /** `Limits(**m)`: each accepted key sets its field and a missing one leaves it
      `None`; any other key is a `TypeError`. */
  function LimitsOf(m: map<string, string>): (r: Result<Limits>)
    ensures r.Ok? <==> m.Keys <= LimitKeys
    ensures r.Err? ==> r.error == TypeError
    ensures r.Ok? ==> forall k :: k in LimitKeys ==> LimitField(r.value, k) == Lookup(m, k)
  {
    if m.Keys <= LimitKeys then Ok(Limits(Lookup(m, "cpus"), Lookup(m, "gpus"), Lookup(m, "memory")))
    else Err(TypeError)
  }

  /** A `limits` or `requests` value as a container specification carries it:
      absent or `None`, a dictionary, or a list of dictionaries. */
  datatype RawLimits =
    | NullLimits
    | LimitsDict(fields: map<string, string>)
    | LimitsList(items: seq<map<string, string>>)

  /** The `limits`/`requests` attribute of a constructed `Container`. */
  datatype LimitsField =
    | NoLimits
    | LimitsValue(limits: Limits)
    | RawDict(fields: map<string, string>)
    | RawList(items: seq<map<string, string>>)

  /** `Limits(**x) if isinstance(x, dict) else x`. */
  function LimitsIfDict(x: RawLimits): (r: Result<LimitsField>)
    ensures r.Err? <==> x.LimitsDict? && LimitsOf(x.fields).Err?
    ensures r.Err? ==> r.error == TypeError
    ensures r.Ok? && x.LimitsDict? ==> r.value == LimitsValue(LimitsOf(x.fields).value)
    ensures x.LimitsList? ==> r == Ok(RawList(x.items))
    ensures x.NullLimits? ==> r == Ok(NoLimits)
  {
    match x
    case NullLimits => Ok(NoLimits)
    case LimitsDict(m) =>
      (match LimitsOf(m)
       case Ok(l) => Ok(LimitsValue(l))
       case Err(e) => Err(e))
    case LimitsList(items) => Ok(RawList(items))
  }

  /** The normalisation of `Container.__init__`: dictionaries become `Limits`
      (limits first, then requests), and a `limits` list is replaced by its
      first element, an empty one raising `IndexError`; a `requests` list is
      kept as it is. */
  function NormalizeLimits(limits: RawLimits, requests: RawLimits): (r: Result<(LimitsField, LimitsField)>)
    ensures r.Ok? <==> LimitsIfDict(limits).Ok? && LimitsIfDict(requests).Ok? && !(limits.LimitsList? && limits.items == [])
    ensures r.Err? && (LimitsIfDict(limits).Err? || LimitsIfDict(requests).Err?) ==> r.error == TypeError
    ensures r.Err? && LimitsIfDict(limits).Ok? && LimitsIfDict(requests).Ok? ==> r.error == IndexError
    ensures r.Ok? && limits.LimitsList? ==> r.value.0 == RawDict(limits.items[0])
    ensures r.Ok? && !limits.LimitsList? ==> r.value.0 == LimitsIfDict(limits).value
    ensures r.Ok? ==> r.value.1 == LimitsIfDict(requests).value
  {
    match LimitsIfDict(limits)
    case Err(e) => Err(e)
    case Ok(l) =>
      match LimitsIfDict(requests)
      case Err(e) => Err(e)
      case Ok(q) =>
        if l.RawList? then
          if l.items == [] then Err(IndexError) else Ok((RawDict(l.items[0]), q))
        else Ok((l, q))
  }

  // ---------------------------------------------------------------------------
  // Container
  // ---------------------------------------------------------------------------

  /** A `{"containerPort": p}` entry of `ports` or `expose`. */
  datatype PortSpec = PortSpec(containerPort: string)

  /** The keyword arguments of `Container(**v)`; `None` stands for a key that is
      absent (or, for the optional ones, `None`). */
  datatype ContainerSpec = ContainerSpec(
    name: Option<string>,
    image: Option<string>,
    command: Option<seq<string>>,
    env: Option<seq<string>>,
    identity: Option<int>,
    limits: RawLimits,
    requests: RawLimits,
    ports: seq<PortSpec>,
    expose: seq<PortSpec>,
    dependsOn: Option<seq<string>>,
    volumes: Option<seq<string>>)

  /** A constructed `Container`. */
  datatype Container = Container(
    name: string,
    image: string,
    command: Option<seq<string>>,
    env: seq<seq<string>>,
    identity: Option<int>,
    limits: LimitsField,
    requests: LimitsField,
    ports: seq<PortSpec>,
    expose: seq<PortSpec>,
    dependsOn: Option<seq<string>>,
    volumes: Option<seq<string>>)

  /** An element of the container list given to `System`: a dictionary, an
      already constructed `Container`, or `None`. */
  datatype ContainerArg = SpecArg(spec: ContainerSpec) | BuiltArg(container: Container) | NullArg

  /** Each environment entry as the list of all its `=`-separated pieces: the
      pieces joined by `=` give the entry back, and none contains `=`. */
  function EnvPieces(env: seq<string>): (r: seq<seq<string>>)
    ensures |r| == |env|
    ensures forall i :: 0 <= i < |env| ==>
      |r[i]| >= 1 && Join(r[i], '=') == env[i] && forall p :: p in r[i] ==> '=' !in p
  {
    if env == [] then []
    else
      SplitJoin(env[0], '=');
      [Split(env[0], '=')] + EnvPieces(env[1..])
  }

  /** `Container(**v)`: a missing name or image is a `TypeError`; limits and
      requests are normalised; `env` is split into pieces, `None` giving `[]`. */
  function NewContainer(spec: ContainerSpec): (r: Result<Container>)
    ensures r.Ok? <==> spec.name.Some? && spec.image.Some? && NormalizeLimits(spec.limits, spec.requests).Ok?
    ensures r.Err? && (spec.name.None? || spec.image.None?) ==> r.error == TypeError
    ensures r.Ok? ==>
      && r.value.name == spec.name.value && r.value.image == spec.image.value
      && (r.value.limits, r.value.requests) == NormalizeLimits(spec.limits, spec.requests).value
      && r.value.env == EnvPieces(spec.env.GetOr([]))
      && r.value.command == spec.command && r.value.identity == spec.identity
      && r.value.ports == spec.ports && r.value.expose == spec.expose
      && r.value.dependsOn == spec.dependsOn && r.value.volumes == spec.volumes
  {
    if spec.name.None? || spec.image.None? then Err(TypeError)
    else
      match NormalizeLimits(spec.limits, spec.requests)
      case Err(e) => Err(e)
      case Ok((limits, requests)) =>
        var env := match spec.env case Some(e) => if e != [] then EnvPieces(e) else [] case None => [];
        Ok(Container(spec.name.value, spec.image.value, spec.command, env, spec.identity,
                     limits, requests, spec.ports, spec.expose, spec.dependsOn, spec.volumes))
  }

  /** The environment of a constructed container rebuilds the entries it was
      given: no entry is lost, reordered or altered. */
  lemma ContainerEnvRoundTrip(spec: ContainerSpec)
    requires NewContainer(spec).Ok?
    ensures var c := NewContainer(spec).value;
      |c.env| == |spec.env.GetOr([])|
      && forall i :: 0 <= i < |c.env| ==>
           c.env[i] == Split(spec.env.GetOr([])[i], '=') && Join(c.env[i], '=') == spec.env.GetOr([])[i]
  {
    var c := NewContainer(spec).value;
    var env := spec.env.GetOr([]);
    forall i | 0 <= i < |c.env|
      ensures c.env[i] == Split(env[i], '=')
    {
      JoinSplit(c.env[i], '=');
    }
  }

  // ---------------------------------------------------------------------------
  // Service
  // ---------------------------------------------------------------------------

  /** The keyword arguments of `Service(**v)`; `clients` defaults to `[]`. */
  datatype ServiceDef = ServiceDef(port: Option<int>, clients: seq<string>)

  /** A constructed `Service`; `name` and `nameNoid` are set by `System`. */
  datatype Service = Service(port: Option<int>, clients: seq<string>, name: Option<string>, nameNoid: Option<string>)

  /** `[str(ipaddress.ip_network(v)) for v in clients]`: the first invalid
      network raises `ValueError`. */
  function CanonicalClients(clients: seq<string>): (r: Result<seq<string>>)
    ensures r.Ok? <==> forall i :: 0 <= i < |clients| ==> Network.Canonicalize(clients[i]).Ok?
    ensures r.Err? ==> r.error == ValueError
    ensures r.Ok? ==> |r.value| == |clients|
    ensures r.Ok? ==> forall i :: 0 <= i < |clients| ==> r.value[i] == Network.Canonicalize(clients[i]).value
  {
    MapResult(Network.Canonicalize, clients)
  }

  /** `[f(x) for x in xs]` for an `f` that may raise: the list of results when
      no element raises, and otherwise the exception of one that does. */
  function MapResult(f: string -> Result<string>, xs: seq<string>): (r: Result<seq<string>>)
    ensures r.Ok? <==> forall i :: 0 <= i < |xs| ==> f(xs[i]).Ok?
    ensures r.Err? ==> exists i :: 0 <= i < |xs| && f(xs[i]) == Err(r.error)
    ensures r.Ok? ==> |r.value| == |xs|
    ensures r.Ok? ==> forall i :: 0 <= i < |xs| ==> r.value[i] == f(xs[i]).value
  {
    if xs == [] then Ok([])
    else
      var head := f(xs[0]);
      var tail := MapResult(f, xs[1..]);
      assert forall i :: 1 <= i < |xs| ==> xs[i] == xs[1..][i - 1];
      if head.Err? then Err(head.error)
      else if tail.Err? then tail
      else Ok([head.value] + tail.value)
  }

  /** `Service(**d)`: the port as given, every client canonicalised, no name yet. */
  function NewService(d: ServiceDef): (r: Result<Service>)
    ensures r.Ok? <==> CanonicalClients(d.clients).Ok?
    ensures r.Err? ==> r.error == ValueError
    ensures r.Ok? ==> r.value.port == d.port && r.value.clients == CanonicalClients(d.clients).value
    ensures r.Ok? ==> r.value.name == None && r.value.nameNoid == None
  {
    match CanonicalClients(d.clients)
    case Err(e) => Err(e)
    case Ok(cs) => Ok(Service(d.port, cs, None, None))
  }

  /** The clients of a service are in canonical form: canonicalising one again
      gives it back. */
  lemma ServiceClientsCanonical(d: ServiceDef)
    requires NewService(d).Ok?
    ensures forall c :: c in NewService(d).value.clients ==> Network.Canonicalize(c) == Ok(c)
  {
    var cs := NewService(d).value.clients;
    forall c | c in cs ensures Network.Canonicalize(c) == Ok(c) {
      var i :| 0 <= i < |cs| && cs[i] == c;
      Network.CanonicalizeIdempotent(d.clients[i]);
    }
  }

  // ---------------------------------------------------------------------------
  // The docker-compose structure `System.parse` reads
  // ---------------------------------------------------------------------------

  /** A compose `entrypoint`: a command line (absent reads as `''`) or a list. */
  datatype Entrypoint = EntrypointText(text: string) | EntrypointList(words: seq<string>)

  /** One entry of the compose `services` mapping. Lists that are absent read as
      `[]`; `ports` stays optional because the client requires it; `limits` and
      `reservations` are `deploy.resources.limits`/`.reservations`, `None`
      when absent. */
  datatype ComposeService = ComposeService(
    image: Option<string>,
    entrypoint: Entrypoint,
    ports: Option<seq<string>>,
    expose: seq<string>,
    env: seq<string>,
    environment: seq<string>,
    limits: Option<RawLimits>,
    reservations: Option<RawLimits>,
    dependsOn: seq<string>,
    volumes: seq<string>)

  /** A `name: service` pair of the compose `services` mapping, in file order. */
  datatype ComposeEntry = ComposeEntry(name: string, service: ComposeService)

  /** A parsed docker-compose document; `services` is `None` when absent. */
  datatype Compose = Compose(services: Option<seq<ComposeEntry>>)
}
