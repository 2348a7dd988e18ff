/** The pure parts of `tycho/client.py`: the DNS-label form of a name, the
    `services` argument that `up` and `up0` derive from a compose document, and
    the mapping of the API's answers to `TychoSystem` and `TychoStatus`.

    `TychoClient.parse_env` is the `.env` parsing of `TychoUtils.ParseEnv`. */
module Client {
  import opened Wrappers
  import opened Text
  import opened Model
  import opened SystemModel

  // ---------------------------------------------------------------------------
  // format_name
  // ---------------------------------------------------------------------------

  /** `os.sep` on a POSIX system. */
  const Sep: char := '/'

  /** `name.replace(os.sep, '-')`. */
  function FormatName(name: string): (r: string)
    ensures |r| == |name| && Sep !in r
    ensures forall i :: 0 <= i < |name| && name[i] != Sep ==> r[i] == name[i]
    ensures forall i :: 0 <= i < |name| && name[i] == Sep ==> r[i] == '-'
  {
    if name == [] then []
    else [if name[0] == Sep then '-' else name[0]] + FormatName(name[1..])
  }

  /** A name without separators is already formatted, so formatting twice is
      formatting once. */
  lemma FormatNameIdempotent(name: string)
    ensures Sep !in name ==> FormatName(name) == name
    ensures FormatName(FormatName(name)) == FormatName(name)
  {
  }

  // ---------------------------------------------------------------------------
  // The service -> port map of up / up0
  // ---------------------------------------------------------------------------

  /** `int(port.split(':')[1] if ':' in port else port)`; `None` for the
      `ValueError`. */
  function PortNumber(port: string): Option<int>
  {
    ParseInt(PortOf(port))
  }

  /** A `host:container` port is read as `int(container)`. */
  lemma PortNumberOfMapping(host: string, container: string)
    requires ':' !in host && ':' !in container
    ensures PortNumber(host + ":" + container) == ParseInt(container)
  {
    PortOfMapping(host, container);
  }

  /** A container port padded with blanks is read; one preceded by an ASCII
      separator such as `\x1c` makes `int` raise. */
  lemma PortNumberSpaces(host: string)
    requires ':' !in host
    ensures PortNumber(host + ":" + "\t 80\r\n") == Some(80)
    ensures PortNumber(host + ":" + "\U{1C}80") == None
  {
    BlanksSkipped();
    SeparatorRejected();
    PortNumberOfMapping(host, "\t 80\r\n");
    PortNumberOfMapping(host, "\U{1C}80");
  }

  /** The inner loop: every port of `ports` in turn sets `services[name]`.
      How a port is read is the parameter `number` (`PortNumber` in `up` and
      `up0`), so that what is proved about the loops holds for any reading. */
  function PortsInto(number: string -> Option<int>, m: map<string, ServiceDef>, name: string,
                 ports: seq<string>): Result<map<string, ServiceDef>>
    decreases |ports|
  {
    if ports == [] then Ok(m)
    else
      match PortsInto(number, m, name, ports[..|ports| - 1])
      case Err(e) => Err(e)
      case Ok(m') =>
        match number(ports[|ports| - 1])
        case None => Err(ValueError)
        case Some(n) => Ok(m'[name := ServiceDef(Some(n), [])])
  }

  /** The outer loop over the compose services; a service without `ports`
      raises `KeyError`. */
  function PortMapFrom(number: string -> Option<int>, entries: seq<ComposeEntry>): Result<map<string, ServiceDef>>
    decreases |entries|
  {
    if entries == [] then Ok(map[])
    else
      match PortMapFrom(number, entries[..|entries| - 1])
      case Err(e) => Err(e)
      case Ok(m) =>
        var e := entries[|entries| - 1];
        match e.service.ports
        case None => Err(KeyError)
        case Some(ports) => PortsInto(number, m, e.name, ports)
  }

  /** The `services` dictionary of the request; a document without `services`
      raises `KeyError`. */
  function PortMap(compose: Compose): Result<map<string, ServiceDef>>
  {
    match compose.services
    case None => Err(KeyError)
    case Some(entries) => PortMapFrom(PortNumber, entries)
  }

  /** The loops of `up`/`up0` that build the `services` dictionary. */
  method ServicePorts(compose: Compose) returns (r: Result<map<string, ServiceDef>>)
    ensures r == PortMap(compose)
  {
    if compose.services.None? {
      return Err(KeyError);
    }
    var entries := compose.services.value;
    var services: map<string, ServiceDef> := map[];
    for i := 0 to |entries|
      invariant PortMapFrom(PortNumber, entries[..i]) == Ok(services)
    {
      assert entries[..i + 1][..i] == entries[..i];
      var e := entries[i];
      if e.service.ports.None? {
        PortMapFailureSticks(PortNumber, entries, i + 1);
        return Err(KeyError);
      }
      var ports := e.service.ports.value;
      ghost var start := services;
      for j := 0 to |ports|
        invariant PortsInto(PortNumber, start, e.name, ports[..j]) == Ok(services)
      {
        assert ports[..j + 1][..j] == ports[..j];
        var n := PortNumber(ports[j]);
        if n.None? {
          PortsFailureSticks(PortNumber, start, e.name, ports, j + 1);
          PortMapFailureSticks(PortNumber, entries, i + 1);
          return Err(ValueError);
        }
        services := services[e.name := ServiceDef(Some(n.value), [])];
      }
      assert ports[..|ports|] == ports;
    }
    assert entries[..|entries|] == entries;
    r := Ok(services);
  }

  lemma {:induction false} PortsFailureSticks(number: string -> Option<int>, m: map<string, ServiceDef>, name: string,
      ports: seq<string>, k: nat)
    requires k <= |ports| && PortsInto(number, m, name, ports[..k]).Err?
    ensures PortsInto(number, m, name, ports) == PortsInto(number, m, name, ports[..k])
    decreases |ports|
  {
    if k < |ports| {
      assert ports[..|ports| - 1][..k] == ports[..k];
      PortsFailureSticks(number, m, name, ports[..|ports| - 1], k);
    } else {
      assert ports[..k] == ports;
    }
  }

  lemma {:induction false} PortMapFailureSticks(number: string -> Option<int>, entries: seq<ComposeEntry>, k: nat)
    requires k <= |entries| && PortMapFrom(number, entries[..k]).Err?
    ensures PortMapFrom(number, entries) == PortMapFrom(number, entries[..k])
    decreases |entries|
  {
    if k < |entries| {
      assert entries[..|entries| - 1][..k] == entries[..k];
      PortMapFailureSticks(number, entries[..|entries| - 1], k);
    } else {
      assert entries[..k] == entries;
    }
  }

  /** The ports of one service succeed exactly when every port is numeric. */
  lemma {:induction false} PortsIntoOk(number: string -> Option<int>, m: map<string, ServiceDef>, name: string,
      ports: seq<string>)
    ensures PortsInto(number, m, name, ports).Ok? <==> forall i :: 0 <= i < |ports| ==> number(ports[i]).Some?
    decreases |ports|
  {
    if ports != [] {
      var init := ports[..|ports| - 1];
      PortsIntoOk(number, m, name, init);
      if PortsInto(number, m, name, init).Ok? {
        assert forall i :: 0 <= i < |init| ==> init[i] == ports[i];
      } else {
        var i :| 0 <= i < |init| && number(init[i]).None?;
        assert ports[i] == init[i];
      }
    }
  }

  /** Then the service is present iff it had a port, its value is the last
      port, and no other entry changes. */
  lemma PortsIntoSpec(number: string -> Option<int>, m: map<string, ServiceDef>, name: string,
      ports: seq<string>)
    ensures PortsInto(number, m, name, ports).Ok? <==> forall i :: 0 <= i < |ports| ==> number(ports[i]).Some?
    ensures PortsInto(number, m, name, ports).Ok? && ports == [] ==> PortsInto(number, m, name, ports).value == m
    ensures PortsInto(number, m, name, ports).Ok? && ports != [] ==>
      PortsInto(number, m, name, ports).value == m[name := ServiceDef(Some(number(ports[|ports| - 1]).value), [])]
  {
    PortsIntoOk(number, m, name, ports);
    if ports != [] && PortsInto(number, m, name, ports).Ok? {
      var init := ports[..|ports| - 1];
      PortsIntoOk(number, m, name, init);
      PortsIntoOverwrites(number, m, name, init);
    }
  }

  /** Every port of a service writes the same key, so whatever the earlier
      ports wrote, only the last port's entry survives. */
  lemma {:induction false} PortsIntoOverwrites(number: string -> Option<int>, m: map<string, ServiceDef>, name: string,
      ports: seq<string>)
    requires PortsInto(number, m, name, ports).Ok?
    ensures PortsInto(number, m, name, ports).value.Keys - {name} == m.Keys - {name}
    ensures forall k :: k in m && k != name ==>
      k in PortsInto(number, m, name, ports).value && PortsInto(number, m, name, ports).value[k] == m[k]
    decreases |ports|
  {
    if ports != [] {
      PortsIntoOverwrites(number, m, name, ports[..|ports| - 1]);
    }
  }

  /** The outer loop succeeds exactly when every service has a `ports` list
      of numeric ports. */
  lemma {:induction false} PortMapFromOk(number: string -> Option<int>, entries: seq<ComposeEntry>)
    ensures PortMapFrom(number, entries).Ok?
      <==> forall k :: 0 <= k < |entries| ==> PortsUsable(number, entries[k])
    decreases |entries|
  {
    if entries != [] {
      var init := entries[..|entries| - 1];
      var e := entries[|entries| - 1];
      PortMapFromOk(number, init);
      assert forall k :: 0 <= k < |init| ==> init[k] == entries[k];
      if PortMapFrom(number, init).Ok? && e.service.ports.Some? {
        PortsIntoSpec(number, PortMapFrom(number, init).value, e.name, e.service.ports.value);
      }
    }
  }

  /** A compose service whose `ports` are present and all numeric. */
  predicate PortsUsable(number: string -> Option<int>, e: ComposeEntry)
  {
    e.service.ports.Some?
    && forall i :: 0 <= i < |e.service.ports.value| ==> number(e.service.ports.value[i]).Some?
  }

  /** The service has at least one port. */
  predicate HasPort(e: ComposeEntry)
  {
    e.service.ports.Some? && e.service.ports.value != []
  }

  /** The entry of the service's last port, with no clients. */
  function LastPortDef(number: string -> Option<int>, e: ComposeEntry): ServiceDef
    requires HasPort(e) && PortsUsable(number, e)
  {
    var ports := e.service.ports.value;
    ServiceDef(Some(number(ports[|ports| - 1]).value), [])
  }

  /** A name is in the map exactly when some service of that name has a port. */
  lemma {:induction false} PortMapFromKeys(number: string -> Option<int>, entries: seq<ComposeEntry>)
    requires PortMapFrom(number, entries).Ok?
    ensures forall name ::
      (name in PortMapFrom(number, entries).value
       <==> exists k :: 0 <= k < |entries| && entries[k].name == name && HasPort(entries[k]))
    decreases |entries|
  {
    if entries != [] {
      var init := entries[..|entries| - 1];
      var e := entries[|entries| - 1];
      PortMapFromKeys(number, init);
      assert forall k :: 0 <= k < |init| ==> init[k] == entries[k];
      PortsIntoSpec(number, PortMapFrom(number, init).value, e.name, e.service.ports.value);
    }
  }

  /** The value of a name is that of the last service of that name with a
      port: later services override earlier ones, a service without ports
      overrides nothing. */
  lemma {:induction false} PortMapFromLastWins(number: string -> Option<int>, entries: seq<ComposeEntry>, k: nat)
    requires PortMapFrom(number, entries).Ok?
    requires k < |entries| && HasPort(entries[k])
    requires forall j :: k < j < |entries| && entries[j].name == entries[k].name ==> !HasPort(entries[j])
    ensures PortsUsable(number, entries[k]) && entries[k].name in PortMapFrom(number, entries).value
    ensures PortMapFrom(number, entries).value[entries[k].name] == LastPortDef(number, entries[k])
    decreases |entries|
  {
    var init := entries[..|entries| - 1];
    var e := entries[|entries| - 1];
    assert PortMapFrom(number, init).Ok? && e.service.ports.Some?;
    var m := PortMapFrom(number, init).value;
    var ports := e.service.ports.value;
    assert PortMapFrom(number, entries) == PortsInto(number, m, e.name, ports);
    PortsIntoSpec(number, m, e.name, ports);
    if k == |entries| - 1 {
      assert PortsUsable(number, e);
    } else {
      assert init[k] == entries[k];
      assert forall j :: k < j < |init| ==> init[j] == entries[j];
      PortMapFromLastWins(number, init, k);
      if ports != [] {
        assert e.name != entries[k].name;
      }
    }
  }

  /** The map the client sends lists no client networks, so the system built
      from it needs no network policy. */
  lemma PortMapNeedsNoPolicy(identifier: string, name: string, cs: seq<ContainerArg>, compose: Compose,
                             minikube: Option<string>)
    requires PortMap(compose).Ok? && SystemOf(identifier, name, cs, PortMap(compose).value, minikube).Ok?
    ensures !RequiresNetworkPolicy(SystemOf(identifier, name, cs, PortMap(compose).value, minikube).value)
  {
    NoClientsInPortMap(PortNumber, compose.services.value);
    NetworkPolicyIffClients(identifier, name, cs, PortMap(compose).value, minikube);
  }

  lemma {:induction false} NoClientsInPortMap(number: string -> Option<int>, entries: seq<ComposeEntry>)
    requires PortMapFrom(number, entries).Ok?
    ensures forall k :: k in PortMapFrom(number, entries).value ==>
      PortMapFrom(number, entries).value[k].clients == []
    decreases |entries|
  {
    if entries != [] {
      var init := entries[..|entries| - 1];
      var e := entries[|entries| - 1];
      NoClientsInPortMap(number, init);
      NoClientsInPorts(number, PortMapFrom(number, init).value, e.name, e.service.ports.value);
    }
  }

  lemma {:induction false} NoClientsInPorts(number: string -> Option<int>, m: map<string, ServiceDef>, name: string,
      ports: seq<string>)
    requires forall k :: k in m ==> m[k].clients == []
    requires PortsInto(number, m, name, ports).Ok?
    ensures forall k :: k in PortsInto(number, m, name, ports).value ==>
      PortsInto(number, m, name, ports).value[k].clients == []
    decreases |ports|
  {
    if ports != [] {
      NoClientsInPorts(number, m, name, ports[..|ports| - 1]);
    }
  }

  // ---------------------------------------------------------------------------
  // TychoSystem and TychoStatus
  // ---------------------------------------------------------------------------

  /** `TychoService`. */
  datatype TychoService = TychoService(name: string, ipAddress: string, port: int, identifier: Option<string>)

  /** A value of `result['containers']`: `ip_address` and `port`, if present. */
  datatype ContainerStatus = ContainerStatus(ipAddress: Option<string>, port: Option<int>)

  /** A `name: status` pair of `result['containers']`, in order. */
  datatype ContainerEntry = ContainerEntry(name: string, status: ContainerStatus)

  /** The `result` of a start request; `None` for an absent key. */
  datatype StartResult = StartResult(name: Option<string>, sid: Option<string>, containers: Option<seq<ContainerEntry>>)

  /** An element of a status result: the keyword arguments of `TychoService(**v)`.
      `unexpected` holds its keys other than `name`, `ip_address`, `port` and `sid`. */
  datatype ServiceRecord = ServiceRecord(name: Option<string>, ipAddress: Option<string>, port: Option<int>,
                                         sid: Option<string>, unexpected: set<string>)

  datatype TychoSystem = TychoSystem(status: string, name: string, identifier: string, services: seq<TychoService>,
                                     message: string)

  datatype TychoStatus = TychoStatus(status: string, services: seq<TychoService>, message: string)

  /** One `TychoService` per container entry, carrying its address and port;
      a missing key raises `KeyError`. */
  function ServicesOfContainers(entries: seq<ContainerEntry>): (r: Result<seq<TychoService>>)
    ensures r.Ok? <==> forall i :: 0 <= i < |entries| ==> entries[i].status.ipAddress.Some? && entries[i].status.port.Some?
    ensures r.Err? ==> r.error == KeyError
    ensures r.Ok? ==> |r.value| == |entries|
    ensures r.Ok? ==> forall i :: 0 <= i < |entries| ==>
      r.value[i] == TychoService(entries[i].name, entries[i].status.ipAddress.value, entries[i].status.port.value, None)
  {
    if entries == [] then Ok([])
    else
      var e := entries[0];
      var rest := ServicesOfContainers(entries[1..]);
      assert forall i :: 1 <= i < |entries| ==> entries[i] == entries[1..][i - 1];
      if e.status.ipAddress.None? || e.status.port.None? then Err(KeyError)
      else if rest.Err? then rest
      else Ok([TychoService(e.name, e.status.ipAddress.value, e.status.port.value, None)] + rest.value)
  }

  /** `TychoSystem(status, result, message)`: the name from `result['name']`,
      the identifier from `result['sid']`, and one service per container. */
  function TychoSystemOf(status: string, result: StartResult, message: string): (r: Result<TychoSystem>)
    ensures r.Ok? <==> result.name.Some? && result.sid.Some? && result.containers.Some?
                       && ServicesOfContainers(result.containers.value).Ok?
    ensures r.Err? ==> r.error == KeyError
    ensures r.Ok? ==> r.value.name == result.name.value && r.value.identifier == result.sid.value
    ensures r.Ok? ==> r.value.services == ServicesOfContainers(result.containers.value).value
    ensures r.Ok? ==> r.value.status == status && r.value.message == message
  {
    if result.name.None? || result.sid.None? || result.containers.None? then Err(KeyError)
    else
      match ServicesOfContainers(result.containers.value)
      case Err(e) => Err(e)
      case Ok(services) => Ok(TychoSystem(status, result.name.value, result.sid.value, services, message))
  }

  /** One `TychoService(**v)` per record; a record lacking a name, an address
      or a port, or holding a key that is not a parameter, raises `TypeError`. */
  function ServicesOfRecords(records: seq<ServiceRecord>): (r: Result<seq<TychoService>>)
    ensures r.Ok? <==> forall i :: 0 <= i < |records| ==>
      records[i].name.Some? && records[i].ipAddress.Some? && records[i].port.Some? && records[i].unexpected == {}
    ensures r.Err? ==> r.error == TypeError
    ensures r.Ok? ==> |r.value| == |records|
    ensures r.Ok? ==> forall i :: 0 <= i < |records| ==>
      r.value[i] == TychoService(records[i].name.value, records[i].ipAddress.value, records[i].port.value, records[i].sid)
  {
    if records == [] then Ok([])
    else
      var v := records[0];
      var rest := ServicesOfRecords(records[1..]);
      assert forall i :: 1 <= i < |records| ==> records[i] == records[1..][i - 1];
      if v.name.None? || v.ipAddress.None? || v.port.None? || v.unexpected != {} then Err(TypeError)
      else if rest.Err? then rest
      else Ok([TychoService(v.name.value, v.ipAddress.value, v.port.value, v.sid)] + rest.value)
  }

  /** `TychoStatus(status, result, message)`: one service per result element. */
  function TychoStatusOf(status: string, result: seq<ServiceRecord>, message: string): (r: Result<TychoStatus>)
    ensures r.Ok? <==> ServicesOfRecords(result).Ok?
    ensures r.Ok? ==> |r.value.services| == |result|
    ensures r.Ok? ==> r.value.services == ServicesOfRecords(result).value
    ensures r.Ok? ==> r.value.status == status && r.value.message == message
  {
    match ServicesOfRecords(result)
    case Err(e) => Err(e)
    case Ok(services) => Ok(TychoStatus(status, services, message))
  }
}
