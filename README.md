# Tycho's system model, in Dafny

Tycho turns a docker-compose document into an abstract *system* that is later
rendered into Kubernetes artifacts. This project models the core of that step
and proves properties of it:

- `tycho/model.py`:
  - the `Limits`, `Container` and `Service` records;
  - the `System` constructor, with its assertions, its container and service
    maps and the naming loop over the services;
  - `requires_network_policy`;
  - the context merge of `System.render`;
  - `System.parse`;
  - `Volumes.process_volumes`, which turns every `host:mount` volume of every
    container into a binding record. There are three modes: minikube, another
    `TYCHO_ON_MINIKUBE` value, and a cluster. The cluster mode has the
    `TYCHO_NFS` sentinel and named-NFS rules.
- `tycho/tycho_utils.py`: `apply_environment` (parse a `.env` text, substitute
  it into a template) and `trunc`.
- `tycho/client.py`:
  - `format_name`;
  - `parse_env`;
  - the service-to-port map that `up` and `up0` build from a compose document;
  - the mapping of an API response into `TychoSystem` and `TychoStatus`.
- `tycho/context.py`: `_parse_env`, and `_grok`, which compiles the app
  registry and resolves repository variables in each app's URLs.
- `tycho/util.py`: `Resource.get_resource_path` and
  `Resource.get_resource_obj`.

Python exceptions are modelled as `Result.Err(kind)`, where the kind is the
exception class. A dictionary key that may be absent is an `Option` field.

The modules are:

- `Wrappers`: `Option`, `Result` and the exception kinds.
- `Text`: `str.split`, `'sep'.join`, `str.split()` and `int(text)` over ASCII
  digits.
- `Template`: `string.Template.safe_substitute`.
- `Network`: the IPv4 part of `ipaddress.ip_network` and its `str`.
- `TychoUtils`: `.env` parsing, `apply_environment` and `trunc`.
- `Model`, `Volumes` and `SystemModel`: `tycho/model.py`.
- `Client`, `Context` and `Util`: the other three files.

The loops of the source are methods proved against fold functions. Each fold
is written over list prefixes, so a loop invariant is "the fold of the prefix
done so far".

Only `Volumes` and `TychoContext` are classes, because their objects change
fields in place: `self.volumes` in the one and `self.apps` in the other. Every
other entity is a datatype.

`.env` text is parsed the same way by `TychoUtils.apply_environment`,
`TychoClient.parse_env` and `TychoContext._parse_env`. The three copies share
the one definition `TychoUtils.ParseEnv`.

In a few places the source behaves in ways a reader may not expect; the model
follows the source:

- `requires_nfs` is the string `"yes"` or `"no"`, not a boolean.
- Any exception inside `process_volumes` makes the whole call return `None`.
  This includes a volume without `:`, a container without `volumes`, and a
  cluster volume whose `disk_name` was never bound. No partial list is returned.
- The named-NFS counter counts every `TYCHO_NFS/<sub>` volume of the system,
  whatever its `<sub>`. The second such volume gets claim `NA` even when its
  subpath differs from the first one's.
- `Container` splits an environment entry on every `=`. The `.env` parsers
  split on the first `=` only.
- The `try`/`except` around the NFS host-path rewrite can never catch anything.
- The constructor's null check never fails, so `SystemOf` accepts null
  containers. If the first container is a dictionary, a null one raises
  `TypeError` from `Container(**None)`. Otherwise the list is kept as given,
  and its volumes are `None`. The corrected check is the separate
  `SystemOfIntended`; see "## Findings".

## Model

| member | source | states |
|---|---|---|
| `Model.LimitsOf` | tycho/model.py:15-31 | `Limits(**d)` succeeds exactly when every key of `d` is `cpus`, `gpus` or `memory`; otherwise `TypeError`; each field is the value under its key, or `None` |
| `Model.LimitsIfDict` | tycho/model.py:134-135 | a dictionary becomes `Limits` (or raises as `LimitsOf` does); `None` and a list are kept as they are |
| `Model.NormalizeLimits` | tycho/model.py:134-137 | limits and requests are converted when they are dictionaries; a limits list is replaced by its first element, and an empty one raises `IndexError`; `TypeError` comes from a bad dictionary |
| `Model.EnvPieces` | tycho/model.py:142-144 | one list per environment entry, with the same count; joining an entry's pieces with `=` gives back the entry, and no piece holds `=` |
| `Model.ContainerEnvRoundTrip` | tycho/model.py:142-144 | each environment entry of a built container is the entry split on every `=`, and joining those pieces gives back the entry |
| `Model.NewContainer` | tycho/model.py:101-146 | a container is built exactly when it has a name and an image and its limits convert; every other field is kept as given |
| `Model.CanonicalClients` | tycho/model.py:288 | the clients convert exactly when every one is a valid network; the failure is `ValueError`; the result is, element by element, the canonical form of each client |
| `Model.NewService` | tycho/model.py:285-290 | a service keeps its port, has the canonical clients and no names yet; a bad client is a `ValueError` |
| `Model.ServiceClientsCanonical` | tycho/model.py:288 | every client of a built service is already canonical: canonicalising it again gives it back |
| `Network.ParseNetwork` | tycho/model.py:288 | a parsed network has four octets below 256, a prefix of at most 32 and no host bit set; every failure is `ValueError` |
| `Network.OctetRoundTrip` | tycho/model.py:288 | the decimal text of an octet below 256 parses back to that octet |
| `Network.QuadRoundTrip` | tycho/model.py:288 | the dotted text of an address parses back to that address, and it holds no `/` |
| `Network.NetworkRoundTrip` | tycho/model.py:288 | `ip_network(str(n)) == n` for every valid IPv4 network `n` |
| `Network.CanonicalizeIdempotent` | tycho/model.py:288 | canonicalising a canonical client gives it back unchanged |
| `Volumes.Volumes.constructor` | tycho/model.py:36-41 | the fields are the arguments, and `volumes` is empty |
| `Volumes.Volumes.AddVolume` | tycho/model.py:48-94 | one inner-loop pass appends exactly the bindings of one `VolumeStep` and returns its counter and outcome; with no `keys()` on the first limits, the disk name stays unbound |
| `Volumes.Volumes.AddContainerVolumes` | tycho/model.py:47-94 | the inner loop over one container's volumes takes the outer fold from `containers[..i]` to `containers[..i + 1]` |
| `Volumes.Volumes.ProcessVolumes` | tycho/model.py:43-97 | the bindings appended are those of the fold `Resolve`; the method returns the list when no exception was raised and `None` otherwise |
| `Volumes.VolumesFailureSticks` | tycho/model.py:46-97 | once a volume raises, the rest of a container's volumes change nothing |
| `Volumes.ContainersFailureSticks` | tycho/model.py:46-97 | once a container raises, the remaining containers change nothing |
| `Volumes.VolumesStepSpec` | tycho/model.py:47-94 | the inner loop agrees with the flat list of declarations: it succeeds exactly when they are resolvable and then yields their expected bindings and counter |
| `Volumes.ContainersStepSpec` | tycho/model.py:43-97 | the loops succeed exactly when every container is a dictionary with `volumes` (and a name if it has any) and every declaration is resolvable; they then yield the expected bindings |
| `Volumes.ResolveSucceeds` | tycho/model.py:43-97 | `process_volumes` returns a list exactly when the containers are well formed, every volume has `:`, and a cluster with a volume has first-container limits with `keys()` |
| `Volumes.ClusterBindings` | tycho/model.py:73-94 | in a cluster there is exactly one binding per declaration, in order; binding `k` is the cluster binding of declaration `k` with the named-NFS count of declarations `0..k` |
| `Volumes.NamedCountPositive` | tycho/model.py:78-79 | the named-NFS counter is positive exactly when some declaration is `TYCHO_NFS/<sub>` |
| `Volumes.NamedNfsClaims` | tycho/model.py:75-94 | a `TYCHO_NFS/<sub>` volume needs NFS and is named `<sub>`; its claim is `<sub>` unless an earlier named-NFS volume exists, and then it is `NA` |
| `Volumes.KeptIsSubsequence` | tycho/model.py:63-64 | the declarations minikube keeps are exactly those whose host is not the bare sentinel |
| `Volumes.ExpectedMinikube` | tycho/model.py:61-72 | under minikube the expected bindings are one host-path binding per kept declaration, in order |
| `Volumes.MinikubeBindings` | tycho/model.py:61-72 | on minikube every volume except a bare `TYCHO_NFS` gives a host-path binding with claim `pvc-for-<name>`, in order |
| `Volumes.OtherMinikubeBindsNothing` | tycho/model.py:61-62 | with `TYCHO_ON_MINIKUBE` set to anything but `True`, no binding is produced |
| `SystemModel.NullCheckVacuous` | tycho/model.py:171-172 | the null check as written holds for every container list |
| `SystemModel.NullCheckAdmitsNull` | tycho/model.py:171-172 | the list `[None]` passes the check as written although its element is null |
| `SystemModel.BuildAll` | tycho/model.py:173-175 | the containers convert exactly when each is a dictionary that builds; the result is, element by element, the built container |
| `SystemModel.NameServices` | tycho/model.py:181-183 | after the loop every service is named `key-identifier` and `name_noid` is `key`; nothing else changes |
| `SystemModel.NewSystem` | tycho/model.py:153-185 | the constructor computes `SystemOf` |
| `SystemModel.SystemSucceeds` | tycho/model.py:169-184 | a system is built exactly when there is a container, every container builds when the first is a dictionary, and every client is valid; an empty list fails the assertion, and a null element does not |
| `SystemModel.NullSystemBuilt` | tycho/model.py:169-184 | the list `[None]` passes the constructor: it is kept as given, and its volumes are `None` |
| `SystemModel.IntendedSystemSucceeds` | tycho/model.py:169-184 | with the null check the assertion's message describes, a null element fails the assertion; a system is built exactly when the list is non-empty and null-free and the as-written conditions hold, and it is the system the as-written constructor builds |
| `SystemModel.SystemNaming` | tycho/model.py:165-185 | the system is `name-identifier`; the services have exactly the keys given, with qualified names, their ports and canonical clients; the containers are built or kept; the volumes are those of the containers as given |
| `SystemModel.NetworkPolicyIffClients` | tycho/model.py:197-198 | a network policy is needed exactly when some service definition has a client |
| `SystemModel.MergeContext` | tycho/model.py:205-207 | the merged context has the caller's keys plus `system`; the caller's entries win, and `system` is the system unless the caller overrides it |
| `SystemModel.AppPlaceholder` | tycho/model.py:229-230 | `${app}` in the compose text becomes `name-identifier`, whatever the caller's settings say |
| `SystemModel.PortOfMapping` | tycho/model.py:244-251 | a `host:container` port yields the container port, and a bare port is kept |
| `SystemModel.NormalizePorts` | tycho/model.py:243-251 | one `containerPort` per port, in order, each being the port after the colon if any |
| `SystemModel.NormalizeExpose` | tycho/model.py:252-255 | one `containerPort` per exposed entry, in order |
| `SystemModel.Command` | tycho/model.py:240-242 | a string entrypoint is split into non-blank words that together hold all its non-space text; a list is kept |
| `SystemModel.Parse` | tycho/model.py:214-278 | the loop over the compose services, the constructor and the dump compute `ParseSpec` |
| `SystemModel.ParseFailures` | tycho/model.py:236-276 | a service without `image` is a `KeyError`; a document without services fails the constructor's assertion |
| `SystemModel.ParsedContainers` | tycho/model.py:256-276 | container `k` of a parsed system has service `k`'s name, image, split command, `env`-or-`environment` pieces and normalized ports; absent limits and reservations become empty `Limits` |
| `SystemModel.ComposeContainerBuilt` | tycho/model.py:256-267 | the container built from one compose service carries that service's name, image, command, environment and ports |
| `TychoUtils.EnvEntryShape` | tycho/tycho_utils.py:38 | the key has no `=`, and key, `=` and value make up the line; the key is the first `=`-piece and the value is the rest rejoined |
| `TychoUtils.EnvLinesKeys` | tycho/context.py:35-39 | a name is a key of the parsed `.env` exactly when some line with `=` has that key |
| `TychoUtils.EnvLinesLastWins` | tycho/client.py:75-79 | a key takes the value of its last line |
| `TychoUtils.ParseEnvSpec` | tycho/tycho_utils.py:36-40 | the keys of the parsed `.env` text are exactly the keys of its lines that contain `=` |
| `TychoUtils.ApplyEnvironment` | tycho/tycho_utils.py:32-44 | an absent or empty environment leaves the text unchanged |
| `TychoUtils.ApplyEnvironmentResolves` | tycho/tycho_utils.py:36-41 | `${KEY}` becomes the value of the last `.env` line for `KEY` |
| `TychoUtils.ApplyEnvironmentKeepsUnknown` | tycho/tycho_utils.py:41 | a placeholder that no line defines is left in place |
| `TychoUtils.Trunc` | tycho/tycho_utils.py:46-48 | a string of at most `max_len` characters is kept; a longer one becomes its first `max_len` characters and `..` |
| `TychoUtils.TruncIdempotent` | tycho/tycho_utils.py:47-48 | truncating twice is truncating once |
| `Template.BracedPlaceholder` | tycho/tycho_utils.py:41 | `${k}` is replaced by `m[k]` when `k` is a key and kept otherwise |
| `Template.NamedPlaceholder` | tycho/context.py:70 | `$k` followed by a non-identifier character is replaced by `m[k]` when `k` is a key |
| `Template.NoPlaceholders` | tycho/model.py:230 | a text without `$` is unchanged |
| `Template.SubstituteLiteral` | tycho/tycho_utils.py:41 | a prefix without `$` passes through unchanged, and only the rest is substituted |
| `Text.SplitJoin` | tycho/model.py:143 | joining the pieces of a split gives back the string, and no piece holds the separator |
| `Text.JoinSplit` | tycho/model.py:246 | splitting pieces joined by a separator they do not hold gives back the pieces |
| `Text.SplitHasSecond` | tycho/model.py:58 | `split(sep)[1]` exists exactly when the separator occurs |
| `Text.SplitAtFirst` | tycho/tycho_utils.py:38 | the first piece is the text before the first separator, and the other pieces are the split of the text after it |
| `Text.WordsKeepText` | tycho/model.py:242 | `str.split()` keeps every non-space character, in order |
| `Text.WordsAreWords` | tycho/model.py:242 | every piece of `str.split()` is non-empty and holds no whitespace |
| `Text.ParseIntOfNat` | tycho/client.py:232 | `int(str(n)) == n` |
| `Text.BlanksSkipped` | tycho/client.py:232 | `int` skips tab, space, carriage return and line feed around the digits |
| `Text.WideSpacesSkipped` | tycho/client.py:232 | `int` skips non-ASCII spaces (`\xa0`, `\u3000`) around the digits |
| `Text.SeparatorRejected` | tycho/client.py:232 | `int` rejects a number preceded by the ASCII separator `\x1c`, though `str.isspace` holds of it |
| `Client.PortNumberOfMapping` | tycho/client.py:232 | the port of a `host:container` mapping is `int(container)` |
| `Client.PortNumberSpaces` | tycho/client.py:232 | `host:\t 80\r\n` gives port 80, and `host:\x1c80` is a `ValueError` |
| `Client.FormatName` | tycho/client.py:68-73 | the name keeps its length, every `/` becomes `-`, every other character is kept, and no `/` remains |
| `Client.FormatNameIdempotent` | tycho/client.py:73 | a name without `/` is unchanged, and formatting twice is formatting once |
| `Client.ServicePorts` | tycho/client.py:228-236 | the nested loops compute the port map `PortMap` |
| `Client.PortsFailureSticks` | tycho/client.py:231-232 | once a port fails `int`, the remaining ports change nothing |
| `Client.PortMapFailureSticks` | tycho/client.py:229-232 | once a service fails, the remaining services change nothing |
| `Client.PortsIntoOk` | tycho/client.py:231-232 | one service's ports are recorded exactly when each of them converts to an integer |
| `Client.PortsIntoSpec` | tycho/client.py:231-236 | without ports the map is unchanged; otherwise the service maps to its last port, with no clients |
| `Client.PortsIntoOverwrites` | tycho/client.py:233-236 | recording one service leaves every other entry of the map as it was |
| `Client.PortMapFromOk` | tycho/client.py:229-232 | the port map is built exactly when every service's ports all convert |
| `Client.PortMapFromKeys` | tycho/client.py:228-236 | a service is in the port map exactly when some compose service of that name has a port |
| `Client.PortMapFromLastWins` | tycho/client.py:228-236 | a name maps to the last port of its last compose service with ports |
| `Client.NoClientsInPortMap` | tycho/client.py:233-236 | no service of the port map has clients |
| `Client.PortMapNeedsNoPolicy` | tycho/client.py:233-236 | a system built from the port map needs no network policy |
| `Client.ServicesOfContainers` | tycho/client.py:36-39 | one `TychoService` per container entry, in order, with its name, IP address and port; a missing `ip_address` or `port` is a `KeyError` |
| `Client.TychoSystemOf` | tycho/client.py:32-40 | a start response maps to a `TychoSystem` exactly when it has `name`, `sid` and `containers` and every container has an address and a port; otherwise `KeyError` |
| `Client.ServicesOfRecords` | tycho/client.py:27 | one `TychoService` per status record, in order; a record without `name`, `ip_address` or `port`, or with a key other than those and `sid`, is a `TypeError` |
| `Client.TychoStatusOf` | tycho/client.py:25-28 | a status response keeps its status and message and has one service per record |
| `Context.RepositoryContextOk` | tycho/context.py:55-57 | the repository context is built exactly when every repository has `id` and `url`; otherwise `KeyError` |
| `Context.RepositoryContextKeys` | tycho/context.py:55-57 | its keys are exactly the repository ids |
| `Context.RepositoryContextLastWins` | tycho/context.py:55-57 | an id maps to the url of its last repository |
| `Context.RewriteKeysOk` | tycho/context.py:68-70 | the URL rewrite succeeds exactly when every key listed is in the app; otherwise `KeyError`; the app keeps its keys |
| `Context.RewriteKeysValues` | tycho/context.py:68-70 | a rewritten key holds its substituted text; every other key keeps its value |
| `Context.RewriteAppOk` | tycho/context.py:68-69 | an app's URLs are rewritten exactly when it has `spec`, `icon` and `docs` |
| `Context.RewriteAppSpec` | tycho/context.py:68-70 | `spec`, `icon` and `docs` are substituted with the repository context, and every other entry is kept |
| `Context.SpecResolvesRepository` | tycho/context.py:68-70 | a `spec` of the form `${repo}rest` becomes that repository's url followed by the substituted rest |
| `Context.AppsIntoOk` | tycho/context.py:65-70 | one registry's apps load exactly when every app has `id`, `spec`, `icon` and `docs`; otherwise `KeyError` |
| `Context.AppsIntoAppend` | tycho/context.py:60-70 | loading two lists of apps in turn is loading their concatenation |
| `Context.RegistriesAsApps` | tycho/context.py:58-70 | walking the registries is loading the apps of the selected registries, in order |
| `Context.RegistriesOkNamed` | tycho/context.py:61-64 | a successful walk means every registry had `id`, and every selected one `name` |
| `Context.RegistriesErrIsKeyError` | tycho/context.py:61-69 | every failure of the walk is a `KeyError` |
| `Context.AppsIntoKeys` | tycho/context.py:65-66 | an id is loaded exactly when it was there before or some app has it |
| `Context.AppsIntoLastWins` | tycho/context.py:65-70 | an id maps to the rewritten form of its last app |
| `Context.CompileSucceeds` | tycho/context.py:53-71 | `_grok` succeeds exactly when the repositories are complete, the registries are named, and every selected app is usable; every failure is a `KeyError` |
| `Context.CompileSelected` | tycho/context.py:58-71 | the compiled apps are the selected registries' apps loaded in order |
| `Context.RewriteUrls` | tycho/context.py:68-70 | the loop over `spec`, `icon` and `docs` computes `RewriteApp` |
| `Context.LoadApps` | tycho/context.py:65-70 | the loop over one registry's apps computes `AppsInto` |
| `Context.TychoContext.Init` | tycho/context.py:26-32 | the fields are the registry, product and apps given |
| `Context.TychoContext.Load` | tycho/context.py:26-32 | a context exists exactly when the registry compiles; it is fresh, with the registry, the product and the compiled apps; otherwise the compile error is returned |
| `Context.TychoContext.Grok` | tycho/context.py:53-71 | the loops compute `Compile` |
| `Util.JoinPath` | tycho/util.py:11 | the joined path starts with the directory and ends with the name |
| `Util.GetResourcePath` | tycho/util.py:7-12 | an absolute name is kept; any other name is joined under the package directory |
| `Util.ResolvedPathIsFixed` | tycho/util.py:7-12 | under an absolute package directory every resolved path is absolute, and resolving it again changes nothing |
| `Util.ResourceFormat` | tycho/util.py:30-34 | a given format is kept; otherwise the format is `yaml` for a `.yaml` name and `json` for any other |
| `Util.GetResourceObjSpec` | tycho/util.py:28-43 | a resource is read exactly when its resolved path exists and its format is `json` or `yaml`; it is read from that path with that format's loader |

## Left out

- The `yaml.dump`/`yaml.load` round trip of `System.parse` is left out. `Parse` takes the compose document after substitution, and `source_text` comes from a `dump` parameter.
- The `uuid4` identifier is a parameter.
- `TYCHO_ON_MINIKUBE` is a parameter: `None` when it is unset.
- Jinja rendering of `TemplateUtils.render`/`render_text` and `System.render` is left out. Only the context merge of `render` is modelled.
- File and network I/O are left out:
  - `_get_registry` and `get_namespace`;
  - the HTTP calls of `TychoClient`, its `start`/`up`/`up0` printing, and `get_spec`/`get_settings`;
  - the loaders `load_json`/`load_yaml`.
  `GetResourceObj` returns which loader would read which path, and `os.path.exists` is a parameter.
- `os.sep` and `os.path.join` are those of a POSIX system.
- Dictionaries from YAML or JSON hold strings where the source's tests use strings. A port given as an integer in the compose document is not modelled. In `ServiceRecord` and `ContainerStatus` the port is an `int`.
- A key present with the value `None` is modelled like an absent key only where the source treats both alike.
- Extra keyword arguments to `Container(**v)` and `Service(**d)` are not modelled.
- The compose `environment` given as a dictionary rather than a list is not modelled.
- `System.parse` adds `app` to the caller's `env` dictionary, which the caller can see afterwards. That mutation is not modelled.
- The compose `services` mapping is a list of `(name, service)` entries, in the mapping's order.
- `_grok` rewrites each app dictionary in place, so the rewrite also shows inside `self.registry`. The model keeps the registry as given and returns the rewritten apps; that aliasing is not captured.
- `TychoContext.__init__` is split into `Load`, which returns an error instead of raising, and the constructor `Init`. The `CachedSession` is left out.
- `Model.LimitsOf`: the limit values are strings; numeric YAML values are not modelled.
- `Network.ParseNetwork`: IPv4 only. IPv6 networks and integer or tuple arguments to `ip_network` are not modelled. Octets with a leading zero are rejected, as recent Python versions do.
- `Text.ParseInt`: accepts an optional sign and ASCII digits possibly grouped by single underscores, surrounded by the whitespace `int` skips: space, tab, line feed, vertical tab, form feed, carriage return and the non-ASCII characters `str.isspace` accepts (`\x85`, `\xa0`, `\u1680`, `\u2000`-`\u200a`, `\u2028`, `\u2029`, `\u202f`, `\u205f`, `\u3000`). Only the non-ASCII decimal digits that `int` also accepts are not modelled.
- `Client.ServicePorts`: the folds `PortsInto` and `PortMapFrom` take the port reader as a parameter, which `PortMap` instantiates with `int` of the container port. Their lemmas therefore hold for any reader.
- `Client.TychoSystemOf` and `Client.TychoStatusOf`: the `up0` loop that prints the last container's address is output only and is not modelled.
- `TychoClient.list`, `delete`, `status0`, `start0` and the command-line front end are not modelled. They are HTTP calls and printing.

## Findings

| source | as written | input that shows it | evidently intended | confidence | as-written member | corrected member |
|---|---|---|---|---|---|---|
| tycho/model.py:171-172 | `not any([c for c in containers if c == None])` is true for every list, since the list it tests holds only `None`s and `any` of those is false | `containers = [None]` passes the assertion, and a system with a null container is built (`SystemModel.NullSystemBuilt`) | the assertion fails when some container is `None`, as its message says | high; not executed | `SystemModel.NullCheckVacuous`, `SystemModel.NullCheckAdmitsNull` | `SystemModel.SystemOfIntended`, proved in `SystemModel.IntendedSystemSucceeds` |
