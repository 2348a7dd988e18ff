/** `Volumes.process_volumes` of `tycho/model.py`: every `"<host>:<mount>"`
    volume of every container becomes a binding record, in one of three ways.

    - With `TYCHO_ON_MINIKUBE == "True"` every volume but a bare `TYCHO_NFS`
      becomes a host-path binding with claim `pvc-for-<volume name>`; with the
      variable set to anything else nothing is produced.
    - Without the variable (a cluster) a bare `TYCHO_NFS` is claim `nfs`, a
      `TYCHO_NFS/<sub>[/...]` is the shared claim `<sub>` the first time any
      such volume occurs in the system and `NA` after that, and any other host
      path is its own claim.
    - Any exception — a container that is not a dictionary or has no `volumes`,
      a nameless container with volumes, a volume without `:`, or a cluster
      binding whose `disk_name` was never bound because the first container's
      `limits` has no `keys()` — ends the whole call with `None`.

    `VolumeStep` … `Resolve` are the loops written as left folds over prefixes,
    which the method `Volumes.ProcessVolumes` is proved to compute; `Decls` and
    `Expected` restate the result over the flat list of volume declarations. */
module Volumes {
  import opened Wrappers
  import opened Text
  import opened Model

  /** The host path that stands for the shared NFS volume. */
  const NfsSentinel: string := "TYCHO_NFS"

  /** A dictionary appended to `self.volumes`. */
  datatype VolumeBinding =
    | MinikubeBinding(containerName: string, volumeName: string, claimName: string, mountPath: string, hostPath: string)
    | ClusterBinding(requiresNfs: string, containerName: string, volumeName: string, claimName: string,
                     diskName: string, mountPath: string)

  // ---------------------------------------------------------------------------
  // One volume declaration
  // ---------------------------------------------------------------------------

  /** `volume.split(":")[0]`. */
  function HostOf(volume: string): string
  {
    Split(volume, ':')[0]
  }

  /** `volume.split(":")[1]`, which exists exactly when the volume has a `:`. */
  function MountOf(volume: string): string
    requires ':' in volume
  {
    SplitHasSecond(volume, ':');
    Split(volume, ':')[1]
  }

  /** A host path `TYCHO_NFS/<sub>[/...]`: its first `/`-segment is the sentinel
      while the path itself is not. */
  predicate IsNamedNfs(host: string)
  {
    host != NfsSentinel && Split(host, '/')[0] == NfsSentinel
  }

  lemma NamedNfsHasSubpath(host: string)
    requires IsNamedNfs(host)
    ensures |Split(host, '/')| >= 2
  {
    SplitHasSecond(host, '/');
    if '/' !in host {
      SplitWithoutSep(host, '/');
    }
  }

  /** `<sub>` of `TYCHO_NFS/<sub>[/...]`. */
  function NfsSubpath(host: string): string
    requires IsNamedNfs(host)
  {
    NamedNfsHasSubpath(host);
    Split(host, '/')[1]
  }

  /** `f"{container_name}-{self.identifier}-{index}"`. */
  function DefaultVolumeName(container: string, identifier: string, index: nat): string
  {
    container + "-" + identifier + "-" + NatToString(index)
  }

  /** `f"{container_name}-{index}-gpu-disk"` or `...-default-disk`. */
  function DiskName(container: string, index: nat, gpu: bool): string
  {
    container + "-" + NatToString(index) + (if gpu then "-gpu-disk" else "-default-disk")
  }

  /** The minikube binding of volume number `index` of a container. */
  function MinikubeBind(container: string, identifier: string, index: nat, volume: string): VolumeBinding
    requires ':' in volume
  {
    var volumeName := DefaultVolumeName(container, identifier, index);
    MinikubeBinding(container, volumeName, "pvc-for-" + volumeName, MountOf(volume), HostOf(volume))
  }

  /** The cluster binding of volume number `index` of a container, `count`
      being the number of named NFS volumes met so far, this one included. */
  function ClusterBind(container: string, identifier: string, index: nat, volume: string, count: nat, gpu: bool)
    : VolumeBinding
    requires ':' in volume
  {
    var host := HostOf(volume);
    var disk := DiskName(container, index, gpu);
    var volumeName := DefaultVolumeName(container, identifier, index);
    if host == NfsSentinel then
      ClusterBinding("yes", container, volumeName, "nfs", disk, MountOf(volume))
    else if IsNamedNfs(host) then
      var sub := NfsSubpath(host);
      ClusterBinding("yes", container, sub, if count > 1 then "NA" else sub, disk, MountOf(volume))
    else
      ClusterBinding("no", container, volumeName, host, disk, MountOf(volume))
  }

  // ---------------------------------------------------------------------------
  // The loops as folds
  // ---------------------------------------------------------------------------

  /** What a call depends on besides the containers: the identifier, the value
      of `TYCHO_ON_MINIKUBE` if set, and whether the first container's limits
      name `gpus` (`None` when they have no `keys()`). */
  datatype Setting = Setting(identifier: string, minikube: Option<string>, gpu: Option<bool>)

  /** The state of the loops: the bindings appended, the named-NFS counter, and
      whether no exception has been raised. */
  datatype Progress = Progress(out: seq<VolumeBinding>, count: nat, ok: bool)

  /** `containers[0]['limits'].keys()`, `None` when the lookup raises. */
  function LimitKeysOf(c: ContainerArg): Option<set<string>>
  {
    if c.SpecArg? && c.spec.limits.LimitsDict? then Some(c.spec.limits.fields.Keys) else None
  }

  function GpuLimits(cs: seq<ContainerArg>): Option<bool>
  {
    if cs == [] then None
    else match LimitKeysOf(cs[0]) case Some(keys) => Some("gpus" in keys) case None => None
  }

  /** The bindings one declaration contributes, `count` being the named NFS
      volumes so far, this one included. */
  function BindingsFor(s: Setting, container: string, index: nat, volume: string, count: nat): seq<VolumeBinding>
    requires ':' in volume
  {
    match s.minikube
    case Some(flag) =>
      if flag == "True" && HostOf(volume) != NfsSentinel then [MinikubeBind(container, s.identifier, index, volume)]
      else []
    case None => [ClusterBind(container, s.identifier, index, volume, count, s.gpu.GetOr(false))]
  }

  /** One pass of the inner loop body. */
  function VolumeStep(s: Setting, p: Progress, container: string, index: nat, volume: string): Progress
  {
    if !p.ok then p
    else if ':' !in volume then p.(ok := false)  // IndexError
    else if s.minikube.Some? then Progress(p.out + BindingsFor(s, container, index, volume, p.count), p.count, true)
    else
      var count := if IsNamedNfs(HostOf(volume)) then p.count + 1 else p.count;
      if s.gpu.None? then Progress(p.out, count, false)  // disk_name unbound
      else Progress(p.out + BindingsFor(s, container, index, volume, count), count, true)
  }

  /** The inner loop over the volumes of one container. */
  function VolumesStep(s: Setting, p: Progress, container: string, vols: seq<string>): Progress
    decreases |vols|
  {
    if vols == [] then p
    else VolumeStep(s, VolumesStep(s, p, container, vols[..|vols| - 1]), container, |vols| - 1, vols[|vols| - 1])
  }

  /** One pass of the outer loop body. */
  function ContainerStep(s: Setting, p: Progress, c: ContainerArg): Progress
  {
    if !p.ok then p
    else if !c.SpecArg? || c.spec.volumes.None? then p.(ok := false)  // TypeError or KeyError
    else if c.spec.volumes.value == [] then p
    else if c.spec.name.None? then p.(ok := false)  // KeyError
    else VolumesStep(s, p, c.spec.name.value, c.spec.volumes.value)
  }

  /** The outer loop over the containers. */
  function ContainersStep(s: Setting, cs: seq<ContainerArg>): Progress
    decreases |cs|
  {
    if cs == [] then Progress([], 0, true)
    else ContainerStep(s, ContainersStep(s, cs[..|cs| - 1]), cs[|cs| - 1])
  }

  /** A whole call on `containers` from an empty list of bindings. */
  function Resolve(identifier: string, minikube: Option<string>, cs: seq<ContainerArg>): Progress
  {
    ContainersStep(Setting(identifier, minikube, GpuLimits(cs)), cs)
  }

  /** What `Volumes(...).process_volumes()` returns on fresh `Volumes`. */
  function ProcessedVolumes(identifier: string, minikube: Option<string>, cs: seq<ContainerArg>)
    : Option<seq<VolumeBinding>>
  {
    var p := Resolve(identifier, minikube, cs);
    if p.ok then Some(p.out) else None
  }

  /** A step appends to whatever was appended before. */
  lemma VolumeStepShift(s: Setting, q: Progress, container: string, index: nat, volume: string)
    requires q.ok
    ensures var p := VolumeStep(s, Progress([], q.count, true), container, index, volume);
      VolumeStep(s, q, container, index, volume) == Progress(q.out + p.out, p.count, p.ok)
  {
  }

  /** One more volume of the inner loop, from the bindings of that volume alone. */
  lemma VolumesStepNext(s: Setting, p0: Progress, container: string, vols: seq<string>, index: nat,
                        base: seq<VolumeBinding>, before: seq<VolumeBinding>, after: seq<VolumeBinding>,
                        countBefore: nat, countAfter: nat, stepOk: bool)
    requires index < |vols|
    requires var q := VolumesStep(s, p0, container, vols[..index]);
      q.ok && before == base + q.out && countBefore == q.count
    requires var p := VolumeStep(s, Progress([], countBefore, true), container, index, vols[index]);
      after == before + p.out && stepOk == p.ok && countAfter == p.count
    ensures var q := VolumesStep(s, p0, container, vols[..index + 1]);
      after == base + q.out && countAfter == q.count && stepOk == q.ok
  {
    var q := VolumesStep(s, p0, container, vols[..index]);
    assert vols[..index + 1][..index] == vols[..index];
    VolumeStepShift(s, q, container, index, vols[index]);
    assert VolumesStep(s, p0, container, vols[..index + 1]) == VolumeStep(s, q, container, index, vols[index]);
  }

  lemma {:induction false} VolumesFailureSticks(s: Setting, p: Progress, container: string, vols: seq<string>, k: nat)
    requires k <= |vols| && !VolumesStep(s, p, container, vols[..k]).ok
    ensures VolumesStep(s, p, container, vols) == VolumesStep(s, p, container, vols[..k])
    decreases |vols|
  {
    if k < |vols| {
      assert vols[..|vols| - 1][..k] == vols[..k];
      VolumesFailureSticks(s, p, container, vols[..|vols| - 1], k);
    } else {
      assert vols[..k] == vols;
    }
  }

  lemma ContainersStepLast(s: Setting, cs: seq<ContainerArg>, i: nat)
    requires i < |cs|
    ensures ContainersStep(s, cs[..i + 1]) == ContainerStep(s, ContainersStep(s, cs[..i]), cs[i])
  {
    assert cs[..i + 1][..i] == cs[..i];
  }

  lemma {:induction false} ContainersFailureSticks(s: Setting, cs: seq<ContainerArg>, k: nat)
    requires k <= |cs| && !ContainersStep(s, cs[..k]).ok
    ensures ContainersStep(s, cs) == ContainersStep(s, cs[..k])
    decreases |cs|
  {
    if k < |cs| {
      assert cs[..|cs| - 1][..k] == cs[..k];
      ContainersFailureSticks(s, cs[..|cs| - 1], k);
    } else {
      assert cs[..k] == cs;
    }
  }

  // ---------------------------------------------------------------------------
  // The result over the flat list of volume declarations
  // ---------------------------------------------------------------------------

  /** Volume number `index` of the container named `container`. */
  datatype Decl = Decl(container: string, index: nat, volume: string)

  /** Every container is a dictionary with a `volumes` entry, and one with
      volumes has a name. */
  predicate WellFormed(cs: seq<ContainerArg>)
  {
    forall i :: 0 <= i < |cs| ==>
      cs[i].SpecArg? && cs[i].spec.volumes.Some? && (cs[i].spec.volumes.value != [] ==> cs[i].spec.name.Some?)
  }

  function ContainerDecls(container: string, vols: seq<string>): seq<Decl>
  {
    seq(|vols|, k requires 0 <= k < |vols| => Decl(container, k, vols[k]))
  }

  /** The volumes of all containers, container by container, each in its own order. */
  function Decls(cs: seq<ContainerArg>): seq<Decl>
    requires WellFormed(cs)
    decreases |cs|
  {
    if cs == [] then []
    else
      var c := cs[|cs| - 1];
      Decls(cs[..|cs| - 1]) + ContainerDecls(c.spec.name.GetOr(""), c.spec.volumes.value)
  }

  /** How many declarations are named NFS volumes. */
  function NamedCount(ds: seq<Decl>): nat
    decreases |ds|
  {
    if ds == [] then 0
    else NamedCount(ds[..|ds| - 1]) + if IsNamedNfs(HostOf(ds[|ds| - 1].volume)) then 1 else 0
  }

  /** The counter after `ds`: only the cluster branch counts. */
  function Counter(s: Setting, ds: seq<Decl>): nat
  {
    if s.minikube.None? then NamedCount(ds) else 0
  }

  /** Every volume has a `:`, and a cluster call with volumes has a disk name. */
  predicate Resolvable(s: Setting, ds: seq<Decl>)
  {
    && (forall k :: 0 <= k < |ds| ==> ':' in ds[k].volume)
    && (s.minikube.None? && ds != [] ==> s.gpu.Some?)
  }

  /** The bindings of `ds`, each declaration in turn. */
  function Expected(s: Setting, ds: seq<Decl>): seq<VolumeBinding>
    requires forall k :: 0 <= k < |ds| ==> ':' in ds[k].volume
    decreases |ds|
  {
    if ds == [] then []
    else
      var d := ds[|ds| - 1];
      Expected(s, ds[..|ds| - 1]) + BindingsFor(s, d.container, d.index, d.volume, NamedCount(ds))
  }

  lemma ResolvableAppend(s: Setting, ds: seq<Decl>, d: Decl)
    ensures Resolvable(s, ds + [d]) <==> Resolvable(s, ds) && ':' in d.volume && (s.minikube.None? ==> s.gpu.Some?)
  {
    assert (ds + [d])[|ds|] == d;
    assert forall k :: 0 <= k < |ds| ==> (ds + [d])[k] == ds[k];
  }

  lemma ResolvablePrefix(s: Setting, a: seq<Decl>, b: seq<Decl>)
    requires Resolvable(s, a + b)
    ensures Resolvable(s, a)
  {
    assert forall k :: 0 <= k < |a| ==> (a + b)[k] == a[k];
  }

  /** One step agrees with `Expected` on one more declaration. */
  lemma DeclStepSpec(s: Setting, di: seq<Decl>, d: Decl, p: Progress)
    requires Resolvable(s, di) && p == Progress(Expected(s, di), Counter(s, di), true)
    ensures var q := VolumeStep(s, p, d.container, d.index, d.volume);
      var ds := di + [d];
      && (q.ok <==> Resolvable(s, ds))
      && (q.ok ==> q == Progress(Expected(s, ds), Counter(s, ds), true))
  {
    var ds := di + [d];
    assert ds[..|ds| - 1] == di;
    ResolvableAppend(s, di, d);
  }

  /** Whether a loop state agrees with `Expected` on `ds`. */
  predicate Agrees(s: Setting, q: Progress, ds: seq<Decl>)
  {
    && (q.ok <==> Resolvable(s, ds))
    && (q.ok ==> Resolvable(s, ds) && q == Progress(Expected(s, ds), Counter(s, ds), true))
  }

  /** One more volume of the inner loop keeps the agreement. */
  lemma VolumesStepAgrees(s: Setting, p: Progress, d0: seq<Decl>, container: string, vols: seq<string>)
    requires vols != []
    requires Agrees(s, VolumesStep(s, p, container, vols[..|vols| - 1]),
                    d0 + ContainerDecls(container, vols[..|vols| - 1]))
    ensures Agrees(s, VolumesStep(s, p, container, vols), d0 + ContainerDecls(container, vols))
  {
    var n := |vols| - 1;
    var init := vols[..n];
    var q := VolumesStep(s, p, container, init);
    var di := d0 + ContainerDecls(container, init);
    var d := Decl(container, n, vols[n]);
    ContainerDeclsLast(container, vols);
    assert d0 + ContainerDecls(container, vols) == di + [d];
    VolumesStepLast(s, p, container, vols);
    if q.ok {
      DeclStepSpec(s, di, d, q);
    } else {
      ResolvableAppend(s, di, d);
    }
  }

  /** The inner loop, from a state that agrees with `Expected` on `d0`, agrees
      with it on `d0` followed by the container's declarations. */
  lemma {:induction false} VolumesStepSpec(s: Setting, p: Progress, d0: seq<Decl>, container: string, vols: seq<string>)
    requires Agrees(s, p, d0) && p.ok
    ensures Agrees(s, VolumesStep(s, p, container, vols), d0 + ContainerDecls(container, vols))
    decreases |vols|
  {
    if vols == [] {
      assert d0 + ContainerDecls(container, vols) == d0;
    } else {
      VolumesStepSpec(s, p, d0, container, vols[..|vols| - 1]);
      VolumesStepAgrees(s, p, d0, container, vols);
    }
  }

  lemma ContainerDeclsLast(container: string, vols: seq<string>)
    requires vols != []
    ensures var n := |vols| - 1;
      ContainerDecls(container, vols) == ContainerDecls(container, vols[..n]) + [Decl(container, n, vols[n])]
  {
  }

  lemma VolumesStepLast(s: Setting, p: Progress, container: string, vols: seq<string>)
    requires vols != []
    ensures var n := |vols| - 1;
      VolumesStep(s, p, container, vols) == VolumeStep(s, VolumesStep(s, p, container, vols[..n]), container, n, vols[n])
  {
  }

  /** The loops agree with `Expected` on the declarations of all containers,
      and run to the end exactly when every container is well formed and the
      declarations resolvable. */
  lemma {:induction false} ContainersStepSpec(s: Setting, cs: seq<ContainerArg>)
    ensures ContainersStep(s, cs).ok <==> WellFormed(cs) && Resolvable(s, Decls(cs))
    ensures ContainersStep(s, cs).ok ==> ContainersStep(s, cs) == Progress(Expected(s, Decls(cs)), Counter(s, Decls(cs)), true)
    decreases |cs|
  {
    if cs != [] {
      var init := cs[..|cs| - 1];
      var c := cs[|cs| - 1];
      ContainersStepSpec(s, init);
      assert WellFormed(cs) ==> WellFormed(init) by {
        if WellFormed(cs) {
          forall i | 0 <= i < |init| ensures init[i] == cs[i] { }
        }
      }
      if WellFormed(init) && c.SpecArg? && c.spec.volumes.Some?
         && (c.spec.volumes.value != [] ==> c.spec.name.Some?) {
        assert WellFormed(cs) by {
          forall i | 0 <= i < |cs|
            ensures cs[i].SpecArg? && cs[i].spec.volumes.Some?
              && (cs[i].spec.volumes.value != [] ==> cs[i].spec.name.Some?)
          {
            if i < |init| { assert cs[i] == init[i]; }
          }
        }
        var d0 := Decls(init);
        var cd := ContainerDecls(c.spec.name.GetOr(""), c.spec.volumes.value);
        assert Decls(cs) == d0 + cd;
        if Resolvable(s, d0) {
          if c.spec.volumes.value == [] {
            assert d0 + cd == d0;
          } else {
            VolumesStepSpec(s, ContainersStep(s, init), d0, c.spec.name.value, c.spec.volumes.value);
          }
        } else if Resolvable(s, d0 + cd) {
          ResolvablePrefix(s, d0, cd);
        }
      }
    }
  }

  /** `ProcessedVolumes` is a list exactly when every container is a
      dictionary with `volumes`, named if it has any, every volume has a `:`,
      and, in a cluster with at least one volume, the first container's
      `limits` is a dictionary. */
  lemma ResolveSucceeds(identifier: string, minikube: Option<string>, cs: seq<ContainerArg>)
    ensures ProcessedVolumes(identifier, minikube, cs).Some?
      <==> && WellFormed(cs)
           && (forall k :: 0 <= k < |Decls(cs)| ==> ':' in Decls(cs)[k].volume)
           && (minikube.None? && Decls(cs) != [] ==> GpuLimits(cs).Some?)
  {
    ContainersStepSpec(Setting(identifier, minikube, GpuLimits(cs)), cs);
  }

  lemma {:induction false} ExpectedClusterLength(s: Setting, ds: seq<Decl>)
    requires s.minikube.None? && forall k :: 0 <= k < |ds| ==> ':' in ds[k].volume
    ensures |Expected(s, ds)| == |ds|
    decreases |ds|
  {
    if ds != [] {
      ExpectedClusterLength(s, ds[..|ds| - 1]);
    }
  }

  /** Declarations added later leave the bindings of the earlier ones alone. */
  lemma {:induction false} ExpectedPrefix(s: Setting, ds: seq<Decl>, n: nat)
    requires n <= |ds| && forall j :: 0 <= j < |ds| ==> ':' in ds[j].volume
    ensures Expected(s, ds[..n]) <= Expected(s, ds)
    decreases |ds|
  {
    if n < |ds| {
      var init := ds[..|ds| - 1];
      assert init[..n] == ds[..n];
      ExpectedPrefix(s, init, n);
    } else {
      assert ds[..n] == ds;
    }
  }

  /** The last declaration adds its own bindings after those of the others. */
  lemma ExpectedLast(s: Setting, ds: seq<Decl>)
    requires ds != [] && forall j :: 0 <= j < |ds| ==> ':' in ds[j].volume
    ensures var d := ds[|ds| - 1];
      Expected(s, ds) == Expected(s, ds[..|ds| - 1]) + BindingsFor(s, d.container, d.index, d.volume, NamedCount(ds))
  {
  }

  lemma ClusterBindingsFor(s: Setting, container: string, index: nat, volume: string, count: nat)
    requires s.minikube.None? && ':' in volume
    ensures BindingsFor(s, container, index, volume, count)
         == [ClusterBind(container, s.identifier, index, volume, count, s.gpu.GetOr(false))]
  {
  }

  lemma ExpectedClusterAt(s: Setting, ds: seq<Decl>, k: nat)
    requires s.minikube.None? && forall j :: 0 <= j < |ds| ==> ':' in ds[j].volume
    requires k < |ds|
    ensures |Expected(s, ds)| == |ds|
    ensures Expected(s, ds)[k]
         == ClusterBind(ds[k].container, s.identifier, ds[k].index, ds[k].volume, NamedCount(ds[..k + 1]),
                        s.gpu.GetOr(false))
  {
    var pre := ds[..k + 1];
    var d := ds[k];
    assert pre[..k] == ds[..k] && pre[k] == d;
    ExpectedClusterLength(s, ds);
    ExpectedClusterLength(s, ds[..k]);
    ExpectedPrefix(s, ds, k + 1);
    ExpectedLast(s, pre);
    ClusterBindingsFor(s, d.container, d.index, d.volume, NamedCount(pre));
    var b := ClusterBind(d.container, s.identifier, d.index, d.volume, NamedCount(pre), s.gpu.GetOr(false));
    var e := Expected(s, pre);
    assert e == Expected(s, ds[..k]) + [b];
    assert e[k] == b;
    assert Expected(s, ds)[k] == e[k];
  }

  /** In a cluster, binding `k` is the cluster binding of declaration `k`, with
      the named-NFS count of the declarations up to it and the disk kind of the
      first container's limits. */
  lemma ClusterBindings(identifier: string, cs: seq<ContainerArg>)
    requires ProcessedVolumes(identifier, None, cs).Some?
    ensures WellFormed(cs)
    ensures Decls(cs) != [] ==> GpuLimits(cs).Some?
    ensures var ds := Decls(cs); var out := ProcessedVolumes(identifier, None, cs).value;
      && |out| == |ds|
      && forall k :: 0 <= k < |ds| ==>
           (':' in ds[k].volume
            && out[k] == ClusterBind(ds[k].container, identifier, ds[k].index, ds[k].volume,
                                     NamedCount(ds[..k + 1]), GpuLimits(cs).value))
  {
    var s := Setting(identifier, None, GpuLimits(cs));
    ContainersStepSpec(s, cs);
    ExpectedClusterLength(s, Decls(cs));
    forall k | 0 <= k < |Decls(cs)|
      ensures Expected(s, Decls(cs))[k]
           == ClusterBind(Decls(cs)[k].container, identifier, Decls(cs)[k].index, Decls(cs)[k].volume,
                          NamedCount(Decls(cs)[..k + 1]), GpuLimits(cs).GetOr(false))
    {
      ExpectedClusterAt(s, Decls(cs), k);
    }
  }

  lemma {:induction false} NamedCountPositive(ds: seq<Decl>)
    ensures NamedCount(ds) > 0 <==> exists j :: 0 <= j < |ds| && IsNamedNfs(HostOf(ds[j].volume))
    decreases |ds|
  {
    if ds != [] {
      var init := ds[..|ds| - 1];
      NamedCountPositive(init);
      if exists j :: 0 <= j < |init| && IsNamedNfs(HostOf(init[j].volume)) {
        var j :| 0 <= j < |init| && IsNamedNfs(HostOf(init[j].volume));
        assert ds[j] == init[j];
      }
      if exists j :: 0 <= j < |ds| && IsNamedNfs(HostOf(ds[j].volume)) {
        var j :| 0 <= j < |ds| && IsNamedNfs(HostOf(ds[j].volume));
        if j < |init| { assert init[j] == ds[j]; }
      }
    }
  }

  /** In a cluster, a `TYCHO_NFS/<sub>` volume is bound under the name `<sub>`
      and requires NFS; its claim is `<sub>` if no named NFS volume precedes it
      anywhere in the system and `NA` otherwise. */
  lemma NamedNfsClaims(identifier: string, cs: seq<ContainerArg>, k: nat)
    requires ProcessedVolumes(identifier, None, cs).Some?
    requires WellFormed(cs) && k < |Decls(cs)|
    requires ':' in Decls(cs)[k].volume && IsNamedNfs(HostOf(Decls(cs)[k].volume))
    ensures |ProcessedVolumes(identifier, None, cs).value| == |Decls(cs)|
    ensures var ds := Decls(cs); var b := ProcessedVolumes(identifier, None, cs).value[k];
      var sub := NfsSubpath(HostOf(ds[k].volume));
      && b.ClusterBinding? && b.requiresNfs == "yes" && b.volumeName == sub
      && b.claimName == if exists j :: 0 <= j < k && IsNamedNfs(HostOf(ds[j].volume)) then "NA" else sub
  {
    ClusterBindings(identifier, cs);
    var ds := Decls(cs);
    var pre := ds[..k + 1];
    assert pre[..k] == ds[..k];
    NamedCountPositive(ds[..k]);
    forall j | 0 <= j < k ensures ds[..k][j] == ds[j] { }
  }

  /** The declarations whose host path is not the bare NFS sentinel. */
  function Kept(ds: seq<Decl>): seq<Decl>
    decreases |ds|
  {
    if ds == [] then []
    else Kept(ds[..|ds| - 1]) + if HostOf(ds[|ds| - 1].volume) != NfsSentinel then [ds[|ds| - 1]] else []
  }

  lemma {:induction false} KeptIsSubsequence(ds: seq<Decl>)
    ensures forall d :: d in Kept(ds) ==> d in ds && HostOf(d.volume) != NfsSentinel
    ensures forall d :: d in ds && HostOf(d.volume) != NfsSentinel ==> d in Kept(ds)
    decreases |ds|
  {
    if ds != [] {
      KeptIsSubsequence(ds[..|ds| - 1]);
      assert ds == ds[..|ds| - 1] + [ds[|ds| - 1]];
    }
  }

  lemma {:induction false} ExpectedMinikube(s: Setting, ds: seq<Decl>)
    requires s.minikube == Some("True") && forall k :: 0 <= k < |ds| ==> ':' in ds[k].volume
    ensures var kept := Kept(ds);
      && (forall k :: 0 <= k < |kept| ==> ':' in kept[k].volume)
      && |Expected(s, ds)| == |kept|
      && forall k :: 0 <= k < |kept| ==>
           Expected(s, ds)[k] == MinikubeBind(kept[k].container, s.identifier, kept[k].index, kept[k].volume)
    decreases |ds|
  {
    if ds != [] {
      var init := ds[..|ds| - 1];
      ExpectedMinikube(s, init);
    }
  }

  /** With `TYCHO_ON_MINIKUBE == "True"` the bindings are the minikube bindings
      of the declarations in order, bare `TYCHO_NFS` ones skipped. */
  lemma MinikubeBindings(identifier: string, cs: seq<ContainerArg>)
    requires ProcessedVolumes(identifier, Some("True"), cs).Some?
    ensures WellFormed(cs)
    ensures var kept := Kept(Decls(cs)); var out := ProcessedVolumes(identifier, Some("True"), cs).value;
      && |out| == |kept|
      && forall k :: 0 <= k < |kept| ==>
           (':' in kept[k].volume && HostOf(kept[k].volume) != NfsSentinel
            && out[k] == MinikubeBind(kept[k].container, identifier, kept[k].index, kept[k].volume))
  {
    var s := Setting(identifier, Some("True"), GpuLimits(cs));
    ContainersStepSpec(s, cs);
    ExpectedMinikube(s, Decls(cs));
    KeptIsSubsequence(Decls(cs));
  }

  lemma {:induction false} VolumesStepSilent(s: Setting, p: Progress, container: string, vols: seq<string>)
    requires s.minikube.Some? && s.minikube.value != "True"
    ensures VolumesStep(s, p, container, vols).out == p.out
    decreases |vols|
  {
    if vols != [] {
      VolumesStepSilent(s, p, container, vols[..|vols| - 1]);
    }
  }

  lemma {:induction false} ContainersStepSilent(s: Setting, cs: seq<ContainerArg>)
    requires s.minikube.Some? && s.minikube.value != "True"
    ensures ContainersStep(s, cs).out == []
    decreases |cs|
  {
    if cs != [] {
      var init := cs[..|cs| - 1];
      ContainersStepSilent(s, init);
      var c := cs[|cs| - 1];
      if ContainersStep(s, init).ok && c.SpecArg? && c.spec.volumes.Some? && c.spec.name.Some? {
        VolumesStepSilent(s, ContainersStep(s, init), c.spec.name.value, c.spec.volumes.value);
      }
    }
  }

  /** With `TYCHO_ON_MINIKUBE` set to anything but `"True"` nothing is bound. */
  lemma OtherMinikubeBindsNothing(identifier: string, flag: string, cs: seq<ContainerArg>)
    requires flag != "True"
    ensures Resolve(identifier, Some(flag), cs).out == []
  {
    ContainersStepSilent(Setting(identifier, Some(flag), GpuLimits(cs)), cs);
  }

  // ---------------------------------------------------------------------------
  // The stateful object
  // ---------------------------------------------------------------------------

  class Volumes {
    const name: string
    const nameNoiden: string
    const identifier: string
    const containers: seq<ContainerArg>
    var volumes: seq<VolumeBinding>

    constructor (name: string, nameNoiden: string, identifier: string, containers: seq<ContainerArg>)
      ensures this.name == name && this.nameNoiden == nameNoiden
      ensures this.identifier == identifier && this.containers == containers
      ensures volumes == []
    {
      this.name := name;
      this.nameNoiden := nameNoiden;
      this.identifier := identifier;
      this.containers := containers;
      volumes := [];
    }

    /** The body of the inner loop for one volume, after its names are made:
        splits it into host and mount path and appends its binding; `ok` is
        false where Python raises. */
    method AddVolume(minikube: Option<string>, containerName: string, index: nat, volume: string,
                     diskName: Option<string>, count: nat, ghost s: Setting)
      returns (newCount: nat, newDiskName: Option<string>, ok: bool)
      requires s == Setting(identifier, minikube, GpuLimits(containers)) && containers != []
      requires s.gpu.None? ==> diskName.None?
      modifies this
      ensures var p := VolumeStep(s, Progress([], count, true), containerName, index, volume);
        volumes == old(volumes) + p.out && ok == p.ok && newCount == p.count
      ensures s.gpu.None? ==> newDiskName.None?
    {
      newCount, newDiskName := count, diskName;
      var volumeName := DefaultVolumeName(containerName, identifier, index);
      var claimName := "pvc-for-" + volumeName;
      match LimitKeysOf(containers[0]) {
        case Some(keys) =>
          newDiskName := Some(containerName + "-" + NatToString(index)
                              + (if "gpus" in keys then "-gpu-disk" else "-default-disk"));
        case None =>
      }
      if ':' !in volume {  // IndexError
        return newCount, newDiskName, false;
      }
      SplitHasSecond(volume, ':');
      var parts := Split(volume, ':');
      var mountPath := parts[1];
      var hostPath := parts[0];
      var requiresNfs := "no";
      match minikube {
        case Some(flag) =>
          if flag == "True" {
            if hostPath != NfsSentinel {
              volumes := volumes + [MinikubeBinding(containerName, volumeName, claimName, mountPath, hostPath)];
            }
          }
        case None =>
          if hostPath == NfsSentinel {
            hostPath := "nfs";
            requiresNfs := "yes";
            SplitWithoutSep("nfs", '/');
          }
          var segments := Split(hostPath, '/');
          if segments[0] == NfsSentinel {
            NamedNfsHasSubpath(hostPath);
            newCount := newCount + 1;
            hostPath := segments[1];
            volumeName := hostPath;
            if newCount > 1 {
              hostPath := "NA";
            }
            requiresNfs := "yes";
          }
          if newDiskName.None? {  // UnboundLocalError
            return newCount, newDiskName, false;
          }
          volumes := volumes + [ClusterBinding(requiresNfs, containerName, volumeName, hostPath,
                                               newDiskName.value, mountPath)];
      }
      ok := true;
    }

    /** The inner loop: the volumes of container `c`, which is a dictionary
        with a `volumes` entry; `ok` is false where Python raises. */
    method AddContainerVolumes(minikube: Option<string>, i: nat, count: nat, diskName: Option<string>,
                               ghost s: Setting, ghost base: seq<VolumeBinding>)
      returns (newCount: nat, newDiskName: Option<string>, ok: bool)
      requires s == Setting(identifier, minikube, GpuLimits(containers)) && i < |containers|
      requires containers[i].SpecArg? && containers[i].spec.volumes.Some?
      requires var p0 := ContainersStep(s, containers[..i]);
        p0.ok && count == p0.count && volumes == base + p0.out
      requires s.gpu.None? ==> diskName.None?
      modifies this
      ensures var p := ContainersStep(s, containers[..i + 1]);
        volumes == base + p.out && ok == p.ok && newCount == p.count
      ensures s.gpu.None? ==> newDiskName.None?
    {
      ghost var p0 := ContainersStep(s, containers[..i]);
      ContainersStepLast(s, containers, i);
      var c := containers[i];
      newCount, newDiskName := count, diskName;
      var vols := c.spec.volumes.value;
      ghost var cname := c.spec.name.GetOr("");
      var index := 0;
      while index < |vols|
        invariant 0 <= index <= |vols|
        invariant index > 0 ==> c.spec.name.Some?
        invariant VolumesStep(s, p0, cname, vols[..index]).ok
        invariant volumes == base + VolumesStep(s, p0, cname, vols[..index]).out
        invariant newCount == VolumesStep(s, p0, cname, vols[..index]).count
        invariant s.gpu.None? ==> newDiskName.None?
      {
        assert vols[..index + 1][..index] == vols[..index];
        if c.spec.name.None? {  // KeyError
          return newCount, newDiskName, false;
        }
        var stepOk;
        ghost var before, countBefore := volumes, newCount;
        newCount, newDiskName, stepOk := AddVolume(minikube, c.spec.name.value, index, vols[index], newDiskName,
                                                   newCount, s);
        VolumesStepNext(s, p0, cname, vols, index, base, before, volumes, countBefore, newCount, stepOk);
        if !stepOk {
          VolumesFailureSticks(s, p0, cname, vols, index + 1);
          return newCount, newDiskName, false;
        }
        index := index + 1;
      }
      assert vols[..|vols|] == vols;
      ok := true;
    }

    /** Appends the binding of every volume to `volumes` and returns them, or
        returns `None` at the first exception, keeping what was appended. */
    method ProcessVolumes(minikube: Option<string>) returns (r: Option<seq<VolumeBinding>>)
      modifies this
      ensures var p := Resolve(identifier, minikube, containers);
        volumes == old(volumes) + p.out && r == (if p.ok then Some(volumes) else None)
    {
      ghost var s := Setting(identifier, minikube, GpuLimits(containers));
      var count: nat := 0;
      var diskName: Option<string> := None;
      var i := 0;
      while i < |containers|
        invariant 0 <= i <= |containers|
        invariant ContainersStep(s, containers[..i]).ok
        invariant volumes == old(volumes) + ContainersStep(s, containers[..i]).out
        invariant count == ContainersStep(s, containers[..i]).count
        invariant s.gpu.None? ==> diskName.None?
      {
        var c := containers[i];
        if !c.SpecArg? || c.spec.volumes.None? {  // TypeError or KeyError
          ContainersStepLast(s, containers, i);
          ContainersFailureSticks(s, containers, i + 1);
          return None;
        }
        var ok;
        count, diskName, ok := AddContainerVolumes(minikube, i, count, diskName, s, old(volumes));
        if !ok {
          ContainersFailureSticks(s, containers, i + 1);
          return None;
        }
        i := i + 1;
      }
      assert containers[..|containers|] == containers;
      r := Some(volumes);
    }
  }
}
