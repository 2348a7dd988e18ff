/** `Resource` of `tycho/util.py`: resolving a resource name against the
    package directory and choosing how to load it. The package directory and
    the file system's `os.path.exists` are parameters; reading and parsing the
    file are left out, so the model returns which loader would read which path. */
module Util {
  import opened Wrappers

  /** `os.sep` on a POSIX system. */
  const Sep: char := '/'

  predicate StartsWith(s: string, prefix: string)
  {
    |prefix| <= |s| && s[..|prefix|] == prefix
  }

  predicate EndsWith(s: string, suffix: string)
  {
    |suffix| <= |s| && s[|s| - |suffix|..] == suffix
  }

  /** `posixpath.join(a, b)` for a relative `b`. */
  function JoinPath(a: string, b: string): (r: string)
    requires !StartsWith(b, [Sep])
    ensures EndsWith(r, b) && StartsWith(r, a)
    ensures |r| == |a| + |b| || |r| == |a| + 1 + |b|
  {
    if a == [] || a[|a| - 1] == Sep then a + b else a + [Sep] + b
  }

  /** `Resource.get_resource_path`: an absolute name is kept, any other is
      joined to the package directory `moduleDir`. */
  function GetResourcePath(name: string, moduleDir: string): (r: string)
    ensures StartsWith(name, [Sep]) ==> r == name
    ensures !StartsWith(name, [Sep]) ==> StartsWith(r, moduleDir) && EndsWith(r, name)
  {
    if StartsWith(name, [Sep]) then name else JoinPath(moduleDir, name)
  }

  /** Under an absolute package directory every resolved path is absolute, so
      resolving it again changes nothing. */
  lemma ResolvedPathIsFixed(name: string, moduleDir: string)
    requires StartsWith(moduleDir, [Sep])
    ensures StartsWith(GetResourcePath(name, moduleDir), [Sep])
    ensures GetResourcePath(GetResourcePath(name, moduleDir), moduleDir) == GetResourcePath(name, moduleDir)
  {
    var r := GetResourcePath(name, moduleDir);
    if !StartsWith(name, [Sep]) {
      assert r[..1] == moduleDir[..1];
    }
  }

  /** The loaders `get_resource_obj` chooses between. */
  datatype Loader = LoadJson(path: string) | LoadYaml(path: string)

  /** The format `get_resource_obj` uses: an empty or absent format is `yaml`
      for a name ending in `.yaml` and `json` otherwise. */
  function ResourceFormat(name: string, format: Option<string>): (r: string)
    ensures format.Some? && format.value != "" ==> r == format.value
    ensures (format == None || format == Some("")) ==> (r == "yaml" <==> EndsWith(name, ".yaml"))
    ensures (format == None || format == Some("")) ==> (r == "json" <==> !EndsWith(name, ".yaml"))
  {
    if format.None? || format.value == "" then
      if EndsWith(name, ".yaml") then "yaml" else "json"
    else format.value
  }

  /** `Resource.get_resource_obj`: the loader and path it reads, or `None` when
      the resolved path does not exist or the format is neither `json` nor
      `yaml`. */
  function GetResourceObj(name: string, format: Option<string>, pathExists: string -> bool, moduleDir: string): Option<Loader>
  {
    var fmt := ResourceFormat(name, format);
    var path := GetResourcePath(name, moduleDir);
    if !pathExists(path) then None
    else if fmt == "json" then Some(LoadJson(path))
    else if fmt == "yaml" then Some(LoadYaml(path))
    else None
  }

  /** A resource is read exactly when its resolved path exists and its format
      is known; it is read from the resolved path, with the loader of its
      format, so a name ending in `.yaml` with no format is read as YAML. */
  lemma GetResourceObjSpec(name: string, format: Option<string>, pathExists: string -> bool, moduleDir: string)
    ensures var r := GetResourceObj(name, format, pathExists, moduleDir);
      r.Some? <==> pathExists(GetResourcePath(name, moduleDir)) && ResourceFormat(name, format) in {"json", "yaml"}
    ensures var r := GetResourceObj(name, format, pathExists, moduleDir);
      r.Some? ==> r.value.path == GetResourcePath(name, moduleDir)
                  && (r.value.LoadYaml? <==> ResourceFormat(name, format) == "yaml")
    ensures (format == None || format == Some("")) && pathExists(GetResourcePath(name, moduleDir)) ==>
      GetResourceObj(name, format, pathExists, moduleDir)
        == if EndsWith(name, ".yaml") then Some(LoadYaml(GetResourcePath(name, moduleDir)))
           else Some(LoadJson(GetResourcePath(name, moduleDir)))
  {
  }
}
