/** `ma_logger/utils.py`: package-root discovery, module-name resolution with
    a package-root strategy and a shortest-first `sys.path` fallback, and
    parameter collection with a caller-supplied auto-skip set. */
module Utils {
  import opened Wrappers
  import opened Values
  import opened Paths
  import opened SysPathSearch
  import opened Binding
  import opened Runtime

  /** `root` is the package root of directory `dir`: `root` is `dir` or one
      of its ancestors, every directory from `dir` up to `root` holds an
      `__init__.py`, and `root` is the filesystem root or its parent holds
      none. */
  ghost predicate IsPackageRoot(dir: Path, root: Path, packageDirs: set<Path>) {
    && IsPrefix(root, dir)
    && (forall k :: |root| <= k <= |dir| ==> dir[..k] in packageDirs)
    && (|root| == 0 || Dirname(root) !in packageDirs)
  }

  /** Climbing from `dir` while the current directory holds `__init__.py`,
      the last such directory reached. */
  function WalkUp(dir: Path, packageDirs: set<Path>): (r: Option<Path>)
    ensures r.None? <==> dir !in packageDirs
    ensures r.Some? ==> IsPackageRoot(dir, r.value, packageDirs)
    decreases |dir|
  {
    if dir !in packageDirs then None
    else if |dir| == 0 then Some(dir)
    else
      var parent := Dirname(dir);
      match WalkUp(parent, packageDirs)
      case None => Some(dir)
      case Some(top) =>
        assert forall k :: |top| <= k <= |parent| ==> dir[..k] == parent[..k];
        assert dir[..|dir|] == dir;
        Some(top)
  }

  /** Every ancestor of `dir` strictly below its package root still holds
      `__init__.py`, so the root's parent is the first one that does not. */
  lemma BelowRootIsPackage(dir: Path, root: Path, upper: Path, packageDirs: set<Path>)
    requires IsPackageRoot(dir, root, packageDirs)
    requires IsPrefix(upper, dir) && |root| < |upper|
    ensures Dirname(upper) in packageDirs
  {
    assert Dirname(upper) == dir[..|upper| - 1];
  }

  /** A directory has at most one package root. */
  lemma PackageRootUnique(dir: Path, r1: Path, r2: Path, packageDirs: set<Path>)
    requires IsPackageRoot(dir, r1, packageDirs) && IsPackageRoot(dir, r2, packageDirs)
    ensures r1 == r2
  {
    if |r1| < |r2| {
      BelowRootIsPackage(dir, r1, r2, packageDirs);
      assert false;
    } else if |r2| < |r1| {
      BelowRootIsPackage(dir, r2, r1, packageDirs);
      assert false;
    }
  }

  /** The walk finds exactly the package root. */
  lemma WalkUpFindsPackageRoot(dir: Path, root: Path, packageDirs: set<Path>)
    ensures WalkUp(dir, packageDirs) == Some(root) <==> IsPackageRoot(dir, root, packageDirs)
  {
    if IsPackageRoot(dir, root, packageDirs) {
      assert dir[..|dir|] == dir;
      PackageRootUnique(dir, WalkUp(dir, packageDirs).value, root, packageDirs);
    }
  }

  /** `find_package_root(filepath)` as a value: the walk from
      `dirname(filepath)`. */
  function PackageRoot(filepath: Path, packageDirs: set<Path>): (r: Option<Path>)
    ensures r.None? <==> Dirname(filepath) !in packageDirs
    ensures r.Some? ==> IsPackageRoot(Dirname(filepath), r.value, packageDirs)
  {
    WalkUp(Dirname(filepath), packageDirs)
  }

  /** `find_package_root`, with the source's loop: keep the current
      directory as the root while it holds `__init__.py` and move to its
      parent, stopping at a directory without one or at `/`. */
  method FindPackageRoot(filepath: Path, packageDirs: set<Path>) returns (root: Option<Path>)
    ensures root == PackageRoot(filepath, packageDirs)
    ensures root.None? <==> Dirname(filepath) !in packageDirs
  {
    var current := Dirname(filepath);
    root := None;
    while true
      invariant PackageRoot(filepath, packageDirs)
                == (if WalkUp(current, packageDirs).Some? then WalkUp(current, packageDirs) else root)
      decreases |current|
    {
      if current in packageDirs {
        root := Some(current);
        var parent := Dirname(current);
        if parent == current {
          break;
        }
        current := parent;
      } else {
        break;
      }
    }
  }

  /** The dotted name of `filepath` below package root `root`:
      `package_name` alone for `root/__init__.py`, otherwise
      `package_name + "." + relative parts`. */
  function PackageModuleName(filepath: Path, root: Path): string
    requires IsPrefix(root, filepath) && |root| < |filepath|
  {
    var parts := ModuleParts(filepath[|root|..]);
    if |parts| > 0 then Basename(root) + "." + JoinDots(parts) else Basename(root)
  }

  /** `resolve_module_name(func)`: `__module__` unless it is `"__main__"`,
      then `__spec__.name`, then the package-root derivation, then the
      shortest-first `sys.path` scan, and `"__main__"` when all fail. */
  function ResolveModuleName(f: Callable, host: Host): (r: string)
    requires ValidCallable(f)
    ensures f.moduleName != MainModule ==> r == f.moduleName
    ensures f.moduleName == MainModule && HasSpecName(host) ==> r == host.mainSpecName.value
    ensures f.moduleName == MainModule && !HasSpecName(host) && f.file.None? ==> r == MainModule
  {
    if f.moduleName != MainModule then f.moduleName
    else if HasSpecName(host) then host.mainSpecName.value
    else match f.file
      case None => f.moduleName
      case Some(filepath) =>
        match PackageRoot(filepath, host.packageDirs)
        case Some(root) => PackageModuleName(filepath, root)
        case None => Search(host.sysPath, filepath, ShortestFirst).GetOr(f.moduleName)
  }

  /** A `__main__` script inside a package: `root/d1/.../dk/stem.py`, where
      `root` is the package root of the file's directory, is named
      `basename(root).d1. ... .dk.stem`. */
  lemma PackageFileIsNamedFromRoot(f: Callable, host: Host, root: Path, dirs: seq<string>, stem: string)
    requires f.moduleName == MainModule && !HasSpecName(host)
    requires f.file == Some(root + dirs + [stem + ".py"])
    requires IsPackageRoot(root + dirs, root, host.packageDirs)
    requires HasNonDot(stem) && stem != "__init__"
    ensures ResolveModuleName(f, host) == Basename(root) + "." + JoinDots(dirs + [stem])
  {
    var filepath := root + dirs + [stem + ".py"];
    assert Dirname(filepath) == root + dirs;
    WalkUpFindsPackageRoot(root + dirs, root, host.packageDirs);
    assert filepath[|root|..] == dirs + [stem + ".py"];
    ModulePartsOfSourceFile(dirs, stem);
  }

  /** A sub-package's `root/d1/.../dk/__init__.py` run as `__main__` is
      named `basename(root).d1. ... .dk`. */
  lemma SubPackageInitIsNamedFromRoot(f: Callable, host: Host, root: Path, dirs: seq<string>)
    requires f.moduleName == MainModule && !HasSpecName(host)
    requires f.file == Some(root + dirs + ["__init__.py"])
    requires IsPackageRoot(root + dirs, root, host.packageDirs)
    requires |dirs| > 0
    ensures ResolveModuleName(f, host) == Basename(root) + "." + JoinDots(dirs)
  {
    var filepath := root + dirs + ["__init__.py"];
    assert PackageRoot(filepath, host.packageDirs) == Some(root) by {
      assert Dirname(filepath) == root + dirs;
      WalkUpFindsPackageRoot(root + dirs, root, host.packageDirs);
    }
    assert ModuleParts(filepath[|root|..]) == dirs by {
      assert "__init__" + ".py" == "__init__.py";
      assert filepath[|root|..] == dirs + ["__init__" + ".py"];
      assert "__init__"[0] != '.';
      ModulePartsOfSourceFile(dirs, "__init__");
    }
  }

  /** A package's own `__init__.py` run as `__main__` is named after the
      package alone. */
  lemma PackageInitIsNamedByPackage(f: Callable, host: Host, root: Path)
    requires f.moduleName == MainModule && !HasSpecName(host)
    requires f.file == Some(root + ["__init__.py"])
    requires IsPackageRoot(root, root, host.packageDirs)
    ensures ResolveModuleName(f, host) == Basename(root)
  {
    var filepath := root + ["__init__.py"];
    assert Dirname(filepath) == root;
    WalkUpFindsPackageRoot(root, root, host.packageDirs);
    assert filepath[|root|..] == ["__init__.py"];
    assert "__init__"[0] != '.';
    ModulePartsOfSourceFile([], "__init__");
    assert "__init__" + ".py" == "__init__.py";
    assert [] + ["__init__" + ".py"] == ["__init__.py"];
  }

  /** Outside any package, the name comes from the first `sys.path` entry
      in shortest-first order that contains the file, or stays
      `"__main__"` when none does. */
  lemma ScriptOutsidePackageUsesSysPath(f: Callable, host: Host, filepath: Path)
    requires f.moduleName == MainModule && !HasSpecName(host)
    requires f.file == Some(filepath) && |filepath| > 0
    requires Dirname(filepath) !in host.packageDirs
    ensures (forall j :: 0 <= j < |host.sysPath| ==> Candidate(host.sysPath[j], filepath).None?) ==>
              ResolveModuleName(f, host) == MainModule
    ensures Select(host.sysPath, filepath, ShortestFirst).Some? ==>
              var c := Select(host.sysPath, filepath, ShortestFirst).value;
              ResolveModuleName(f, host) == JoinDots(Candidate(host.sysPath[c], filepath).value)
  {
  }

  /** `collect_params(func, args, kwargs, ignore_params, auto_skip_params)`:
      the bound arguments (defaults applied) whose names are in neither
      `auto_skip_params` nor `ignore_params`, each passed through the safe
      serializer; `{}` when the signature cannot be read or the arguments do
      not bind. A missing `auto_skip_params` is the empty set. */
  function CollectParams(f: Callable, args: seq<Value>, kwargs: map<string, Value>,
                         ignoreParams: Option<seq<string>>, autoSkipParams: set<string>): (r: seq<Member>)
    ensures forall i :: 0 <= i < |r| ==> r[i].key !in autoSkipParams && Encodable(r[i].val)
    ensures ignoreParams.Some? ==> forall i, j :: 0 <= i < |r| && 0 <= j < |ignoreParams.value| ==>
              r[i].key != ignoreParams.value[j]
    ensures f.signature.None? ==> r == []
    ensures f.signature.Some? && !Bindable(f.signature.value, args, kwargs) ==> r == []
  {
    var ignore := autoSkipParams + (set x | x in ignoreParams.GetOr([]));
    match f.signature
    case None => []
    case Some(params) =>
      match Bind(params, args, kwargs)
      case None => []
      case Some(bound) => KeepSerialized(bound, ignore)
  }

  /** When the arguments bind, the collected names are exactly the
      parameters minus both exclusion lists, and each value is the safe
      serialization of the argument bound to it. */
  lemma CollectParamsContents(f: Callable, args: seq<Value>, kwargs: map<string, Value>,
                              ignoreParams: Option<seq<string>>, autoSkipParams: set<string>)
    requires f.signature.Some? && Bindable(f.signature.value, args, kwargs)
    ensures var params := f.signature.value;
            var ignore := autoSkipParams + (set x | x in ignoreParams.GetOr([]));
            var r := CollectParams(f, args, kwargs, ignoreParams, autoSkipParams);
            && KeySet(r) == ParamNames(params) - ignore
            && forall i :: 0 <= i < |params| && params[i].name !in ignore ==>
                 Member(params[i].name, SafeSerialize(ArgFor(params, args, kwargs, i))) in r
  {
    var params := f.signature.value;
    var bound := Bind(params, args, kwargs).value;
    var ignore := autoSkipParams + (set x | x in ignoreParams.GetOr([]));
    BoundKeysAreParamNames(params, args, kwargs);
    KeepSerializedKeys(bound, ignore);
    forall i | 0 <= i < |params| && params[i].name !in ignore
      ensures Member(params[i].name, SafeSerialize(ArgFor(params, args, kwargs, i))) in KeepSerialized(bound, ignore)
    {
      assert bound[i] in bound;
    }
  }
}
