/** What the resolvers and collectors read by reflection in Python, given
    here as explicit data: the traced function's attributes and the state of
    the running interpreter. */
module Runtime {
  import opened Wrappers
  import opened Paths
  import opened SysPathSearch
  import opened Binding

  /** A Python function as `trace` sees it: `__module__`, `__qualname__`,
      the absolute path `inspect.getfile` would give (`None` where it raises
      `TypeError` or `OSError`), and its signature (`None` where
      `inspect.signature` raises). */
  datatype Callable = Callable(
    moduleName: string,
    qualname: string,
    file: Option<Path>,
    signature: Option<seq<Param>>)

  /** `__spec__.name` of `sys.modules["__main__"]` (`None` when the module,
      its spec or the name is missing), `sys.path`, and the directories that
      hold an `__init__.py` file. */
  datatype Host = Host(
    mainSpecName: Option<string>,
    sysPath: seq<Entry>,
    packageDirs: set<Path>)

  /** The pseudo-module name of a script run directly. */
  const MainModule := "__main__"

  /** A file path names a file, so it has at least one component. */
  predicate ValidCallable(f: Callable) {
    f.file.Some? ==> |f.file.value| > 0
  }

  /** `python -m` set a non-empty `__spec__.name`. */
  predicate HasSpecName(host: Host) {
    host.mainSpecName.Some? && host.mainSpecName.value != ""
  }
}
