/** The file system queries the program makes, as given functions: the program's
    behaviour is modelled for every answer they may give. */
module FileSystems {
  import opened Options
  import opened Paths

  datatype FileSystem = FileSystem(
    /** `fs::read_dir`: None when the directory cannot be read; an entry is None
        when the iterator failed on it. */
    readDir: Path -> Option<seq<Option<Path>>>,
    /** `Path::is_dir` (false when the path cannot be queried). */
    isDir: Path -> bool,
    /** `Path::canonicalize`: None when it fails. */
    canonicalize: Path -> Option<Path>,
    /** `env::set_current_dir`: whether it succeeded. */
    setCurrentDir: Path -> bool)

  /** `entries.filter_map(|entry| Some(entry.ok()?.path()))`: the readable
      entries in listing order, the failed ones dropped. */
  function ReadablePaths(entries: seq<Option<Path>>): (r: seq<Path>)
    ensures |r| <= |entries|
    ensures forall p :: p in r <==> Some(p) in entries
  {
    if entries == [] then []
    else
      assert entries == [entries[0]] + entries[1..];
      (if entries[0].Some? then [entries[0].value] else []) + ReadablePaths(entries[1..])
  }
}
