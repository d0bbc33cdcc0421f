/** Directory listing helpers of the first generation. */
module FileLists {
  import opened Options
  import opened Paths
  import opened FileSystems

  /** `read_file_list`: the readable entries in listing order followed by one
      `..`; None is the `Err` of a directory that cannot be read. */
  function ReadFileList(fs: FileSystem, directory: Path): (r: Option<seq<Path>>)
    ensures r.Some? <==> fs.readDir(directory).Some?
    ensures r.Some? ==> var entries := ReadablePaths(fs.readDir(directory).value);
      && |r.value| == |entries| + 1
      && r.value[..|entries|] == entries
      && r.value[|entries|] == ParentEntry
  {
    match fs.readDir(directory)
    case None => None
    case Some(listing) =>
      var dirs := ReadablePaths(listing);
      var backPath := Push(Path([]), "..");
      Some(dirs + [backPath])
  }

  /** `file_name`: the last component, or `..` when the path has no file name. */
  function FileName(fb: Path): (name: string)
    ensures Paths.FileName(fb).Some? ==> name == Paths.FileName(fb).value
    ensures Paths.FileName(fb).None? ==> name == ".."
  {
    match Paths.FileName(fb)
    case Some(foundName) => foundName
    case None => ".."
  }

  /** Every name a listing can show for an entry pushed onto a directory comes
      back from `file_name`, and `..` for the appended parent entry. */
  lemma FileNameOfListing(fs: FileSystem, directory: Path, name: string)
    requires fs.readDir(directory).Some? && IsPlainName(name)
    ensures var list := ReadFileList(fs, directory).value;
      FileName(list[|list| - 1]) == ".."
    ensures FileName(Push(directory, name)) == name
  {
    FileNameOfPush(directory, name);
  }
}
