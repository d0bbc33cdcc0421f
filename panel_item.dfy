/** One entry of a panel's listing in the store's state. */
module PanelItems {
  import Paths
  import opened FileSystems

  datatype PanelItem = PanelItem(path: Paths.Path, marked: bool)
  {
    /** `PanelItem::new`: a fresh entry is not marked. */
    static function New(path: Paths.Path): (item: PanelItem)
      ensures item.path == path && !item.marked
    {
      PanelItem(path, false)
    }

    /** `file_name(fb)`: the file name of `fb`, or `..` when it has none. */
    function FileName(fb: Paths.Path): string
    {
      match Paths.FileName(fb)
      case Some(name) => name
      case None => ".."
    }

    /** `is_dir`: asks the file system about the entry's path. */
    function IsDir(fs: FileSystem): bool
    {
      fs.isDir(path)
    }

    function DisplayString(): string
    {
      Paths.Display(path)
    }

    /** `file_full_path` gives the same text as `display_string`. */
    function FileFullPath(): (s: string)
      ensures s == DisplayString()
    {
      Paths.Display(path)
    }

    /** `current_file_name` is `file_name` of the entry's own path. */
    function CurrentFileName(): (name: string)
      ensures name == FileName(path)
    {
      FileName(path)
    }
  }

  /** An entry listed as `dir/name` is entered by the name alone, and the
      synthetic `..` entry by `..`: what `Cd` pushes onto the panel's path. */
  lemma CurrentFileNames(dir: Paths.Path, name: string)
    requires Paths.IsPlainName(name)
    ensures PanelItem.New(Paths.Push(dir, name)).CurrentFileName() == name
    ensures PanelItem.New(Paths.ParentEntry).CurrentFileName() == ".."
  {
    Paths.FileNameOfPush(dir, name);
  }
}
