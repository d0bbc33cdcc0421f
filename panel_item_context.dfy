/** One entry of a first-generation panel. */
module PanelItemContexts {
  import Paths
  import opened FileSystems

  datatype PanelItemContext = PanelItemContext(path: Paths.Path, marked: bool)
  {
    /** `PanelItemContext::new`: a fresh entry is not marked. */
    static function New(path: Paths.Path): (item: PanelItemContext)
      ensures item.path == path && !item.marked
    {
      PanelItemContext(path, false)
    }

    function IsDir(fs: FileSystem): bool
    {
      fs.isDir(path)
    }

    function DisplayString(): string
    {
      Paths.Display(path)
    }

    /** `full_path` gives the same text as `display_string`. */
    function FullPath(): (s: string)
      ensures s == DisplayString()
    {
      Paths.Display(path)
    }

    /** `mark`: the mark flips and the path stays. */
    function Mark(): (item: PanelItemContext)
      ensures item.marked == !marked && item.path == path
    {
      this.(marked := !marked)
    }
  }

  /** Marking twice restores the entry. */
  lemma MarkTwice(item: PanelItemContext)
    ensures item.Mark().Mark() == item
    ensures item.Mark() != item
  {
  }
}
