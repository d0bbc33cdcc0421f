/** Rust's `PathBuf`, reduced to what the file manager does with it: push a name,
    take the file name, display it. */
module Paths {
  import opened Options

  datatype Component = RootDir | ParentDir | Normal(name: string)

  /** A path as the sequence of its components (`/a/b` is [RootDir, a, b]). */
  datatype Path = Path(components: seq<Component>)

  /** `std::path::MAIN_SEPARATOR` on the non-Windows targets modelled here. */
  const MainSeparator: char := '/'

  /** The path `..` that every directory scan appends. */
  const ParentEntry: Path := Path([ParentDir])

  function ComponentText(c: Component): string
  {
    match c
    case RootDir => [MainSeparator]
    case ParentDir => ".."
    case Normal(n) => n
  }

  /** `path.display().to_string()`: the components joined by the separator,
      with no separator added after the root. */
  function Display(p: Path): string
    decreases |p.components|
  {
    if |p.components| == 0 then ""
    else if |p.components| == 1 then ComponentText(p.components[0])
    else
      var c := p.components[0];
      ComponentText(c) + (if c.RootDir? then "" else [MainSeparator]) + Display(Path(p.components[1..]))
  }

  /** `Path::file_name`: the last component when it is a normal name; nothing for
      a path that ends in `..`, for the root and for the empty path. */
  function FileName(p: Path): Option<string>
  {
    if |p.components| > 0 && p.components[|p.components| - 1].Normal? then
      Some(p.components[|p.components| - 1].name)
    else None
  }

  /** A single file name: what the panels push onto a path. */
  predicate IsPlainName(name: string)
  {
    name != "" && name != "." && name != ".." && MainSeparator !in name
  }

  /** `path.push(name)` for a name holding no separator: `..` adds a parent
      component, `` and `.` leave the components as they are, anything else
      adds a normal component. */
  function Push(p: Path, name: string): Path
  {
    if name == ".." then Path(p.components + [ParentDir])
    else if name == "" || name == "." then p
    else Path(p.components + [Normal(name)])
  }

  /** Taking the file name undoes pushing a plain name. */
  lemma FileNameOfPush(p: Path, name: string)
    requires IsPlainName(name)
    ensures FileName(Push(p, name)) == Some(name)
  {
  }
}
