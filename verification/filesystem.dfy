/** The abstract filesystem the directory listing is read from.

    A path is a sequence of names, absolute or relative, as java.nio's Path
    keeps it. A filesystem answers the two questions the listing asks:
    `Files.list(dir)` (the immediate children of a directory, or an
    IOException) and `Files.readAttributes(path)` (the kind and size of an
    entry, or an IOException). Both are maps: a path missing from the map is
    one whose call throws. */
module FileSystem {

  datatype Option<T> = None | Some(value: T)

  /** A filesystem path: `absolute` says whether it starts at the root,
      `names` are its name elements, outermost first. The root "/" is the
      absolute path with no names. */
  datatype Path = Path(absolute: bool, names: seq<string>)
  {
    /** `Path.getParent()`: the path without its last name element, or no
        parent for the root and for a relative path of one element. */
    function Parent(): (p: Option<Path>)
      ensures p.Some? <==> |names| > 1 || (|names| == 1 && absolute)
      ensures p.Some? ==> p.value.absolute == absolute && p.value.names + [names[|names| - 1]] == names
    {
      if |names| == 0 || (|names| == 1 && !absolute) then None
      else Some(Path(absolute, names[..|names| - 1]))
    }

    /** `path.getName(path.getNameCount() - 1)`: the last name element. */
    function LastName(): (n: string)
      requires |names| > 0
      ensures n in names && names == names[..|names| - 1] + [n]
    {
      names[|names| - 1]
    }
  }

  /** What `BasicFileAttributes` says about the kind of an entry:
      `isDirectory()`, `isRegularFile()`, or neither (a link, a device, ...). */
  datatype Kind = DirectoryKind | RegularFileKind | OtherKind

  /** `BasicFileAttributes`: the kind and `size()` in bytes. */
  datatype Attributes = Attributes(kind: Kind, size: nat)
  {
    predicate IsDirectory() { kind == DirectoryKind }
    predicate IsRegularFile() { kind == RegularFileKind }
  }

  /** What `Files.list(dir).toList()` meets once the directory is open: all
      of its children, or an I/O error part-way through the iteration, which
      the stream reports as an UncheckedIOException. */
  datatype Listing = Complete(children: seq<Path>) | BreaksMidway

  /** A snapshot of the disk: the attributes of every readable entry and the
      listing of every directory that can be opened. */
  datatype FileSystem = FileSystem(attributes: map<Path, Attributes>, listings: map<Path, Listing>)
  {
    /** `Files.readAttributes(path, BasicFileAttributes.class)`; None stands
        for the IOException it throws. */
    function ReadAttributes(p: Path): Option<Attributes>
    {
      if p in attributes then Some(attributes[p]) else None
    }

    /** `Files.list(dir).toList()`; None stands for the IOException thrown
        when the directory cannot be opened. */
    function List(dir: Path): Option<Listing>
    {
      if dir in listings then Some(listings[dir]) else None
    }

    /** The directory opens and all of its children are listed. */
    predicate Lists(dir: Path)
    {
      dir in listings && listings[dir].Complete?
    }

    /** The directory opens but its listing breaks part-way. */
    predicate BreaksWhileListing(dir: Path)
    {
      dir in listings && listings[dir].BreaksMidway?
    }
  }
}
