/**
 * The part of the host filesystem that migration 0.8.0 touches: a map from
 * paths to file entries. Paths are absolute and kept as their components,
 * the way `pathlib.Path` composes them with `/`.
 */
module Files {

  /** An absolute path, as its components: `/usr/share` is ["usr", "share"]. */
  datatype Path = Path(parts: seq<string>)

  /** pathlib's `p / name` for a single component: an empty component adds
      nothing, as `Path("/a") / ""` is `Path("/a")`. */
  function Join(p: Path, name: string): (r: Path)
    ensures name == "" ==> r == p
    ensures name != "" ==> Parent(r) == p && Name(r) == name
  {
    if name == "" then p else Path(p.parts + [name])
  }

  /** pathlib's `p.name`: the last component, "" for the root. */
  function Name(p: Path): string
  {
    if p.parts == [] then "" else p.parts[|p.parts| - 1]
  }

  /** pathlib's `p.parent`: the root is its own parent. */
  function Parent(p: Path): Path
  {
    if p.parts == [] then p else Path(p.parts[..|p.parts| - 1])
  }

  /** A regular file: its contents, owner and permission bits. */
  datatype Entry = Entry(data: string, uid: int, gid: int, mode: int)

  /** The filesystem the migration steps act on. */
  class FileSystem {
    var entries: map<Path, Entry>

    constructor (entries: map<Path, Entry>)
      ensures this.entries == entries
    {
      this.entries := entries;
    }
  }
}
