/** Filesystem paths as the directory walks of the automation scripts yield them. */
module Paths {
  import opened Strings

  datatype Kind = Directory | RegularFile | OtherKind

  /** A walked path: the names of its components below the filesystem root, and what it is. */
  datatype Entry = Entry(parts: seq<string>, kind: Kind)

  /** `path.name`; the root's name is empty. */
  function Name(e: Entry): string {
    if e.parts == [] then "" else e.parts[|e.parts| - 1]
  }

  /** Some ancestor of the path has a name in `names` (the root's name is empty). */
  predicate HasAncestorNamed(e: Entry, names: set<string>) {
    exists i :: 0 <= i < |e.parts| - 1 && e.parts[i] in names
  }

  /** `str(path)` of an absolute path. */
  function PathString(parts: seq<string>): string {
    "/" + Join(parts, "/")
  }
}
