/**
 * The abstract filesystem the engine walks instead of `os.Open` / `Readdir` / `os.Stat`.
 */
module FileSystem {
  import opened Wrappers

  /** One directory entry as `Readdir` reports it, together with what a later `os.Open` of it
      would find: whether it can be opened and listed, and its own entries in listing order. */
  datatype Entry = Entry(
    name: string,
    isDir: bool,
    size: int,
    modTime: int,      // time.Time reduced to an integer timestamp
    mode: bv32,        // os.FileMode permission and type bits
    readable: bool,    // os.Open and Readdir succeed on it
    children: seq<Entry>)

  /** `os.Open` followed by `Readdir(-1)`: the entries in listing order, or None when either call
      fails. Readdir on something that is not a directory fails too. */
  function Listing(d: Entry): Option<seq<Entry>> {
    if d.isDir && d.readable then Some(d.children) else None
  }

  /** `isExecutable`: some execute bit (owner, group or other) is set. */
  predicate IsExecutable(mode: bv32)
    ensures IsExecutable(mode) <==> (mode & 0x40 != 0 || mode & 0x8 != 0 || mode & 0x1 != 0)
  {
    mode & 0x49 != 0
  }
}
