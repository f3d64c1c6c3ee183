/**
 * `loadDirectory`'s table: what it holds after listing a directory. The file
 * system is an input: `listing` maps each directory `opendir` can open to the
 * entries `readdir` returns, in order; `statDirs` holds the paths `stat`
 * succeeds on and reports as directories.
 */
module Directory {
  import opened Paths

  /** Capacity of the static `entries` table. */
  const MAX_FILES := 512
  /** An entry name is a `char[256]`. */
  const NAME_MAX := 255

  /** A `d_type`: DT_DIR, DT_UNKNOWN, or any other type. */
  datatype DirKind = DtDir | DtUnknown | DtOther

  /** One `struct dirent` as `readdir` returns it. */
  datatype DirEnt = DirEnt(name: string, kind: DirKind)

  /** One slot of the `entries` table. `isDir` is a C `int` flag. */
  datatype Entry = Entry(name: string, isDir: int)

  datatype FileSystem = FileSystem(listing: map<string, seq<DirEnt>>, statDirs: set<string>)

  /** The `isDir` flag stored for `e` found in directory `path`. */
  function IsDirFlag(fs: FileSystem, path: string, e: DirEnt): (r: int)
    ensures r == 0 || r == 1
    ensures r == 1 <==> e.kind == DtDir || (e.kind == DtUnknown && Join(path, e.name) in fs.statDirs)
  {
    match e.kind
    case DtDir => 1
    case DtUnknown => if Join(path, e.name) in fs.statDirs then 1 else 0
    case DtOther => 0
  }

  /** The table slot filled from `e`. */
  function ToEntry(fs: FileSystem, path: string, e: DirEnt): (r: Entry)
    ensures |r.name| <= NAME_MAX && r.name <= e.name
    ensures |e.name| <= NAME_MAX ==> r.name == e.name
    ensures r.isDir == 0 || r.isDir == 1
  {
    Entry(Truncate(e.name, NAME_MAX), IsDirFlag(fs, path, e))
  }

  /** The entries `loadDirectory(path)` stores, in the order `readdir` returned them. */
  function Loaded(fs: FileSystem, path: string): (r: seq<Entry>)
    ensures |r| <= MAX_FILES
    ensures path !in fs.listing ==> r == []
    ensures path in fs.listing ==> |r| == if |fs.listing[path]| <= MAX_FILES then |fs.listing[path]| else MAX_FILES
    ensures forall i :: 0 <= i < |r| ==>
      var e := fs.listing[path][i];
      r[i].name == Truncate(e.name, NAME_MAX) && r[i].isDir == IsDirFlag(fs, path, e)
  {
    if path !in fs.listing then []
    else
      var ls := fs.listing[path];
      var n := if |ls| <= MAX_FILES then |ls| else MAX_FILES;
      seq(n, i requires 0 <= i < n => ToEntry(fs, path, ls[i]))
  }

  /**
   * The whole table after `loadDirectory(path)`: the loaded entries, then
   * whatever the slots beyond them held before.
   */
  function LoadInto(slots: seq<Entry>, fs: FileSystem, path: string): (r: seq<Entry>)
    requires |slots| == MAX_FILES
    ensures |r| == MAX_FILES
    ensures r[..|Loaded(fs, path)|] == Loaded(fs, path)
    ensures r[|Loaded(fs, path)|..] == slots[|Loaded(fs, path)|..]
  {
    Loaded(fs, path) + slots[|Loaded(fs, path)|..]
  }

  /** Loading the same directory again changes nothing. */
  lemma {:induction false} ReloadIdempotent(slots: seq<Entry>, fs: FileSystem, path: string)
    requires |slots| == MAX_FILES
    ensures LoadInto(LoadInto(slots, fs, path), fs, path) == LoadInto(slots, fs, path)
  {
    var n := |Loaded(fs, path)|;
    var once := LoadInto(slots, fs, path);
    assert once[n..] == slots[n..];
    assert LoadInto(once, fs, path) == Loaded(fs, path) + once[n..];
  }
}
