/**
 * One tick of `openFileBrowser`'s loop as a function of the keys pressed on
 * that frame: START, then B, DOWN, UP and A, each handler seeing the state
 * the previous one left. `Run` strings ticks together over a sequence of
 * frames; when the frames run out (`aptMainLoop` fails) the browser returns
 * NULL.
 */
module Navigation {
  import opened Options
  import opened Keys
  import opened Paths
  import opened Directory

  /** The browser's state: the `entries` table, `entryCount`, `currentPath` and `selected`. */
  datatype Browse = Browse(slots: seq<Entry>, count: nat, path: string, selected: int)

  /**
   * What every handler keeps: a full table, a count within it, and a
   * selection that is either on a loaded entry or the first slot (after a
   * reload that found nothing).
   */
  predicate Valid(b: Browse)
  {
    |b.slots| == MAX_FILES && b.count <= MAX_FILES && 0 <= b.selected && (b.selected == 0 || b.selected < b.count)
  }

  /** `loadDirectory(p)`, with `p` becoming the current path and the selection reset to 0. */
  function Enter(fs: FileSystem, b: Browse, p: string): (r: Browse)
    requires |b.slots| == MAX_FILES
    ensures Valid(r)
  {
    Browse(LoadInto(b.slots, fs, p), |Loaded(fs, p)|, p, 0)
  }

  /** The state `openFileBrowser(start)` enters its loop in, over the table as it was. */
  function Opened(fs: FileSystem, start: string, slots: seq<Entry>): (r: Browse)
    requires |slots| == MAX_FILES
    ensures Valid(r)
  {
    Enter(fs, Browse(slots, 0, start, 0), start)
  }

  /** A handler either lets the tick go on with a new state or returns from the browser. */
  datatype Step = Go(b: Browse) | Stop(file: Option<string>, b: Browse)

  /** B: leave at the start path; otherwise go up to the last slash, unless that is the first character. */
  function PressB(fs: FileSystem, start: string, b: Browse): (r: Step)
    requires Valid(b)
    ensures Valid(r.b)
  {
    if b.path == start then Stop(None, b)
    else
      var i := LastSlash(b.path);
      if i > 0 then Go(Enter(fs, b, b.path[..i])) else Go(b)
  }

  /** DOWN: the next entry, from the last back to the first. */
  function PressDown(b: Browse): (r: Browse)
    requires Valid(b) && b.count > 0
    ensures Valid(r) && r == b.(selected := r.selected)
    ensures r.selected == if b.selected == b.count - 1 then 0 else b.selected + 1
  {
    b.(selected := (b.selected + 1) % b.count)
  }

  /** UP: the previous entry, from the first round to the last. */
  function PressUp(b: Browse): (r: Browse)
    requires Valid(b) && b.count > 0
    ensures Valid(r) && r == b.(selected := r.selected)
    ensures r.selected == if b.selected == 0 then b.count - 1 else b.selected - 1
  {
    b.(selected := (b.selected - 1 + b.count) % b.count)
  }

  /** A: descend into a directory entry, or return the path of a file entry. */
  function PressA(fs: FileSystem, b: Browse): (r: Step)
    requires Valid(b)
    ensures Valid(r.b)
  {
    var e := b.slots[b.selected];
    var p := Join(b.path, e.name);
    if e.isDir != 0 then Go(Enter(fs, b, p)) else Stop(Some(p), b)
  }

  /** The START and B handlers. */
  function AfterB(fs: FileSystem, start: string, keys: bv32, b: Browse): (r: Step)
    requires Valid(b)
    ensures Valid(r.b)
  {
    if Has(keys, KEY_START) then Stop(None, b)
    else if Has(keys, KEY_B) then PressB(fs, start, b)
    else Go(b)
  }

  /** A tick is defined unless DOWN or UP divides by an `entryCount` of 0. */
  predicate TickDefined(fs: FileSystem, start: string, keys: bv32, b: Browse)
  {
    Valid(b) &&
    var s := AfterB(fs, start, keys, b);
    s.Go? && (Has(keys, KEY_DOWN) || Has(keys, KEY_UP)) ==> s.b.count > 0
  }

  /** One pass of the loop body for the keys newly pressed on this frame. */
  function Tick(fs: FileSystem, start: string, keys: bv32, b: Browse): (r: Step)
    requires TickDefined(fs, start, keys, b)
    ensures Valid(r.b)
  {
    match AfterB(fs, start, keys, b)
    case Stop(f, b1) => Stop(f, b1)
    case Go(b1) =>
      var b2 := if Has(keys, KEY_DOWN) then PressDown(b1) else b1;
      var b3 := if Has(keys, KEY_UP) then PressUp(b2) else b2;
      if Has(keys, KEY_A) then PressA(fs, b3) else Go(b3)
  }

  /** Every tick of a run over `frames` is defined, up to the one that returns. */
  predicate RunDefined(fs: FileSystem, start: string, b: Browse, frames: seq<bv32>)
    decreases |frames|
  {
    frames == [] ||
    (TickDefined(fs, start, frames[0], b) &&
     (Tick(fs, start, frames[0], b).Go? ==> RunDefined(fs, start, Tick(fs, start, frames[0], b).b, frames[1..])))
  }

  /** What `openFileBrowser` returns, and the state it leaves the table in. */
  datatype Outcome = Outcome(file: Option<string>, b: Browse)

  /** A session keeps the table, count and selection well formed, whether it returns or the frames run out. */
  function Run(fs: FileSystem, start: string, b: Browse, frames: seq<bv32>): (r: Outcome)
    requires RunDefined(fs, start, b, frames)
    ensures Valid(b) ==> Valid(r.b)
    decreases |frames|
  {
    if frames == [] then Outcome(None, b)
    else
      match Tick(fs, start, frames[0], b)
      case Stop(f, b1) => Outcome(f, b1)
      case Go(b1) => Run(fs, start, b1, frames[1..])
  }

  /** START always leaves the browser, returning NULL and changing nothing. */
  lemma StartQuits(fs: FileSystem, start: string, keys: bv32, b: Browse)
    requires Valid(b) && Has(keys, KEY_START)
    ensures TickDefined(fs, start, keys, b) && Tick(fs, start, keys, b) == Stop(None, b)
  {
  }

  /** B at the start path leaves the browser, returning NULL. */
  lemma BackAtStartQuits(fs: FileSystem, start: string, keys: bv32, b: Browse)
    requires Valid(b) && Has(keys, KEY_B) && b.path == start
    ensures TickDefined(fs, start, keys, b) && Tick(fs, start, keys, b) == Stop(None, b)
  {
  }

  /**
   * B below the start path drops the last path component: the new path is
   * the old one up to its last slash, that slash is not the first character,
   * and the directory is reloaded with the first entry selected. When the
   * only slash is the first character, or there is none, nothing changes.
   */
  lemma BackAscends(fs: FileSystem, start: string, b: Browse)
    requires Valid(b) && b.path != start
    ensures PressB(fs, start, b).Go?
    ensures (exists j :: 0 < j < |b.path| && b.path[j] == '/') ==>
      var r := PressB(fs, start, b).b;
      0 < |r.path| < |b.path| && b.path[..|r.path|] == r.path && b.path[|r.path|] == '/' &&
      (forall j :: |r.path| < j < |b.path| ==> b.path[j] != '/') &&
      r == Enter(fs, b, r.path)
    ensures (forall j :: 0 < j < |b.path| ==> b.path[j] != '/') ==> PressB(fs, start, b).b == b
  {
  }

  /**
   * A on a directory entry opens it: the current path becomes the joined
   * path, the table starts with that directory's entries and the first is
   * selected. A on any other entry returns the joined path and changes nothing.
   */
  lemma SelectEntry(fs: FileSystem, b: Browse)
    requires Valid(b)
    ensures var e := b.slots[b.selected]; var p := Join(b.path, e.name); var r := PressA(fs, b);
      (r.Go? <==> e.isDir != 0) &&
      (r.Go? ==> r.b.path == p && r.b.selected == 0 && r.b.count == |Loaded(fs, p)| &&
                 r.b.slots[..r.b.count] == Loaded(fs, p)) &&
      (r.Stop? ==> r == Stop(Some(p), b))
  {
  }

  /** UP undoes DOWN and DOWN undoes UP. */
  lemma DownUpInverse(b: Browse)
    requires Valid(b) && b.count > 0
    ensures PressUp(PressDown(b)) == b
    ensures PressDown(PressUp(b)) == b
  {
  }

  /** A path below `start`: `start` itself, or `start` followed by a slash and more. */
  predicate UnderStart(start: string, path: string)
  {
    |path| <= PATH_MAX && start <= path && (|path| > |start| ==> path[|start|] == '/')
  }

  /** A path joined onto a path below `start` is below `start` too, whatever the name. */
  lemma JoinUnderStart(start: string, path: string, name: string)
    requires UnderStart(start, path)
    ensures UnderStart(start, Join(path, name))
  {
    var full := path + "/" + name;
    var r := Join(path, name);
    assert r[..|path|] == full[..|path|] == path;
    if |r| > |start| && |path| == |start| {
      assert r[|start|] == full[|path|] == '/';
    }
  }

  /** Going up with B never leaves the start path. */
  lemma AfterBUnderStart(fs: FileSystem, start: string, keys: bv32, b: Browse)
    requires Valid(b) && UnderStart(start, b.path)
    ensures UnderStart(start, AfterB(fs, start, keys, b).b.path)
  {
    if !Has(keys, KEY_START) && Has(keys, KEY_B) && b.path != start {
      var i := LastSlash(b.path);
      assert b.path[|start|] == '/';
      if i > 0 {
        assert |start| <= i;
        assert b.path[..i][..|start|] == start;
      }
    }
  }

  /**
   * Every tick keeps the current path below the start path, and a returned
   * file path is below it too.
   */
  lemma TickUnderStart(fs: FileSystem, start: string, keys: bv32, b: Browse)
    requires TickDefined(fs, start, keys, b) && UnderStart(start, b.path)
    ensures var r := Tick(fs, start, keys, b);
      UnderStart(start, r.b.path) && (r.Stop? && r.file.Some? ==> UnderStart(start, r.file.value))
  {
    AfterBUnderStart(fs, start, keys, b);
    var s := AfterB(fs, start, keys, b);
    if s.Go? {
      var b2 := if Has(keys, KEY_DOWN) then PressDown(s.b) else s.b;
      var b3 := if Has(keys, KEY_UP) then PressUp(b2) else b2;
      assert b3.path == s.b.path;
      if Has(keys, KEY_A) {
        PressAUnderStart(fs, start, b3);
      }
    }
  }

  /** A keeps the path below the start path, and so is the file path it returns. */
  lemma PressAUnderStart(fs: FileSystem, start: string, b: Browse)
    requires Valid(b) && UnderStart(start, b.path)
    ensures var r := PressA(fs, b);
      UnderStart(start, r.b.path) && (r.Stop? && r.file.Some? ==> UnderStart(start, r.file.value))
  {
    JoinUnderStart(start, b.path, b.slots[b.selected].name);
  }

  /** A whole run keeps the path below the start path, and so is any file it returns. */
  lemma {:induction false} RunUnderStart(fs: FileSystem, start: string, b: Browse, frames: seq<bv32>)
    requires RunDefined(fs, start, b, frames) && UnderStart(start, b.path)
    ensures var o := Run(fs, start, b, frames);
      UnderStart(start, o.b.path) && (o.file.Some? ==> UnderStart(start, o.file.value))
    decreases |frames|
  {
    if frames != [] {
      TickUnderStart(fs, start, frames[0], b);
      var r := Tick(fs, start, frames[0], b);
      if r.Go? {
        RunUnderStart(fs, start, r.b, frames[1..]);
      }
    }
  }

  /**
   * Opening a directory entry with A on one frame and pressing B on the
   * next brings the browser back to the directory it was in, reloaded, with
   * the first entry selected; this needs a slash-free name whose joined path
   * fits in 511 characters.
   */
  lemma DescendThenBack(fs: FileSystem, start: string, b: Browse)
    requires Valid(b) && UnderStart(start, b.path) && b.path != ""
    requires var e := b.slots[b.selected];
      e.isDir != 0 && |b.path| + 1 + |e.name| <= PATH_MAX && forall j :: 0 <= j < |e.name| ==> e.name[j] != '/'
    ensures TickDefined(fs, start, KEY_A, b)
    ensures var d := Tick(fs, start, KEY_A, b);
      d.Go? && d.b.path == b.path + "/" + b.slots[b.selected].name &&
      TickDefined(fs, start, KEY_B, d.b) &&
      Tick(fs, start, KEY_B, d.b) == Go(Enter(fs, d.b, b.path))
  {
    var name := b.slots[b.selected].name;
    LastSlashOfJoin(b.path, name);
  }

  /**
   * From the empty path (where only an empty start path can leave the
   * browser), A into a directory gives `/name`, whose only slash is its
   * first character, so B afterwards changes nothing: the descent cannot be
   * undone.
   */
  lemma DescendFromEmptyStuck(fs: FileSystem, start: string, b: Browse)
    requires Valid(b) && UnderStart(start, b.path) && b.path == ""
    requires var e := b.slots[b.selected];
      e.isDir != 0 && 1 + |e.name| <= PATH_MAX && forall j :: 0 <= j < |e.name| ==> e.name[j] != '/'
    ensures TickDefined(fs, start, KEY_A, b)
    ensures var d := Tick(fs, start, KEY_A, b);
      d.Go? && d.b.path == "/" + b.slots[b.selected].name &&
      TickDefined(fs, start, KEY_B, d.b) &&
      Tick(fs, start, KEY_B, d.b) == Go(d.b)
  {
    var name := b.slots[b.selected].name;
    LastSlashOfJoin(b.path, name);
  }
}
