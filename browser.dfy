/**
 * The file browser's static storage and its two routines. `entries`,
 * `entryCount` and `chosenFile` are the file-scope and function-scope
 * statics; `currentPath` and `selected` are locals of `OpenFileBrowser`.
 */
module Browser {
  import opened Options
  import opened Keys
  import opened Paths
  import opened Directory
  import opened Navigation

  class FileBrowser {
    const entries: array<Entry>
    var entryCount: int
    /** `chosenFile`, which keeps the returned path after `openFileBrowser` returns. */
    var chosenFile: string

    ghost predicate Valid()
      reads this
    {
      entries.Length == MAX_FILES && 0 <= entryCount <= MAX_FILES
    }

    /** The statics as the program starts: zeroed entries, no count, an empty result. */
    constructor ()
      ensures Valid() && fresh(entries)
      ensures entryCount == 0 && chosenFile == ""
      ensures forall i :: 0 <= i < MAX_FILES ==> entries[i] == Entry("", 0)
    {
      entries := new Entry[MAX_FILES](_ => Entry("", 0));
      entryCount := 0;
      chosenFile := "";
    }

    /**
     * `loadDirectory(path)`: the count drops to 0, and if the directory opens
     * the entries `readdir` returns fill the table from slot 0 until the
     * listing ends or the table is full. Slots beyond the new count keep what
     * they held.
     */
    method LoadDirectory(fs: FileSystem, path: string)
      requires Valid()
      modifies this, entries
      ensures Valid() && chosenFile == old(chosenFile)
      ensures entries[..] == LoadInto(old(entries[..]), fs, path)
      ensures entryCount == |Loaded(fs, path)|
    {
      entryCount := 0;
      if path !in fs.listing {
        return;
      }
      var listing := fs.listing[path];
      ghost var loaded := Loaded(fs, path);
      // `entryCount` is also the position of the next `readdir`.
      while entryCount < |listing| && entryCount < MAX_FILES
        invariant 0 <= entryCount <= |loaded|
        invariant forall j :: 0 <= j < entryCount ==> entries[j] == loaded[j]
        invariant forall j :: entryCount <= j < MAX_FILES ==> entries[j] == old(entries[j])
        invariant chosenFile == old(chosenFile)
        decreases MAX_FILES - entryCount
      {
        var ent := listing[entryCount];
        var isDir := 0;
        if ent.kind == DtDir {
          isDir := 1;
        } else if ent.kind == DtUnknown {
          var fullpath := Join(path, ent.name);
          if fullpath in fs.statDirs {
            isDir := 1;
          } else {
            isDir := 0;
          }
        } else {
          isDir := 0;
        }
        entries[entryCount] := Entry(Truncate(ent.name, NAME_MAX), isDir);
        entryCount := entryCount + 1;
      }
      ghost var after := LoadInto(old(entries[..]), fs, path);
      assert forall j :: 0 <= j < MAX_FILES ==> entries[j] == after[j] by {
        assert after[..entryCount] == loaded && after[entryCount..] == old(entries[..])[entryCount..];
        forall j | 0 <= j < MAX_FILES
          ensures entries[j] == after[j]
        {
          if j < entryCount {
            assert after[j] == after[..entryCount][j];
          } else {
            assert after[j] == after[entryCount..][j - entryCount];
          }
        }
      }
    }

    /** The table, count, path and selection as one navigation state. */
    ghost function View(path: string, selected: int): Browse
      reads this, entries
    {
      Browse(entries[..], if entryCount < 0 then 0 else entryCount, path, selected)
    }

    /** START and B on one frame: `Stop` leaves the browser, returning NULL. */
    method HandleBack(fs: FileSystem, startPath: string, kDown: bv32, path: string, sel: int)
      returns (stop: bool, newPath: string, newSel: int)
      requires Valid() && Navigation.Valid(View(path, sel))
      modifies this, entries
      ensures Valid() && chosenFile == old(chosenFile)
      ensures var s := AfterB(fs, startPath, kDown, old(View(path, sel)));
        (stop <==> s.Stop?) && (stop ==> s.file == None) && View(newPath, newSel) == s.b
    {
      stop, newPath, newSel := false, path, sel;
      if Has(kDown, KEY_START) {
        stop := true;
        return;
      }
      if Has(kDown, KEY_B) {
        if path == startPath {
          stop := true;
          return;
        } else {
          var lastSlash := LastSlash(path);
          if lastSlash > 0 {
            newPath := path[..lastSlash];
            LoadDirectory(fs, newPath);
            newSel := 0;
          }
        }
      }
    }

    /** A on one frame: open the selected directory, or return the selected file's path. */
    method HandleSelect(fs: FileSystem, path: string, sel: int)
      returns (stop: bool, r: Option<string>, newPath: string, newSel: int)
      requires Valid() && Navigation.Valid(View(path, sel))
      modifies this, entries
      ensures Valid()
      ensures var s := PressA(fs, old(View(path, sel)));
        (stop <==> s.Stop?) && (stop ==> r == s.file) && View(newPath, newSel) == s.b
      ensures chosenFile == if stop then r.value else old(chosenFile)
    {
      if entries[sel].isDir != 0 {
        var joined := Join(path, entries[sel].name);
        LoadDirectory(fs, joined);
        stop, r, newPath, newSel := false, None, joined, 0;
      } else {
        chosenFile := Join(path, entries[sel].name);
        stop, r, newPath, newSel := true, Some(chosenFile), path, sel;
      }
    }

    /** DOWN, UP and A on one frame, after START and B have let it go on. */
    method HandleMove(fs: FileSystem, kDown: bv32, path: string, sel: int)
      returns (stop: bool, r: Option<string>, newPath: string, newSel: int)
      requires Valid() && Navigation.Valid(View(path, sel))
      requires (Has(kDown, KEY_DOWN) || Has(kDown, KEY_UP)) ==> entryCount > 0
      modifies this, entries
      ensures Valid()
      ensures var b1 := old(View(path, sel));
        var b2 := if Has(kDown, KEY_DOWN) then PressDown(b1) else b1;
        var b3 := if Has(kDown, KEY_UP) then PressUp(b2) else b2;
        var s := if Has(kDown, KEY_A) then PressA(fs, b3) else Go(b3);
        (stop <==> s.Stop?) && (stop ==> r == s.file) && View(newPath, newSel) == s.b
      ensures chosenFile == if stop && r.Some? then r.value else old(chosenFile)
    {
      newSel := sel;
      if Has(kDown, KEY_DOWN) {
        newSel := (newSel + 1) % entryCount;
      }
      if Has(kDown, KEY_UP) {
        newSel := (newSel - 1 + entryCount) % entryCount;
      }
      stop, r, newPath := false, None, path;
      if Has(kDown, KEY_A) {
        stop, r, newPath, newSel := HandleSelect(fs, path, newSel);
      }
    }

    /** One pass of the browser loop, on the keys newly pressed this frame. */
    method Frame(fs: FileSystem, startPath: string, kDown: bv32, path: string, sel: int)
      returns (stop: bool, r: Option<string>, newPath: string, newSel: int)
      requires Valid() && TickDefined(fs, startPath, kDown, View(path, sel))
      modifies this, entries
      ensures Valid()
      ensures var t := Tick(fs, startPath, kDown, old(View(path, sel)));
        (stop <==> t.Stop?) && (stop ==> r == t.file) && View(newPath, newSel) == t.b
      ensures chosenFile == if stop && r.Some? then r.value else old(chosenFile)
    {
      r := None;
      stop, newPath, newSel := HandleBack(fs, startPath, kDown, path, sel);
      if !stop {
        stop, r, newPath, newSel := HandleMove(fs, kDown, newPath, newSel);
      }
    }

    /**
     * `openFileBrowser(startPath)` over the keys newly pressed on each frame
     * while `aptMainLoop` holds: it returns what `Run` returns, leaves the
     * table as `Run` leaves it, and sets `chosenFile` exactly when it returns
     * a path.
     */
    method OpenFileBrowser(fs: FileSystem, startPath: string, frames: seq<bv32>) returns (r: Option<string>)
      requires Valid() && |startPath| <= PATH_MAX
      requires RunDefined(fs, startPath, Opened(fs, startPath, entries[..]), frames)
      modifies this, entries
      ensures Valid()
      ensures r == Run(fs, startPath, Opened(fs, startPath, old(entries[..])), frames).file
      ensures entries[..] == Run(fs, startPath, Opened(fs, startPath, old(entries[..])), frames).b.slots
      ensures entryCount == Run(fs, startPath, Opened(fs, startPath, old(entries[..])), frames).b.count
      ensures chosenFile == if r.Some? then r.value else old(chosenFile)
    {
      ghost var start := Opened(fs, startPath, entries[..]);
      var currentPath := startPath;
      LoadDirectory(fs, currentPath);
      var selected := 0;
      var k := 0;
      while k < |frames|
        invariant Valid() && k <= |frames| && chosenFile == old(chosenFile)
        invariant RunDefined(fs, startPath, View(currentPath, selected), frames[k..])
        invariant Run(fs, startPath, View(currentPath, selected), frames[k..]) == Run(fs, startPath, start, frames)
      {
        ghost var rest := frames[k..];
        assert rest[0] == frames[k] && rest[1..] == frames[k + 1..];
        var stop;
        stop, r, currentPath, selected := Frame(fs, startPath, frames[k], currentPath, selected);
        if stop {
          return;
        }
        k := k + 1;
      }
      return None;
    }
  }
}
