/** Where each fax is: the path name of its folder is written beside it, and read back when
    the program starts again. */
module FaxPlaces {
  import opened Folders

  /** A fax and the folder it is in. */
  datatype Fax = Fax(name: string, path: Path)

  /** The faxes of each folder, in their order. */
  type FaxLists = map<Path, seq<string>>

  function ListAt(lists: FaxLists, path: Path): seq<string>
  {
    if path in lists then lists[path] else []
  }

  function Put(lists: FaxLists, path: Path, name: string): FaxLists
  {
    lists[path := ListAt(lists, path) + [name]]
  }

  /** Where a fax comes back to: a path name that is a divider only stands for the main folder. */
  function Home(inbox: string, path: Path): Path
  {
    if path == [""] then [inbox] else path
  }

  function FaxesOf(faxes: seq<Fax>, inbox: string, path: Path): seq<string>
    decreases |faxes|
  {
    if faxes == [] then []
    else
      var n := |faxes| - 1;
      FaxesOf(faxes[..n], inbox, path) + (if Home(inbox, faxes[n].path) == path then [faxes[n].name] else [])
  }

  /** The faxes of a folder come in the order in which they are read. */
  lemma {:induction false} FaxesJoin(a: seq<Fax>, b: seq<Fax>, inbox: string, path: Path)
    ensures FaxesOf(a + b, inbox, path) == FaxesOf(a, inbox, path) + FaxesOf(b, inbox, path)
    decreases |b|
  {
    hide Home;
    if b == [] {
      assert a + b == a;
    } else {
      var init, last := b[..|b| - 1], b[|b| - 1];
      assert (a + b)[..|a + b| - 1] == a + init && (a + b)[|a + b| - 1] == last;
      FaxesJoin(a, init, inbox, path);
    }
  }

  // Known folders.

  lemma {:induction false} FindAppended(fs: seq<Folder>, f: Folder, name: string)
    requires Find(fs, name) >= 0
    ensures Find(fs + [f], name) == Find(fs, name)
  {
    assert (fs + [f])[..|fs|] == fs;
  }

  /** Adding folders takes none away. */
  lemma {:induction false} InsertKeeps(fs: seq<Folder>, path: Path, other: Path)
    requires Has(fs, other)
    ensures Has(Insert(fs, path), other)
    decreases |path|
  {
    if path != [] && other != [] {
      var i := Find(fs, path[0]);
      if i < 0 {
        FindAppended(fs, Chain(path), other[0]);
      } else {
        var f := Folder(path[0], Insert(fs[i].kids, path[1..]));
        FindOther(fs, f, i, other[0]);
        if other[0] == path[0] { InsertKeeps(fs[i].kids, path[1..], other[1..]); }
      }
    }
  }

  lemma {:induction false} InsertAllKeeps(fs: seq<Folder>, paths: seq<Path>, other: Path)
    requires Has(fs, other)
    ensures Has(InsertAll(fs, paths), other)
    decreases |paths|
  {
    if paths != [] {
      InsertKeeps(fs, paths[0], other);
      InsertAllKeeps(Insert(fs, paths[0]), paths[1..], other);
    }
  }

  /** After a list of path names is read, each of them is known. */
  lemma {:induction false} InsertAllHas(fs: seq<Folder>, paths: seq<Path>, i: nat)
    requires i < |paths|
    ensures Has(InsertAll(fs, paths), paths[i])
    decreases |paths|
  {
    if i == 0 {
      InsertDeeper(fs, paths[0], "");
      InsertAllKeeps(Insert(fs, paths[0]), paths[1..], paths[0]);
    } else {
      InsertAllHas(Insert(fs, paths[0]), paths[1..], i - 1);
    }
  }

  /** A path in the list. */
  predicate Listed(paths: seq<Path>, path: Path)
  {
    exists k: nat :: k < |paths| && paths[k] == path
  }

  lemma {:induction false} ListedFirst(fs: seq<Folder>, path: Path)
    requires fs != [] && path != [] && path[0] == fs[0].name
    requires path[1..] == [] || Listed(Preorder(fs[0].kids), path[1..])
    ensures Listed(Preorder(fs), path)
  {
    var inside := Preorder(fs[0].kids);
    assert path == [path[0]] + path[1..];
    if path[1..] == [] {
      assert Preorder(fs)[0] == path;
    } else {
      var k: nat :| k < |inside| && inside[k] == path[1..];
      assert Preorder(fs)[1 + k] == Under(path[0], inside)[k] == path;
    }
  }

  lemma {:induction false} ListedLater(fs: seq<Folder>, path: Path)
    requires fs != [] && Listed(Preorder(fs[1..]), path)
    ensures Listed(Preorder(fs), path)
  {
    var later := Preorder(fs[1..]);
    var k: nat :| k < |later| && later[k] == path;
    var before := [[fs[0].name]] + Under(fs[0].name, Preorder(fs[0].kids));
    assert Preorder(fs)[|before| + k] == path;
  }

  /** Every folder's path is in the list written. */
  lemma {:induction false} HasListed(fs: seq<Folder>, path: Path)
    requires path != [] && Has(fs, path)
    ensures Listed(Preorder(fs), path)
    decreases fs
  {
    FindFirst(fs, path[0]);
    if fs[0].name == path[0] {
      if path[1..] != [] { HasListed(fs[0].kids, path[1..]); }
      ListedFirst(fs, path);
    } else {
      HasListed(fs[1..], path);
      ListedLater(fs, path);
    }
  }

  /** Every folder's path consists of its names. */
  lemma {:induction false} HasClean(fs: seq<Folder>, path: Path)
    requires CleanNames(fs) && Has(fs, path)
    ensures Clean(path)
    decreases |path|
  {
    if path != [] {
      var i := Find(fs, path[0]);
      CleanAt(fs, i);
      HasClean(fs[i].kids, path[1..]);
      assert path == [path[0]] + path[1..];
    }
  }

  lemma {:induction false} CleanAt(fs: seq<Folder>, i: nat)
    requires CleanNames(fs) && i < |fs|
    ensures DIVIDER !in fs[i].name && CleanNames(fs[i].kids)
  {
    if i > 0 { CleanAt(fs[1..], i - 1); }
  }

  /** After a restart every folder that was there is there. */
  lemma {:induction false} StillThere(gs: seq<Folder>, fs: seq<Folder>, path: Path)
    requires Has(fs, path)
    ensures Has(InsertAll(gs, Preorder(fs)), path)
  {
    if path != [] {
      HasListed(fs, path);
      var k: nat :| k < |Preorder(fs)| && Preorder(fs)[k] == path;
      InsertAllHas(gs, Preorder(fs), k);
    }
  }

  /** At most one path has the path name on a line. */
  lemma {:induction false} OnePath(line: string, lead: string, path: Path)
    requires DIVIDER !in lead && Clean(path) && line == lead + Print(path)
    ensures forall p: Path | Clean(p) && Print(p) == line :: lead == "" && p == path
    ensures lead == "" ==> line == Print(path)
  {
    forall p: Path | Clean(p) && Print(p) == line ensures lead == "" && p == path {
      assert "" + Print(p) == Print(p);
      LineUnique("", p, lead, path);
    }
  }

  // Putting the faxes back.

  /** The lists hold the first n faxes. */
  ghost predicate Placed(lists: FaxLists, faxes: seq<Fax>, inbox: string, n: nat)
  {
    n <= |faxes| && forall path: Path :: ListAt(lists, path) == FaxesOf(faxes[..n], inbox, path)
  }

  lemma {:induction false} PlacedNext(lists: FaxLists, faxes: seq<Fax>, inbox: string, n: nat)
    requires n < |faxes| && Placed(lists, faxes, inbox, n)
    ensures Placed(Put(lists, Home(inbox, faxes[n].path), faxes[n].name), faxes, inbox, n + 1)
  {
    assert faxes[..n + 1][..n] == faxes[..n];
    forall path: Path
      ensures ListAt(Put(lists, Home(inbox, faxes[n].path), faxes[n].name), path)
           == FaxesOf(faxes[..n + 1], inbox, path)
    {
      assert ListAt(lists, path) == FaxesOf(faxes[..n], inbox, path);
    }
  }

  /** The folders, with the faxes in them. */
  class FaxStore {
    const inbox: string
    const store: FolderStore
    var lists: FaxLists

    ghost predicate Valid()
      reads this, store
    {
      store.Valid() && DIVIDER !in inbox && Has(store.folders, [inbox])
    }

    constructor (inbox: string, trash: string)
      requires DIVIDER !in inbox && DIVIDER !in trash && inbox != trash
      ensures Valid() && fresh(store) && this.inbox == inbox && lists == map[]
      ensures store.folders == [Folder(inbox, []), Folder(trash, [])] && store.names == NamesIn(store.folders)
    {
      this.inbox := inbox;
      lists := map[];
      store := new FolderStore(inbox, trash);
      new;
      StartHas(inbox, trash, [inbox]);
    }

    /** Put a fax last in the folder of a known path name. */
    method InsertFax(pathName: string, name: string, ghost path: Path)
      requires Valid() && path != [] && Clean(path) && pathName == Print(path) && Has(store.folders, path)
      modifies this`lists
      ensures Valid() && lists == Put(old(lists), path, name)
    {
      assert Knows(store.folders, store.known, path);
      if pathName in store.known {
        lists := Put(lists, store.known[pathName], name);
      }
    }

    /** Put a fax in the main folder. */
    method InsertInBase(name: string)
      requires Valid()
      modifies this`lists
      ensures Valid() && lists == Put(old(lists), [inbox], name)
    {
      SinglePath(inbox);
      InsertFax([DIVIDER] + inbox, name, [inbox]);
    }

    /** Put a fax where the line read from its Path file says, making the folder if it is not
        there; and in the main folder if the line says nothing. */
    method PlaceFax(line: string, name: string) returns (ghost lead: string, ghost path: Path)
      requires Valid()
      modifies this`lists, store
      ensures Valid()
      ensures line == "" || line[0] != DIVIDER || line == [DIVIDER] ==>
                lists == Put(old(lists), [inbox], name) && store.folders == old(store.folders)
      ensures forall path: Path | path != [] && path != [""] && Clean(path) && Print(path) == line ::
                lists == Put(old(lists), path, name) && store.folders == Insert(old(store.folders), path)
      ensures DIVIDER !in lead && Clean(path) && line == lead + Print(path)
      ensures store.names == old(store.names) + (if line == [DIVIDER] then {} else Names(path))
    {
      lead, path := EveryLine(line);
      if path != [] { HasDivider(lead, path); }
      SinglePath("");
      LineStart(lead, path);
      OnePath(line, lead, path);
      if line == [DIVIDER] || line == "" {
        InsertInBase(name);
      } else {
        ghost var was, names := store.folders, store.names;
        var ok := store.GetFolders(line);
        assert store.Added(lead, path, ok, was, names);
        if ok {
          assert line == Print(path);
          InsertDeeper(was, path, "");
          InsertKeeps(was, path, [inbox]);
          InsertFax(line, name, path);
        } else {
          InsertInBase(name);
        }
      }
    }

    /** Read the Path files of the faxes. */
    method PlaceAll(faxes: seq<Fax>)
      requires Valid() && lists == map[]
      requires forall i | 0 <= i < |faxes| ::
                 faxes[i].path != [] && Clean(faxes[i].path) && Has(store.folders, faxes[i].path)
      modifies this`lists, store
      ensures Valid() && store.folders == old(store.folders) && store.names == old(store.names)
      ensures Placed(lists, faxes, inbox, |faxes|)
    {
      for i := 0 to |faxes|
        invariant Valid() && store.folders == old(store.folders) && store.names == old(store.names)
        invariant Placed(lists, faxes, inbox, i)
      {
        SinglePath("");
        InsertKnown(store.folders, faxes[i].path);
        HasNames(store.folders, faxes[i].path);
        PlacedNext(lists, faxes, inbox, i);
        ghost var lead, path := PlaceFax(Print(faxes[i].path), faxes[i].name);
        OnePath(Print(faxes[i].path), lead, path);
      }
    }
  }

  /** Write the list of path names and each fax's own, start again, and read them: the folders
      are those that were there, the validator has their names, and each fax is in its folder. */
  method RestartWithFaxes(fs: seq<Folder>, faxes: seq<Fax>, inbox: string, trash: string)
    returns (again: seq<Folder>, names: set<string>, lists: FaxLists)
    requires Distinct(fs) && CleanNames(fs) && inbox != trash && DIVIDER !in inbox && DIVIDER !in trash
    requires forall i | 0 <= i < |faxes| :: faxes[i].path != [] && Has(fs, faxes[i].path)
    ensures again == [Folder(inbox, KidsOf(fs, inbox)), Folder(trash, KidsOf(fs, trash))] + Others(fs, inbox, trash)
    ensures names == NamesIn(again)
    ensures forall path: Path :: ListAt(lists, path) == FaxesOf(faxes, inbox, path)
  {
    var lines := WritePathsForLevel(fs, []);
    var m := new FaxStore(inbox, trash);
    ghost var before := m.store.folders;
    ReadWritten(m.store, lines, fs);
    Restart(inbox, trash, fs);
    InsertAllKeeps(before, Preorder(fs), [inbox]);
    forall i | 0 <= i < |faxes| ensures Clean(faxes[i].path) && Has(m.store.folders, faxes[i].path) {
      HasClean(fs, faxes[i].path);
      StillThere(before, fs, faxes[i].path);
    }
    m.PlaceAll(faxes);
    again, names, lists := m.store.folders, m.store.names, m.lists;
    assert faxes[..|faxes|] == faxes;
  }
}
