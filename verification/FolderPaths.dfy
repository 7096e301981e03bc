/** Where folders are after a folder is dragged: the moved one is where it was dropped, with
    what was in it, and every other one is where it was. */
module FolderPaths {
  import Folders
  import opened FolderMoves

  lemma {:induction false} PathCons(f: Node, others: seq<Node>, r: nat)
    requires r in Rows([f] + others)
    ensures f.row == r ==> PathTo([f] + others, r) == [f.name]
    ensures f.row != r && r in Rows(f.kids) ==> PathTo([f] + others, r) == [f.name] + PathTo(f.kids, r)
    ensures f.row != r && r !in Rows(f.kids) ==>
              r in Rows(others) && PathTo([f] + others, r) == PathTo(others, r)
  {
    assert ([f] + others)[1..] == others;
  }

  lemma {:induction false} GetCons(f: Node, others: seq<Node>, r: nat)
    requires r in Rows([f] + others)
    ensures f.row == r ==> Get([f] + others, r) == f
    ensures f.row != r && r in Rows(f.kids) ==> Get([f] + others, r) == Get(f.kids, r)
    ensures f.row != r && r !in Rows(f.kids) ==> r in Rows(others) && Get([f] + others, r) == Get(others, r)
  {
    assert ([f] + others)[1..] == others;
  }

  /** A new folder beside or in the first one leaves the others where they are. */
  lemma {:induction false} PlaceHerePath(fs: seq<Node>, dest: nat, drop: Drop, node: Node, r: nat)
    requires fs != [] && fs[0].row == dest && r in Rows(fs) && TreeRows(node) !! Rows(fs)
    ensures r in Rows(Place(fs, dest, drop, node)) && PathTo(Place(fs, dest, drop, node), r) == PathTo(fs, r)
  {
    var f, tail := fs[0], fs[1..];
    match drop
    case Above =>
      NodeRows(node, fs);
      PathCons(node, fs, r);
    case Below =>
      assert [f, node] + tail == [f] + ([node] + tail);
      NodeRows(node, tail);
      NodeRows(f, [node] + tail);
      PathCons(f, [node] + tail, r);
      if r in Rows(tail) { PathCons(node, tail, r); }
    case Inside =>
      NodeRows(node, f.kids);
      NodeRows(f.(kids := [node] + f.kids), tail);
      PathCons(f.(kids := [node] + f.kids), tail, r);
      if r in Rows(f.kids) { PathCons(node, f.kids, r); }
  }

  /** A new folder leaves the others where they are. */
  lemma {:induction false} PlacePath(fs: seq<Node>, dest: nat, drop: Drop, node: Node, r: nat)
    requires Unique(fs) && dest in Rows(fs) && UniqueTree(node) && TreeRows(node) !! Rows(fs) && r in Rows(fs)
    ensures r in Rows(Place(fs, dest, drop, node)) && PathTo(Place(fs, dest, drop, node), r) == PathTo(fs, r)
    decreases fs
  {
    var f, tail := fs[0], fs[1..];
    PlaceRows(fs, dest, drop, node);
    if f.row == dest {
      PlaceHerePath(fs, dest, drop, node, r);
    } else if dest in Rows(f.kids) {
      PlaceAbsent(tail, dest, drop, node);
      PlaceRows(f.kids, dest, drop, node);
      if r in Rows(f.kids) { PlacePath(f.kids, dest, drop, node, r); }
      PathCons(f.(kids := Place(f.kids, dest, drop, node)), tail, r);
    } else {
      PlaceAbsent(f.kids, dest, drop, node);
      if r in Rows(tail) { PlacePath(tail, dest, drop, node, r); }
      PathCons(f, Place(tail, dest, drop, node), r);
    }
  }

  /** The path that a folder dropped there gets. */
  function DropPath(fs: seq<Node>, dest: nat, drop: Drop, name: string): Folders.Path
    requires dest in Rows(fs)
  {
    (if drop == Inside then PathTo(fs, dest) else DropLast(PathTo(fs, dest))) + [name]
  }

  /** A new folder is where it was dropped. */
  lemma {:induction false} PlacedAt(fs: seq<Node>, dest: nat, drop: Drop, node: Node)
    requires Unique(fs) && dest in Rows(fs) && UniqueTree(node) && TreeRows(node) !! Rows(fs)
    ensures var r := Place(fs, dest, drop, node);
      node.row in Rows(r) && Get(r, node.row) == node && PathTo(r, node.row) == DropPath(fs, dest, drop, node.name)
    decreases fs
  {
    var f, tail := fs[0], fs[1..];
    PlaceRows(fs, dest, drop, node);
    if f.row == dest {
      PlacedHere(fs, dest, drop, node);
    } else if dest in Rows(f.kids) {
      PlaceAbsent(tail, dest, drop, node);
      PlacedAt(f.kids, dest, drop, node);
      PathCons(f.(kids := Place(f.kids, dest, drop, node)), tail, node.row);
      GetCons(f.(kids := Place(f.kids, dest, drop, node)), tail, node.row);
      InsideFirst(f.name, PathTo(f.kids, dest), node.name);
    } else {
      PlaceAbsent(f.kids, dest, drop, node);
      PlacedAt(tail, dest, drop, node);
      PathCons(f, Place(tail, dest, drop, node), node.row);
      GetCons(f, Place(tail, dest, drop, node), node.row);
    }
  }

  lemma {:induction false} InsideFirst(first: string, path: Folders.Path, name: string)
    requires path != []
    ensures [first] + (path + [name]) == ([first] + path) + [name]
    ensures [first] + (DropLast(path) + [name]) == DropLast([first] + path) + [name]
  {
  }

  lemma {:induction false} PlacedHere(fs: seq<Node>, dest: nat, drop: Drop, node: Node)
    requires fs != [] && fs[0].row == dest && UniqueTree(node) && TreeRows(node) !! Rows(fs)
    ensures var r := Place(fs, dest, drop, node);
      node.row in Rows(r) && Get(r, node.row) == node && PathTo(r, node.row) == DropPath(fs, dest, drop, node.name)
  {
    var f, tail := fs[0], fs[1..];
    match drop
    case Above =>
      NodeRows(node, fs);
      PathCons(node, fs, node.row);
    case Below =>
      assert [f, node] + tail == [f] + ([node] + tail);
      NodeRows(node, tail);
      NodeRows(f, [node] + tail);
      PathCons(f, [node] + tail, node.row);
      PathCons(node, tail, node.row);
      GetCons(f, [node] + tail, node.row);
    case Inside =>
      NodeRows(node, f.kids);
      NodeRows(f.(kids := [node] + f.kids), tail);
      PathCons(f.(kids := [node] + f.kids), tail, node.row);
      PathCons(node, f.kids, node.row);
      GetCons(f.(kids := [node] + f.kids), tail, node.row);
  }

  /** Removing a folder leaves those that are not in it where they are. */
  lemma {:induction false} RemovePath(fs: seq<Node>, row: nat, r: nat)
    requires Unique(fs) && row in Rows(fs) && r in Rows(fs) && r !in TreeRows(Get(fs, row))
    ensures r in Rows(Remove(fs, row)) && PathTo(Remove(fs, row), r) == PathTo(fs, r)
    decreases fs
  {
    var f, tail := fs[0], fs[1..];
    RemoveRows(fs, row);
    if f.row != row {
      if row in Rows(f.kids) {
        RemoveAbsent(tail, row);
        RemoveRows(f.kids, row);
        if r in Rows(f.kids) { RemovePath(f.kids, row, r); }
      } else {
        RemoveAbsent(f.kids, row);
        if r in Rows(tail) { RemovePath(tail, row, r); }
      }
      PathCons(f.(kids := Remove(f.kids, row)), Remove(tail, row), r);
    }
  }

  /** Removing a folder leaves those that are neither in it nor around it as they are. */
  lemma {:induction false} RemoveGet(fs: seq<Node>, row: nat, r: nat)
    requires Unique(fs) && row in Rows(fs) && r in Rows(fs)
    requires r !in TreeRows(Get(fs, row)) && row !in TreeRows(Get(fs, r))
    ensures r in Rows(Remove(fs, row)) && Get(Remove(fs, row), r) == Get(fs, r)
    decreases fs
  {
    var f, tail := fs[0], fs[1..];
    RemoveRows(fs, row);
    if f.row != row {
      if row in Rows(f.kids) {
        RemoveAbsent(tail, row);
        RemoveRows(f.kids, row);
        if r in Rows(f.kids) { RemoveGet(f.kids, row, r); }
      } else {
        RemoveAbsent(f.kids, row);
        if r in Rows(tail) { RemoveGet(tail, row, r); }
      }
      GetCons(f.(kids := Remove(f.kids, row)), Remove(tail, row), r);
    }
  }

  /** A move leaves every folder where it is that is neither the one moved nor in it. */
  lemma {:induction false} OthersStay(t: Tree, source: nat, dest: nat, drop: Drop, r: nat)
    requires Sound(t) && source in Rows(t.forest) && dest in Rows(t.forest) && Accepted(t, source, dest, drop)
    requires r in Rows(t.forest) && r !in TreeRows(Get(t.forest, source))
    ensures r in Rows(Move(t, source, dest, drop).forest)
    ensures PathTo(Move(t, source, dest, drop).forest, r) == PathTo(t.forest, r)
  {
    var node := MovedTo(Get(t.forest, source), t.lists, t.next).node;
    MovedSound(t, source, dest, drop);
    PlaceRows(t.forest, dest, drop, node);
    PlacePath(t.forest, dest, drop, node, r);
    GetAfterPlace(t.forest, dest, drop, node, source);
    RemovePath(Place(t.forest, dest, drop, node), source, r);
  }

  /** The moved folder is in the folder that it was dropped in or beside, under its own name,
      with what was in it. */
  lemma {:induction false} MovedAt(t: Tree, source: nat, dest: nat, drop: Drop)
    requires Sound(t) && source in Rows(t.forest) && dest in Rows(t.forest) && Accepted(t, source, dest, drop)
    ensures var r := Move(t, source, dest, drop); var node := Get(t.forest, source);
      && t.next in Rows(r.forest)
      && PathTo(r.forest, t.next) == Base(t, dest, drop) + [node.name]
      && Get(r.forest, t.next).name == node.name && ListOf(r.lists, t.next) == ListOf(t.lists, source)
      && Show(Get(r.forest, t.next).kids, r.lists) == Show(node.kids, t.lists)
  {
    var node := MovedTo(Get(t.forest, source), t.lists, t.next).node;
    var now := Place(t.forest, dest, drop, node);
    MovedSound(t, source, dest, drop);
    PlaceRows(t.forest, dest, drop, node);
    PlacedAt(t.forest, dest, drop, node);
    GetAfterPlace(t.forest, dest, drop, node, source);
    RemovePath(now, source, t.next);
    RemoveGet(now, source, t.next);
    MovedLabels(Get(t.forest, source), t.lists, t.next);
  }
}
