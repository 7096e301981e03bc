/** The order of the folders in a folder: where a moved folder stands among its new neighbours,
    and that nothing else changes its place. */
module FolderOrder {
  import opened Folders
  import opened FolderMoves
  import FolderParents
  import FolderReread
  import opened FolderHistory

  /** A place that holds folders: the root, or the folder at a row. */
  datatype Holder = Root | In(row: nat)

  function TopRows(fs: seq<Node>): (s: seq<nat>)
    ensures |s| == |fs|
  {
    if fs == [] then [] else [fs[0].row] + TopRows(fs[1..])
  }

  predicate Held(fs: seq<Node>, p: Holder)
  {
    p.In? ==> p.row in Rows(fs)
  }

  /** The rows in a place, in order. */
  function Level(fs: seq<Node>, p: Holder): seq<nat>
    requires Held(fs, p)
  {
    TopRows(if p.Root? then fs else Get(fs, p.row).kids)
  }

  function Without(s: seq<nat>, x: nat): seq<nat>
  {
    if s == [] then [] else if s[0] == x then Without(s[1..], x) else [s[0]] + Without(s[1..], x)
  }

  /** y comes immediately after x. */
  predicate Next(s: seq<nat>, x: nat, y: nat)
  {
    exists i | 0 <= i < |s| - 1 :: s[i] == x && s[i + 1] == y
  }

  // Lists of rows.

  /** The new row above or below the one it is dropped on. */
  function Insert(s: seq<nat>, dest: nat, drop: Drop, row: nat): seq<nat>
  {
    if s == [] then []
    else if s[0] == dest then if drop == Above then [row] + s else [s[0], row] + s[1..]
    else [s[0]] + Insert(s[1..], dest, drop, row)
  }

  lemma {:induction false} WithoutCons(x: nat, s: seq<nat>, y: nat)
    ensures Without([x] + s, y) == if x == y then Without(s, y) else [x] + Without(s, y)
  {
    assert ([x] + s)[1..] == s;
  }

  lemma {:induction false} WithoutAbsent(s: seq<nat>, x: nat)
    ensures x !in Without(s, x)
    ensures x !in s ==> Without(s, x) == s
  {
    if s != [] { WithoutAbsent(s[1..], x); }
  }

  lemma {:induction false} WithoutIn(s: seq<nat>, x: nat, y: nat)
    ensures y in Without(s, x) <==> y in s && y != x
  {
    if s != [] { WithoutIn(s[1..], x, y); }
  }

  lemma {:induction false} WithoutTwice(s: seq<nat>, x: nat, y: nat)
    ensures Without(Without(s, x), y) == Without(Without(s, y), x)
  {
    if s != [] {
      WithoutTwice(s[1..], x, y);
      WithoutCons(s[0], Without(s[1..], x), y);
      WithoutCons(s[0], Without(s[1..], y), x);
    }
  }

  lemma {:induction false} NextCons(a: nat, s: seq<nat>, x: nat, y: nat)
    ensures Next(s, x, y) ==> Next([a] + s, x, y)
    ensures s != [] && a == x && s[0] == y ==> Next([a] + s, x, y)
  {
    var t := [a] + s;
    if s != [] && a == x && s[0] == y {
      assert t[0] == x && t[0 + 1] == y;
    }
    if Next(s, x, y) {
      var i :| 0 <= i < |s| - 1 && s[i] == x && s[i + 1] == y;
      assert t[i + 1] == x && t[i + 1 + 1] == y;
    }
  }

  /** Neighbours stay neighbours when another row is removed. */
  lemma {:induction false} NextWithout(s: seq<nat>, x: nat, y: nat, z: nat)
    requires Next(s, x, y) && z != x && z != y
    ensures Next(Without(s, z), x, y)
  {
    var i :| 0 <= i < |s| - 1 && s[i] == x && s[i + 1] == y;
    if i == 0 {
      WithoutCons(y, s[2..], z);
      assert s[1..] == [y] + s[2..];
      NextCons(x, Without(s[1..], z), x, y);
    } else {
      assert s[1..][i - 1] == x && s[1..][i - 1 + 1] == y;
      NextWithout(s[1..], x, y, z);
      NextCons(s[0], Without(s[1..], z), x, y);
    }
  }

  lemma {:induction false} Inserted(s: seq<nat>, dest: nat, drop: Drop, row: nat)
    requires row !in s && row != dest
    ensures var r := Insert(s, dest, drop, row);
      && Without(r, row) == s && (row in r <==> dest in s)
      && (dest in s ==> if drop == Above then Next(r, row, dest) else Next(r, dest, row))
  {
    if s != [] {
      var tail := s[1..];
      WithoutAbsent(s, row);
      WithoutAbsent(tail, row);
      if s[0] == dest {
        WithoutCons(row, s, row);
        WithoutCons(row, tail, row);
        WithoutCons(s[0], [row] + tail, row);
        assert [s[0], row] + tail == [s[0]] + ([row] + tail);
        NextCons(row, s, row, dest);
        NextCons(s[0], [row] + tail, dest, row);
      } else {
        Inserted(tail, dest, drop, row);
        WithoutCons(s[0], Insert(tail, dest, drop, row), row);
        NextCons(s[0], Insert(tail, dest, drop, row), row, dest);
        NextCons(s[0], Insert(tail, dest, drop, row), dest, row);
      }
    }
  }

  // What placing and removing do to one place.

  lemma {:induction false} TopCons(f: Node, fs: seq<Node>)
    ensures TopRows([f] + fs) == [f.row] + TopRows(fs)
  {
    assert ([f] + fs)[1..] == fs;
  }

  lemma {:induction false} TopIn(fs: seq<Node>, row: nat)
    ensures row in TopRows(fs) ==> row in Rows(fs)
  {
    if fs != [] { TopIn(fs[1..], row); }
  }

  lemma {:induction false} TopPlace(fs: seq<Node>, dest: nat, drop: Drop, node: Node)
    requires Unique(fs)
    ensures TopRows(Place(fs, dest, drop, node))
         == if drop == Inside then TopRows(fs) else Insert(TopRows(fs), dest, drop, node.row)
    decreases fs
  {
    if fs != [] {
      var f, tail := fs[0], fs[1..];
      if f.row == dest {
        TopCons(node, fs);
        TopCons(node, tail);
        TopCons(f, [node] + tail);
        assert [f, node] + tail == [f] + ([node] + tail);
        assert [f.row, node.row] + TopRows(tail) == [f.row] + ([node.row] + TopRows(tail));
        TopCons(f.(kids := [node] + f.kids), tail);
      } else {
        TopPlace(tail, dest, drop, node);
        TopCons(f.(kids := Place(f.kids, dest, drop, node)), Place(tail, dest, drop, node));
      }
    }
  }

  lemma {:induction false} TopRemove(fs: seq<Node>, row: nat)
    requires Unique(fs)
    ensures TopRows(Remove(fs, row)) == Without(TopRows(fs), row)
    decreases fs
  {
    if fs != [] {
      var f, tail := fs[0], fs[1..];
      if f.row == row {
        TopIn(tail, row);
        WithoutAbsent(TopRows(tail), row);
      } else {
        TopRemove(tail, row);
        TopCons(f.(kids := Remove(f.kids, row)), Remove(tail, row));
      }
    }
  }

  /** What is in the folder at row r after a folder is placed. */
  lemma {:induction false} KidsPlace(fs: seq<Node>, dest: nat, drop: Drop, node: Node, r: nat)
    requires Unique(fs) && dest in Rows(fs) && UniqueTree(node) && TreeRows(node) !! Rows(fs) && r in Rows(fs)
    ensures r in Rows(Place(fs, dest, drop, node)) && Unique(Get(fs, r).kids)
    ensures var kids := Get(fs, r).kids;
      Get(Place(fs, dest, drop, node), r).kids
      == if drop == Inside && r == dest then [node] + kids else Place(kids, dest, drop, node)
    decreases fs
  {
    var f, tail := fs[0], fs[1..];
    PlaceRows(fs, dest, drop, node);
    if f.row == dest {
      KidsPlaceHere(fs, drop, node, r);
    } else if dest in Rows(f.kids) {
      PlaceAbsent(tail, dest, drop, node);
      PlaceRows(f.kids, dest, drop, node);
      if r in Rows(f.kids) {
        KidsPlace(f.kids, dest, drop, node, r);
      } else if r in Rows(tail) {
        KidsAbsent(tail, dest, drop, node, r);
      }
    } else {
      PlaceAbsent(f.kids, dest, drop, node);
      PlaceRows(tail, dest, drop, node);
      if r in Rows(tail) {
        KidsPlace(tail, dest, drop, node, r);
      } else if r in Rows(f.kids) {
        KidsAbsent(f.kids, dest, drop, node, r);
      }
    }
  }

  /** A folder elsewhere does not hold the one dropped on. */
  lemma {:induction false} KidsAbsent(fs: seq<Node>, dest: nat, drop: Drop, node: Node, r: nat)
    requires Unique(fs) && dest !in Rows(fs) && r in Rows(fs)
    ensures Unique(Get(fs, r).kids) && Place(Get(fs, r).kids, dest, drop, node) == Get(fs, r).kids
  {
    RemoveRows(fs, r);
    GetUnique(fs, r);
    PlaceAbsent(Get(fs, r).kids, dest, drop, node);
  }

  lemma {:induction false} KidsPlaceHere(fs: seq<Node>, drop: Drop, node: Node, r: nat)
    requires fs != [] && Unique(fs) && UniqueTree(node) && TreeRows(node) !! Rows(fs) && r in Rows(fs)
    ensures r in Rows(Place(fs, fs[0].row, drop, node)) && Unique(Get(fs, r).kids)
    ensures var kids := Get(fs, r).kids;
      Get(Place(fs, fs[0].row, drop, node), r).kids
      == if drop == Inside && r == fs[0].row then [node] + kids else Place(kids, fs[0].row, drop, node)
  {
    var f, tail := fs[0], fs[1..];
    PlaceRows(fs, f.row, drop, node);
    if r == f.row {
      PlaceAbsent(f.kids, f.row, drop, node);
    } else if r in Rows(f.kids) {
      KidsAbsent(f.kids, f.row, drop, node, r);
    } else {
      KidsAbsent(tail, f.row, drop, node, r);
    }
    match drop
    case Above =>
      assert ([node] + fs)[1..] == fs;
    case Below =>
      assert ([f, node] + tail)[1..] == [node] + tail && ([node] + tail)[1..] == tail;
    case Inside =>
      NodeRows(node, f.kids);
      assert ([node] + f.kids)[1..] == f.kids;
      assert ([f.(kids := [node] + f.kids)] + tail)[1..] == tail;
  }

  /** What is in the folder at row r after another one is removed. */
  lemma {:induction false} KidsRemove(fs: seq<Node>, row: nat, r: nat)
    requires Unique(fs) && row in Rows(fs) && r in Rows(fs) && r !in TreeRows(Get(fs, row))
    ensures r in Rows(Remove(fs, row)) && Unique(Get(fs, r).kids)
    ensures Get(Remove(fs, row), r).kids == Remove(Get(fs, r).kids, row)
    decreases fs
  {
    var f, tail := fs[0], fs[1..];
    RemoveRows(fs, row);
    GetUnique(fs, r);
    if f.row == row {
      RemoveRows(tail, r);
      RemoveAbsent(Get(tail, r).kids, row);
    } else if row in Rows(f.kids) {
      RemoveAbsent(tail, row);
      if r in Rows(f.kids) {
        KidsRemove(f.kids, row, r);
      } else if r in Rows(tail) {
        RemoveRows(tail, r);
        RemoveAbsent(Get(tail, r).kids, row);
      }
      RemoveRows(f.kids, row);
    } else {
      RemoveAbsent(f.kids, row);
      if r in Rows(tail) {
        KidsRemove(tail, row, r);
      } else if r in Rows(f.kids) {
        RemoveRows(f.kids, r);
        RemoveAbsent(Get(f.kids, r).kids, row);
      }
      RemoveRows(tail, row);
    }
  }

  // Moving.

  /** The moved folder, in its new row, stands where it was dropped: next to the folder it was
      dropped above or below, or first in the one it was dropped into. */
  predicate Stands(level: seq<nat>, row: nat, dest: nat, drop: Drop)
  {
    match drop
    case Above => Next(level, row, dest)
    case Below => Next(level, dest, row)
    case Inside => level != [] && level[0] == row
  }

  /** The place that a folder is dropped in. */
  predicate DroppedIn(fs: seq<Node>, p: Holder, dest: nat, drop: Drop)
    requires Held(fs, p)
  {
    if drop == Inside then p == In(dest) else dest in Level(fs, p)
  }

  /** The rows of a place after a folder has been placed. */
  lemma {:induction false} PlaceLevel(fs: seq<Node>, dest: nat, drop: Drop, node: Node, p: Holder)
    requires Unique(fs) && dest in Rows(fs) && UniqueTree(node) && TreeRows(node) !! Rows(fs) && Held(fs, p)
    ensures Held(Place(fs, dest, drop, node), p)
    ensures var was, now := Level(fs, p), Level(Place(fs, dest, drop, node), p);
      && Without(now, node.row) == was && (node.row in now <==> DroppedIn(fs, p, dest, drop))
      && (node.row in now ==> Stands(now, node.row, dest, drop))
  {
    var kids := if p.Root? then fs else Get(fs, p.row).kids;
    if p.In? { KidsPlace(fs, dest, drop, node, p.row); }
    LevelRows(fs, p, node.row);
    WithoutAbsent(Level(fs, p), node.row);
    TopPlace(kids, dest, drop, node);
    Inserted(Level(fs, p), dest, drop, node.row);
    if drop == Inside && p == In(dest) {
      TopCons(node, kids);
      WithoutCons(node.row, TopRows(kids), node.row);
    }
  }

  lemma {:induction false} LevelRows(fs: seq<Node>, p: Holder, row: nat)
    requires Unique(fs) && Held(fs, p)
    ensures row in Level(fs, p) ==> row in Rows(fs)
  {
    if p.In? {
      RemoveRows(fs, p.row);
      TopIn(Get(fs, p.row).kids, row);
    } else {
      TopIn(fs, row);
    }
  }

  /** The rows of a place after a folder has been removed from the forest. */
  lemma {:induction false} RemoveLevel(fs: seq<Node>, row: nat, p: Holder)
    requires Unique(fs) && row in Rows(fs) && Held(fs, p) && (p.In? ==> p.row !in TreeRows(Get(fs, row)))
    ensures Held(Remove(fs, row), p) && Level(Remove(fs, row), p) == Without(Level(fs, p), row)
  {
    if p.In? {
      KidsRemove(fs, row, p.row);
      TopRemove(Get(fs, p.row).kids, row);
    } else {
      TopRemove(fs, row);
    }
  }

  lemma {:induction false} StandsWithout(level: seq<nat>, row: nat, dest: nat, drop: Drop, source: nat)
    requires Stands(level, row, dest, drop) && source != row && source != dest
    ensures Stands(Without(level, source), row, dest, drop)
  {
    match drop
    case Above => NextWithout(level, row, dest, source);
    case Below => NextWithout(level, dest, row, source);
    case Inside =>
  }

  /** After an accepted move the folder, in its new row, stands immediately above or below the
      one it was dropped on, or first in it; every place that is not in the moved folder keeps
      its other folders in their order, and has lost the old row only. */
  lemma {:induction false} MoveOrder(t: Tree, source: nat, dest: nat, drop: Drop, p: Holder)
    requires Sound(t) && source in Rows(t.forest) && dest in Rows(t.forest) && Accepted(t, source, dest, drop)
    requires Held(t.forest, p) && (p.In? ==> p.row !in TreeRows(Get(t.forest, source)))
    ensures Held(Move(t, source, dest, drop).forest, p)
    ensures var was, now := Level(t.forest, p), Level(Move(t, source, dest, drop).forest, p);
      && Without(now, t.next) == Without(was, source)
      && (t.next in now <==> DroppedIn(t.forest, p, dest, drop))
      && (t.next in now ==> Stands(now, t.next, dest, drop))
  {
    var node := MovedTo(Get(t.forest, source), t.lists, t.next).node;
    var placed := Place(t.forest, dest, drop, node);
    MovedSound(t, source, dest, drop);
    PlaceLevel(t.forest, dest, drop, node, p);
    PlaceRows(t.forest, dest, drop, node);
    GetAfterPlace(t.forest, dest, drop, node, source);
    RemoveLevel(placed, source, p);
    var level := Level(placed, p);
    WithoutTwice(level, source, node.row);
    WithoutIn(level, source, node.row);
    if node.row in level { StandsWithout(level, node.row, dest, drop, source); }
  }

  lemma {:induction false} TopSnoc(fs: seq<Node>, f: Node)
    ensures TopRows(fs + [f]) == TopRows(fs) + [f.row]
  {
    if fs == [] {
      assert [] + [f] == [f];
    } else {
      TopSnoc(fs[1..], f);
      assert fs + [f] == [fs[0]] + (fs[1..] + [f]);
      TopCons(fs[0], fs[1..] + [f]);
    }
  }

  /** A new folder is the last one at the root. */
  lemma {:induction false} MakeOrder(s: Store, name: string)
    ensures var was, now := s.tree.forest, Step(s, Make(name)).tree.forest;
      Level(now, Root)
      == Level(was, Root) + if name != "" && DIVIDER !in name && name !in s.names then [s.tree.next] else []
  {
    TopSnoc(s.tree.forest, Node(s.tree.next, name, false, []));
    assert Level(s.tree.forest, Root) + [] == Level(s.tree.forest, Root);
  }

  // Any sequence of actions.

  /** The number of folders of that name at the top of a forest. */
  function Tops(fs: seq<Node>, name: string): nat
  {
    if fs == [] then 0 else (if fs[0].name == name then 1 else 0) + Tops(fs[1..], name)
  }

  /** How often a folder named a comes before one named b in the same place. */
  function Ahead(fs: seq<Node>, a: string, b: string): nat
  {
    if fs == [] then 0
    else (if fs[0].name == a then Tops(fs[1..], b) else 0) + Ahead(fs[0].kids, a, b) + Ahead(fs[1..], a, b)
  }

  lemma {:induction false} AheadCons(f: Node, fs: seq<Node>, a: string, b: string)
    ensures Tops([f] + fs, b) == (if f.name == b then 1 else 0) + Tops(fs, b)
    ensures Ahead([f] + fs, a, b) == (if f.name == a then Tops(fs, b) else 0) + Ahead(f.kids, a, b) + Ahead(fs, a, b)
  {
    assert ([f] + fs)[1..] == fs;
  }

  /** A folder put in changes the order of no others, and brings the order of those in it. */
  lemma {:induction false} AheadPlace(fs: seq<Node>, dest: nat, drop: Drop, node: Node, a: string, b: string)
    requires Unique(fs) && node.name != a && node.name != b
    ensures var r := Place(fs, dest, drop, node);
      && Tops(r, b) == Tops(fs, b)
      && Ahead(r, a, b) == Ahead(fs, a, b) + if dest in Rows(fs) then Ahead(node.kids, a, b) else 0
    decreases fs
  {
    if fs != [] {
      var f, tail := fs[0], fs[1..];
      if f.row == dest {
        AheadCons(node, fs, a, b);
        AheadCons(node, tail, a, b);
        AheadCons(f, [node] + tail, a, b);
        assert [f, node] + tail == [f] + ([node] + tail);
        AheadCons(node, f.kids, a, b);
        AheadCons(f.(kids := [node] + f.kids), tail, a, b);
      } else {
        AheadPlace(f.kids, dest, drop, node, a, b);
        AheadPlace(tail, dest, drop, node, a, b);
        AheadCons(f.(kids := Place(f.kids, dest, drop, node)), Place(tail, dest, drop, node), a, b);
      }
    }
  }

  lemma {:induction false} AheadRemove(fs: seq<Node>, row: nat, a: string, b: string)
    requires Unique(fs) && row in Rows(fs) && Get(fs, row).name != a && Get(fs, row).name != b
    ensures Tops(Remove(fs, row), b) == Tops(fs, b)
    ensures Ahead(fs, a, b) == Ahead(Remove(fs, row), a, b) + Ahead(Get(fs, row).kids, a, b)
    decreases fs
  {
    var f, tail := fs[0], fs[1..];
    if f.row == row {
    } else if row in Rows(f.kids) {
      AheadRemove(f.kids, row, a, b);
      RemoveAbsent(tail, row);
      AheadCons(f.(kids := Remove(f.kids, row)), tail, a, b);
    } else {
      AheadRemove(tail, row, a, b);
      RemoveAbsent(f.kids, row);
      AheadCons(f, Remove(tail, row), a, b);
    }
  }

  lemma {:induction false} AheadCopy(fs: seq<Node>, lists: Lists, next: nat, a: string, b: string)
    ensures var nodes := CopyLevel(fs, lists, next).nodes;
      Tops(nodes, b) == Tops(fs, b) && Ahead(nodes, a, b) == Ahead(fs, a, b)
    decreases fs
  {
    if fs != [] {
      var f := fs[0];
      var inside := CopyLevel(f.kids, HandOver(lists, f.row, next), next + 1);
      AheadCopy(f.kids, HandOver(lists, f.row, next), next + 1, a, b);
      AheadCopy(fs[1..], inside.lists, inside.next, a, b);
      AheadCons(Node(next, f.name, false, inside.nodes), CopyLevel(fs[1..], inside.lists, inside.next).nodes, a, b);
    }
  }

  lemma {:induction false} AheadAnew(node: Node, lists: Lists, next: nat, a: string, b: string)
    ensures var m := MovedTo(node, lists, next).node;
      m.name == node.name && Ahead(m.kids, a, b) == Ahead(node.kids, a, b)
  {
    AheadCopy(node.kids, HandOver(lists, node.row, next), next + 1, a, b);
  }

  lemma {:induction false} AheadMoved(fs: seq<Node>, source: nat, dest: nat, drop: Drop, node: Node, a: string,
                                      b: string)
    requires Unique(fs) && source in Rows(fs) && dest in Rows(fs)
    requires UniqueTree(node) && TreeRows(node) !! Rows(fs) && dest !in TreeRows(Get(fs, source))
    requires node.name == Get(fs, source).name && Ahead(node.kids, a, b) == Ahead(Get(fs, source).kids, a, b)
    requires node.name != a && node.name != b
    ensures Ahead(Remove(Place(fs, dest, drop, node), source), a, b) == Ahead(fs, a, b)
  {
    PlaceRows(fs, dest, drop, node);
    GetAfterPlace(fs, dest, drop, node, source);
    AheadPlace(fs, dest, drop, node, a, b);
    AheadRemove(Place(fs, dest, drop, node), source, a, b);
  }

  lemma {:induction false} AheadMove(t: Tree, source: nat, dest: nat, drop: Drop, a: string, b: string)
    requires Sound(t) && CanDrag(t, source, dest, drop)
    requires Get(t.forest, source).name != a && Get(t.forest, source).name != b
    ensures Ahead(Move(t, source, dest, drop).forest, a, b) == Ahead(t.forest, a, b)
  {
    var was := Get(t.forest, source);
    MovedSound(t, source, dest, drop);
    AheadAnew(was, t.lists, t.next, a, b);
    AheadMoved(t.forest, source, dest, drop, MovedTo(was, t.lists, t.next).node, a, b);
  }

  lemma {:induction false} AheadSnoc(fs: seq<Node>, f: Node, a: string, b: string)
    ensures Tops(fs + [f], b) >= Tops(fs, b) && Ahead(fs + [f], a, b) >= Ahead(fs, a, b)
  {
    if fs != [] {
      AheadSnoc(fs[1..], f, a, b);
      assert fs + [f] == [fs[0]] + (fs[1..] + [f]);
      AheadCons(fs[0], fs[1..] + [f], a, b);
    }
  }

  lemma {:induction false} AheadFront(fs: seq<Node>, name: string, a: string, b: string)
    requires b != name
    ensures var r := FolderReread.Front(fs, name); Tops(r, b) == Tops(fs, b) && Ahead(r, a, b) >= Ahead(fs, a, b)
  {
    if fs != [] && fs[0].name != name {
      var f, r := fs[0], FolderReread.Front(fs[1..], name);
      AheadFront(fs[1..], name, a, b);
      if r != [] && r[0].name == name {
        assert [r[0], f] + r[1..] == [r[0]] + ([f] + r[1..]) && r == [r[0]] + r[1..];
        AheadCons(r[0], [f] + r[1..], a, b);
        AheadCons(f, r[1..], a, b);
        AheadCons(r[0], r[1..], a, b);
      }
    }
  }

  lemma {:induction false} AheadMarked(fs: seq<Node>, inbox: string, trash: string, a: string, b: string)
    ensures var r := FolderReread.Marked(fs, inbox, trash);
      Tops(r, b) == Tops(fs, b) && Ahead(r, a, b) == Ahead(fs, a, b)
  {
    if fs != [] {
      AheadMarked(fs[1..], inbox, trash, a, b);
      AheadCons(fs[0].(rootOnly := fs[0].name == inbox || fs[0].name == trash),
                FolderReread.Marked(fs[1..], inbox, trash), a, b);
    }
  }

  lemma {:induction false} AheadReread(t: Tree, inbox: string, trash: string, a: string, b: string)
    requires b != inbox && b != trash
    ensures Ahead(FolderReread.Reread(t, inbox, trash).forest, a, b) >= Ahead(t.forest, a, b)
  {
    var fs := FolderReread.Reordered(t.forest, inbox, trash);
    AheadFront(t.forest, trash, a, b);
    AheadFront(FolderReread.Front(t.forest, trash), inbox, a, b);
    AheadCopy(fs, t.lists, t.next, a, b);
    AheadMarked(CopyLevel(fs, t.lists, t.next).nodes, inbox, trash, a, b);
  }

  /** An action leaves two folders of one place in their order, unless it moves or deletes one of them. */
  lemma {:induction false} StepOrder(s: Store, action: Action, a: string, b: string, inbox: string, trash: string)
    requires Good(s, inbox, trash) && b != inbox && b != trash
    requires !FolderParents.Moves(s, action, a) && !FolderParents.Moves(s, action, b)
    ensures Ahead(Step(s, action).tree.forest, a, b) >= Ahead(s.tree.forest, a, b)
  {
    var t := s.tree;
    match action
    case Make(made) => AheadSnoc(t.forest, Node(t.next, made, false, []), a, b);
    case Drag(source, dest, drop) =>
      if CanDrag(t, source, dest, drop) { AheadMove(t, source, dest, drop, a, b); }
    case Delete(row, holdsFaxes) =>
      if Deletable(t, row, holdsFaxes) { AheadRemove(t.forest, row, a, b); }
    case StartAgain => AheadReread(t, inbox, trash, a, b);
  }

  /** Over any sequence of actions a folder stays before another one in the same place, as long
      as neither is moved or deleted itself, wherever the place they are in is moved. Only the
      permanent folders go in front of others by themselves, when the program starts. */
  lemma {:induction false} OrderStays(s: Store, actions: seq<Action>, a: string, b: string, inbox: string,
                                      trash: string)
    requires Good(s, inbox, trash) && b != inbox && b != trash && Ahead(s.tree.forest, a, b) > 0
    requires FolderParents.LeftAlone(s, actions, a) && FolderParents.LeftAlone(s, actions, b)
    ensures Ahead(Run(s, actions).tree.forest, a, b) > 0
    decreases |actions|
  {
    if actions != [] {
      StepGood(s, actions[0], inbox, trash);
      StepOrder(s, actions[0], a, b, inbox, trash);
      OrderStays(Step(s, actions[0]), actions[1..], a, b, inbox, trash);
    }
  }
}
