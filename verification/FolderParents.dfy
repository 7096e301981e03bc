/** Which folder each folder is in, by name: dragging a folder changes its own parent and no
    other, so that every folder keeps what is in it however the folders are moved about. */
module FolderParents {
  import Bits
  import opened Folders
  import opened FolderMoves
  import FolderPaths
  import FolderReread
  import opened FolderHistory

  /** The parent of the folders at the root: no folder has this name. */
  const ROOT: string := [DIVIDER]

  /** Every folder's name with the name of the folder that it is in. */
  function Edges(fs: seq<Node>, parent: string): multiset<(string, string)>
  {
    if fs == [] then multiset{} else EdgesOne(fs[0], parent) + Edges(fs[1..], parent)
  }

  function EdgesOne(f: Node, parent: string): multiset<(string, string)>
  {
    multiset{(parent, f.name)} + Edges(f.kids, f.name)
  }

  /** The folder that a path leads to is in this one. */
  function ParentName(path: Path, top: string): string
  {
    if |path| < 2 then top else path[|path| - 2]
  }

  lemma {:induction false} EdgesCons(f: Node, others: seq<Node>, parent: string)
    ensures Edges([f] + others, parent) == EdgesOne(f, parent) + Edges(others, parent)
  {
    assert ([f] + others)[1..] == others;
  }

  lemma {:induction false} ParentInside(first: string, path: Path, top: string)
    requires path != []
    ensures ParentName([first] + path, top) == ParentName(path, first)
  {
  }

  // One move.

  /** The parent of a folder dropped there. */
  function DropParent(fs: seq<Node>, dest: nat, drop: Drop, top: string): string
    requires dest in Rows(fs)
  {
    ParentName(FolderPaths.DropPath(fs, dest, drop, ""), top)
  }

  lemma {:induction false} DropParentInside(f: Node, tail: seq<Node>, dest: nat, drop: Drop, top: string)
    requires f.row != dest && dest in Rows(f.kids)
    ensures dest in Rows([f] + tail)
        && DropParent([f] + tail, dest, drop, top) == DropParent(f.kids, dest, drop, f.name)
  {
    NodeRows(f, tail);
    FolderPaths.PathCons(f, tail, dest);
    FolderPaths.InsideFirst(f.name, PathTo(f.kids, dest), "");
    ParentInside(f.name, FolderPaths.DropPath(f.kids, dest, drop, ""), top);
  }

  lemma {:induction false} BesideEdges(f: Node, tail: seq<Node>, node: Node, top: string)
    ensures Bits.Same(Edges([f, node] + tail, top), Edges([f] + tail, top) + EdgesOne(node, top))
  {
    assert [f, node] + tail == [f] + ([node] + tail);
    EdgesCons(node, tail, top);
    EdgesCons(f, [node] + tail, top);
    EdgesCons(f, tail, top);
    InTail(EdgesOne(node, top), Edges(tail, top), multiset{});
    InTail(EdgesOne(f, top), Edges(tail, top), EdgesOne(node, top));
  }

  lemma {:induction false} InsideEdges(f: Node, tail: seq<Node>, node: Node, top: string)
    ensures Bits.Same(Edges([f.(kids := [node] + f.kids)] + tail, top), Edges([f] + tail, top) + EdgesOne(node, f.name))
  {
    var own, b := multiset{(top, f.name)}, EdgesOne(node, f.name);
    EdgesCons(node, f.kids, f.name);
    EdgesCons(f.(kids := [node] + f.kids), tail, top);
    EdgesCons(f, tail, top);
    InTail(b, Edges(f.kids, f.name), multiset{});
    InFirst(own, Edges(f.kids, f.name), b, Edges(tail, top));
  }

  lemma {:induction false} PlaceHereEdges(fs: seq<Node>, dest: nat, drop: Drop, node: Node, top: string)
    requires fs != [] && fs[0].row == dest
    ensures dest in Rows(fs)
    ensures Bits.Same(Edges(Place(fs, dest, drop, node), top),
                 Edges(fs, top) + EdgesOne(node, DropParent(fs, dest, drop, top)))
  {
    FirstAndRest(fs);
    match drop
    case Above =>
      EdgesCons(node, fs, top);
      InTail(EdgesOne(node, top), Edges(fs, top), multiset{});
    case Below => BesideEdges(fs[0], fs[1..], node, top);
    case Inside => InsideEdges(fs[0], fs[1..], node, top);
  }

  /** A folder put in adds its own parent, and those of what is in it. */
  lemma {:induction false} PlaceEdges(fs: seq<Node>, dest: nat, drop: Drop, node: Node, top: string)
    requires Unique(fs) && dest in Rows(fs)
    ensures Bits.Same(Edges(Place(fs, dest, drop, node), top),
                 Edges(fs, top) + EdgesOne(node, DropParent(fs, dest, drop, top)))
    decreases fs
  {
    var f, tail := fs[0], fs[1..];
    var own, b := multiset{(top, f.name)}, EdgesOne(node, DropParent(fs, dest, drop, top));
    if f.row == dest {
      PlaceHereEdges(fs, dest, drop, node, top);
    } else if dest in Rows(f.kids) {
      FirstAndRest(fs);
      DropParentInside(f, tail, dest, drop, top);
      PlaceEdges(f.kids, dest, drop, node, f.name);
      PlaceAbsent(tail, dest, drop, node);
      EdgesCons(f.(kids := Place(f.kids, dest, drop, node)), tail, top);
      InFirst(own, Edges(f.kids, f.name), b, Edges(tail, top));
    } else {
      PlaceEdges(tail, dest, drop, node, top);
      PlaceAbsent(f.kids, dest, drop, node);
      EdgesCons(f, Place(tail, dest, drop, node), top);
      InTail(EdgesOne(f, top), Edges(tail, top), b);
    }
  }

  /** The parent of a row. */
  function ParentOf(fs: seq<Node>, row: nat, top: string): string
    requires row in Rows(fs)
  {
    ParentName(PathTo(fs, row), top)
  }

  /** Removing a folder takes away its own parent, and those of what is in it. */
  lemma {:induction false} RemoveEdges(fs: seq<Node>, row: nat, top: string)
    requires Unique(fs) && row in Rows(fs)
    ensures Bits.Same(Edges(fs, top), Edges(Remove(fs, row), top) + EdgesOne(Get(fs, row), ParentOf(fs, row, top)))
    decreases fs
  {
    var f, tail := fs[0], fs[1..];
    var own, b := multiset{(top, f.name)}, EdgesOne(Get(fs, row), ParentOf(fs, row, top));
    if f.row == row {
      InTail(EdgesOne(f, top), Edges(tail, top), b);
    } else if row in Rows(f.kids) {
      ParentInside(f.name, PathTo(f.kids, row), top);
      RemoveEdges(f.kids, row, f.name);
      RemoveAbsent(tail, row);
      EdgesCons(f.(kids := Remove(f.kids, row)), tail, top);
      InFirst(own, Edges(Remove(f.kids, row), f.name), b, Edges(tail, top));
    } else {
      RemoveEdges(tail, row, top);
      RemoveAbsent(f.kids, row);
      EdgesCons(f, Remove(tail, row), top);
      InTail(EdgesOne(f, top), Edges(Remove(tail, row), top), b);
    }
  }

  /** Folders handed over row by row keep their parents. */
  lemma {:induction false} CopyEdges(fs: seq<Node>, lists: Lists, next: nat, top: string)
    ensures Edges(CopyLevel(fs, lists, next).nodes, top) == Edges(fs, top)
    decreases fs
  {
    if fs != [] {
      var f := fs[0];
      var inside := CopyLevel(f.kids, HandOver(lists, f.row, next), next + 1);
      CopyEdges(f.kids, HandOver(lists, f.row, next), next + 1, f.name);
      CopyEdges(fs[1..], inside.lists, inside.next, top);
      EdgesCons(Node(next, f.name, false, inside.nodes), CopyLevel(fs[1..], inside.lists, inside.next).nodes, top);
    }
  }

  lemma {:induction false} DropParentName(fs: seq<Node>, dest: nat, drop: Drop, name: string, top: string)
    requires dest in Rows(fs)
    ensures DropParent(fs, dest, drop, top) == ParentName(FolderPaths.DropPath(fs, dest, drop, name), top)
  {
  }

  /** One edge for another. */
  lemma {:induction false} EdgeChanged(before: multiset<(string, string)>, after: multiset<(string, string)>,
                                       gone: (string, string), made: (string, string),
                                           inside: multiset<(string, string)>)
    requires after + (multiset{gone} + inside) == before + (multiset{made} + inside)
    ensures after + multiset{gone} == before + multiset{made}
  {
    forall e ensures (after + multiset{gone})[e] == (before + multiset{made})[e] {
      assert (after + (multiset{gone} + inside))[e] == (before + (multiset{made} + inside))[e];
    }
  }

  lemma {:induction false} PlaceThenRemove(fs: seq<Node>, source: nat, dest: nat, drop: Drop, node: Node)
    requires Unique(fs) && source in Rows(fs) && dest in Rows(fs)
    requires UniqueTree(node) && TreeRows(node) !! Rows(fs) && dest !in TreeRows(Get(fs, source))
    ensures Edges(Remove(Place(fs, dest, drop, node), source), ROOT)
         + EdgesOne(Get(fs, source), ParentOf(fs, source, ROOT))
         == Edges(fs, ROOT) + EdgesOne(node, DropParent(fs, dest, drop, ROOT))
  {
    PlaceRows(fs, dest, drop, node);
    GetAfterPlace(fs, dest, drop, node, source);
    FolderPaths.PlacePath(fs, dest, drop, node, source);
    PlaceEdges(fs, dest, drop, node, ROOT);
    RemoveEdges(Place(fs, dest, drop, node), source, ROOT);
  }

  /** The edges after an insertion of a folder made anew and the removal of the old one. */
  lemma {:induction false} MoveEdges(fs: seq<Node>, source: nat, dest: nat, drop: Drop, node: Node, old_: Node)
    requires Unique(fs) && source in Rows(fs) && dest in Rows(fs)
    requires UniqueTree(node) && TreeRows(node) !! Rows(fs) && dest !in TreeRows(Get(fs, source))
    requires old_ == Get(fs, source) && node.name == old_.name
    requires Edges(node.kids, node.name) == Edges(old_.kids, old_.name)
    ensures Edges(Remove(Place(fs, dest, drop, node), source), ROOT) + multiset{(ParentOf(fs, source, ROOT), old_.name)}
         == Edges(fs, ROOT) + multiset{(DropParent(fs, dest, drop, ROOT), old_.name)}
  {
    PlaceThenRemove(fs, source, dest, drop, node);
    EdgeChanged(Edges(fs, ROOT), Edges(Remove(Place(fs, dest, drop, node), source), ROOT),
                (ParentOf(fs, source, ROOT), old_.name),
                (DropParent(fs, dest, drop, ROOT), old_.name), Edges(old_.kids, old_.name));
  }

  lemma {:induction false} MovedEdges(node: Node, lists: Lists, next: nat)
    ensures var m := MovedTo(node, lists, next).node;
      m.name == node.name && Edges(m.kids, m.name) == Edges(node.kids, node.name)
  {
    CopyEdges(node.kids, HandOver(lists, node.row, next), next + 1, node.name);
  }

  /** A drag gives the dragged folder the parent that it is dropped in, and changes no other
      folder's. */
  lemma {:induction false} MoveReparents(t: Tree, source: nat, dest: nat, drop: Drop)
    requires Sound(t) && CanDrag(t, source, dest, drop)
    ensures var name := Get(t.forest, source).name;
      Edges(Move(t, source, dest, drop).forest, ROOT) + multiset{(ParentName(PathTo(t.forest, source), ROOT), name)}
      == Edges(t.forest, ROOT) + multiset{(ParentName(Base(t, dest, drop) + [name], ROOT), name)}
  {
    var node := Get(t.forest, source);
    MovedSound(t, source, dest, drop);
    MovedEdges(node, t.lists, t.next);
    MoveEdges(t.forest, source, dest, drop, MovedTo(node, t.lists, t.next).node, node);
    DropParentName(t.forest, dest, drop, node.name, ROOT);
  }

  // Any sequence of actions.

  lemma {:induction false} SnocEdges(fs: seq<Node>, f: Node, top: string)
    ensures Bits.Same(Edges(fs + [f], top), Edges(fs, top) + EdgesOne(f, top))
  {
    if fs == [] {
      assert fs + [f] == [f] + [];
      EdgesCons(f, [], top);
      InTail(EdgesOne(f, top), multiset{}, multiset{});
    } else {
      SnocEdges(fs[1..], f, top);
      assert fs + [f] == [fs[0]] + (fs[1..] + [f]);
      EdgesCons(fs[0], fs[1..] + [f], top);
      InTail(EdgesOne(fs[0], top), Edges(fs[1..], top), EdgesOne(f, top));
    }
  }

  lemma {:induction false} FrontEdges(fs: seq<Node>, name: string, top: string)
    ensures Bits.Same(Edges(FolderReread.Front(fs, name), top), Edges(fs, top))
  {
    if fs != [] && fs[0].name != name {
      var f, r := fs[0], FolderReread.Front(fs[1..], name);
      FrontEdges(fs[1..], name, top);
      if r != [] && r[0].name == name {
        assert [r[0], f] + r[1..] == [r[0]] + ([f] + r[1..]) && r == [r[0]] + r[1..];
        EdgesCons(r[0], [f] + r[1..], top);
        EdgesCons(f, r[1..], top);
        EdgesCons(r[0], r[1..], top);
        InTail(EdgesOne(f, top), EdgesOne(r[0], top), Edges(r[1..], top));
        InTail(EdgesOne(r[0], top), EdgesOne(f, top), Edges(r[1..], top));
      }
    }
  }

  lemma {:induction false} MarkedEdges(fs: seq<Node>, inbox: string, trash: string, top: string)
    ensures Edges(FolderReread.Marked(fs, inbox, trash), top) == Edges(fs, top)
  {
    if fs != [] {
      MarkedEdges(fs[1..], inbox, trash, top);
      EdgesCons(fs[0].(rootOnly := fs[0].name == inbox || fs[0].name == trash),
                FolderReread.Marked(fs[1..], inbox, trash), top);
    }
  }

  /** Starting the program again leaves every folder where it is. */
  lemma {:induction false} RereadEdges(t: Tree, inbox: string, trash: string)
    ensures Edges(FolderReread.Reread(t, inbox, trash).forest, ROOT) == Edges(t.forest, ROOT)
  {
    var fs := FolderReread.Reordered(t.forest, inbox, trash);
    FrontEdges(t.forest, trash, ROOT);
    FrontEdges(FolderReread.Front(t.forest, trash), inbox, ROOT);
    CopyEdges(fs, t.lists, t.next, ROOT);
    MarkedEdges(CopyLevel(fs, t.lists, t.next).nodes, inbox, trash, ROOT);
  }

  lemma {:induction false} LeafEdges(f: Node, parent: string)
    requires f.kids == []
    ensures EdgesOne(f, parent) == multiset{(parent, f.name)}
  {
  }

  /** The action moves or deletes the folder of that name itself. */
  predicate Moves(s: Store, a: Action, name: string)
  {
    match a
    case Make(made) => false
    case Drag(source, dest, drop) => CanDrag(s.tree, source, dest, drop) && Get(s.tree.forest, source).name == name
    case Delete(row, holdsFaxes) => Deletable(s.tree, row, holdsFaxes) && Get(s.tree.forest, row).name == name
    case StartAgain => false
  }

  /** An action leaves every folder in the folder it is in, except the one that it moves or deletes. */
  lemma {:induction false} StepEdge(s: Store, a: Action, parent: string, name: string, inbox: string, trash: string)
    requires Good(s, inbox, trash) && (parent, name) in Edges(s.tree.forest, ROOT) && !Moves(s, a, name)
    ensures (parent, name) in Edges(Step(s, a).tree.forest, ROOT)
  {
    var t := s.tree;
    match a
    case Make(made) =>
      SnocEdges(t.forest, Node(t.next, made, false, []), ROOT);
    case Drag(source, dest, drop) =>
      if CanDrag(t, source, dest, drop) {
        MoveReparents(t, source, dest, drop);
        KeptEdge(Edges(t.forest, ROOT), Edges(Step(s, a).tree.forest, ROOT), (parent, name),
                 (ParentName(PathTo(t.forest, source), ROOT), Get(t.forest, source).name),
                 multiset{(ParentName(Base(t, dest, drop) + [Get(t.forest, source).name], ROOT),
                           Get(t.forest, source).name)});
      }
    case Delete(row, holdsFaxes) =>
      if Deletable(t, row, holdsFaxes) {
        RemoveEdges(t.forest, row, ROOT);
        LeafEdges(Get(t.forest, row), ParentOf(t.forest, row, ROOT));
        KeptEdge(Edges(t.forest, ROOT), Edges(Remove(t.forest, row), ROOT), (parent, name),
                 (ParentOf(t.forest, row, ROOT), Get(t.forest, row).name), multiset{});
      }
    case StartAgain => RereadEdges(t, inbox, trash);
  }

  lemma {:induction false} KeptEdge(before: multiset<(string, string)>, after: multiset<(string, string)>,
                                    e: (string, string),
                                    gone: (string, string), more: multiset<(string, string)>)
    requires after + multiset{gone} == before + more && e in before && e != gone
    ensures e in after
  {
    assert (after + multiset{gone})[e] == (before + more)[e];
  }

  /** None of the actions moves or deletes the folder of that name itself. */
  predicate LeftAlone(s: Store, actions: seq<Action>, name: string)
    decreases |actions|
  {
    actions == [] || (!Moves(s, actions[0], name) && LeftAlone(Step(s, actions[0]), actions[1..], name))
  }

  /** Over any sequence of actions a folder stays in the folder it is in, until it is moved or
      deleted itself: wherever that folder goes, it goes along. */
  lemma {:induction false} EdgeStays(s: Store, actions: seq<Action>, parent: string, name: string, inbox: string,
                                     trash: string)
    requires Good(s, inbox, trash) && (parent, name) in Edges(s.tree.forest, ROOT) && LeftAlone(s, actions, name)
    ensures (parent, name) in Edges(Run(s, actions).tree.forest, ROOT)
    decreases |actions|
  {
    if actions != [] {
      StepGood(s, actions[0], inbox, trash);
      StepEdge(s, actions[0], parent, name, inbox, trash);
      EdgeStays(Step(s, actions[0]), actions[1..], parent, name, inbox, trash);
    }
  }

  // Paths.

  /** The folder before place i of a path. */
  function Before(path: Path, i: nat, top: string): string
    requires i < |path|
  {
    if i == 0 then top else path[i - 1]
  }

  /** Each name on a path is in the one before it. */
  lemma {:induction false} PathEdges(fs: seq<Node>, r: nat, i: nat, top: string)
    requires r in Rows(fs) && i < |PathTo(fs, r)|
    ensures (Before(PathTo(fs, r), i, top), PathTo(fs, r)[i]) in Edges(fs, top)
    decreases fs
  {
    if fs[0].row != r {
      if r in Rows(fs[0].kids) {
        if i > 0 { PathEdges(fs[0].kids, r, i - 1, fs[0].name); }
      } else {
        PathEdges(fs[1..], r, i, top);
      }
    }
  }

  /** A folder with a parent is somewhere. */
  lemma {:induction false} EdgeRow(fs: seq<Node>, parent: string, name: string, top: string) returns (r: nat)
    requires Unique(fs) && (parent, name) in Edges(fs, top)
    ensures r in Rows(fs) && PathTo(fs, r)[|PathTo(fs, r)| - 1] == name
    decreases fs
  {
    if (parent, name) == (top, fs[0].name) {
      r := fs[0].row;
    } else if (parent, name) in Edges(fs[0].kids, fs[0].name) {
      r := EdgeRow(fs[0].kids, parent, name, fs[0].name);
    } else {
      r := EdgeRow(fs[1..], parent, name, top);
    }
  }

  lemma {:induction false} CountEdges(fs: seq<Node>, a: string, b: string, name: string, top: string)
    requires a != b
    ensures Edges(fs, top)[(a, name)] + Edges(fs, top)[(b, name)] <= Count(fs, name)
    decreases fs
  {
    if fs != [] {
      CountEdges(fs[0].kids, a, b, name, fs[0].name);
      CountEdges(fs[1..], a, b, name, top);
    }
  }

  /** A folder is in one folder only. */
  lemma {:induction false} OneParent(s: Store, a: string, b: string, name: string, inbox: string, trash: string)
    requires Good(s, inbox, trash)
    requires (a, name) in Edges(s.tree.forest, ROOT) && (b, name) in Edges(s.tree.forest, ROOT)
    ensures a == b
  {
    assert Count(s.tree.forest, name) <= 1;
    if a != b { CountEdges(s.tree.forest, a, b, name, ROOT); }
  }

  /** The path ends with the given names. */
  predicate EndsWith(path: Path, names: Path)
  {
    |names| <= |path| && path[|path| - |names|..] == names
  }

  lemma {:induction false} EndsEarlier(path: Path, names: Path, k: nat)
    requires k < |names| && |names| - k <= |path| && EndsWith(path, names[k + 1..])
        && path[|path| - (|names| - k)] == names[k]
    ensures EndsWith(path, names[k..])
  {
    var at := |path| - (|names| - k);
    assert path[at..] == [path[at]] + path[at + 1..] && names[k..] == [names[k]] + names[k + 1..];
  }

  /** Each of the names is in the one before it. */
  predicate Chained(fs: seq<Node>, names: Path)
  {
    forall i | 1 <= i < |names| :: (names[i - 1], names[i]) in Edges(fs, ROOT)
  }

  lemma {:induction false} PathChained(fs: seq<Node>, r: nat, j: nat)
    requires r in Rows(fs) && j <= |PathTo(fs, r)|
    ensures Chained(fs, PathTo(fs, r)[j..])
  {
    var names := PathTo(fs, r)[j..];
    forall i | 1 <= i < |names| ensures (names[i - 1], names[i]) in Edges(fs, ROOT) {
      PathEdges(fs, r, j + i, ROOT);
    }
  }

  lemma {:induction false} ChainStays(s: Store, actions: seq<Action>, names: Path, inbox: string, trash: string)
    requires Good(s, inbox, trash) && Chained(s.tree.forest, names)
    requires forall i | 1 <= i < |names| :: LeftAlone(s, actions, names[i])
    ensures Chained(Run(s, actions).tree.forest, names)
  {
    forall i | 1 <= i < |names| ensures (names[i - 1], names[i]) in Edges(Run(s, actions).tree.forest, ROOT) {
      EdgeStays(s, actions, names[i - 1], names[i], inbox, trash);
    }
  }

  /** If each of the names is in the one before it, the path to the last of them ends with them. */
  lemma {:induction false} ChainPath(s: Store, names: Path, r: nat, k: nat, inbox: string, trash: string)
    requires Good(s, inbox, trash) && Clean(names) && k < |names|
    requires Chained(s.tree.forest, names)
    requires r in Rows(s.tree.forest) && PathTo(s.tree.forest, r)[|PathTo(s.tree.forest, r)| - 1] == names[|names| - 1]
    ensures EndsWith(PathTo(s.tree.forest, r), names[k..])
    decreases |names| - k
  {
    var path := PathTo(s.tree.forest, r);
    if k == |names| - 1 {
      assert names[k + 1..] == [] == path[|path|..];
    } else {
      ChainPath(s, names, r, k + 1, inbox, trash);
      var at := |path| - (|names| - (k + 1));
      assert path[at] == path[at..][0] == names[k + 1..][0];
      PathEdges(s.tree.forest, r, at, ROOT);
      OneParent(s, Before(path, at, ROOT), names[k], names[k + 1], inbox, trash);
      assert DIVIDER in ROOT && DIVIDER !in names[k];
    }
    EndsEarlier(path, names, k);
  }

  /** The last of several names has a folder, whose path ends with them. */
  lemma {:induction false} ChainRow(s: Store, names: Path, inbox: string, trash: string) returns (r: nat)
    requires Good(s, inbox, trash) && Clean(names) && |names| > 1 && Chained(s.tree.forest, names)
    ensures r in Rows(s.tree.forest) && EndsWith(PathTo(s.tree.forest, r), names)
  {
    var n := |names| - 1;
    r := EdgeRow(s.tree.forest, names[n - 1], names[n], ROOT);
    ChainPath(s, names, r, 0, inbox, trash);
    assert names[0..] == names;
  }

  /** Over any sequence of actions a folder stays in every folder that it is in, by way of the
      same folders, unless it or one between them is moved or deleted itself. */
  lemma {:induction false} DescendantsStay(s: Store, actions: seq<Action>, r: nat, j: nat, inbox: string, trash: string)
      returns (now: nat)
    requires Good(s, inbox, trash) && r in Rows(s.tree.forest) && j < |PathTo(s.tree.forest, r)| - 1
    requires forall i | j < i < |PathTo(s.tree.forest, r)| :: LeftAlone(s, actions, PathTo(s.tree.forest, r)[i])
    ensures now in Rows(Run(s, actions).tree.forest)
    ensures EndsWith(PathTo(Run(s, actions).tree.forest, now), PathTo(s.tree.forest, r)[j..])
  {
    var names := PathTo(s.tree.forest, r)[j..];
    PathChained(s.tree.forest, r, j);
    forall i | 1 <= i < |names| ensures LeftAlone(s, actions, names[i]) {
      assert names[i] == PathTo(s.tree.forest, r)[j + i];
    }
    ChainStays(s, actions, names, inbox, trash);
    RunGood(s, actions, inbox, trash);
    PathClean(s.tree.forest, r);
    now := ChainRow(Run(s, actions), names, inbox, trash);
  }
}
