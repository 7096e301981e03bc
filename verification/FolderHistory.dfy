/** Everything that can happen to the folders: making one, dragging one, deleting an empty one,
    and ending and starting the program. */
module FolderHistory {
  import Bits
  import opened Folders
  import opened FolderMoves
  import opened FolderPaths
  import opened FolderReread

  /** The folder tree, the names that the name validator holds, the next unused fax list, and
      the names of the permanent folders. */
  datatype Store = Store(tree: Tree, names: set<string>, unused: nat, inbox: string, trash: string)

  /** What the user does. Whether a folder's fax list holds faxes is given from outside. */
  datatype Action =
    | Make(name: string)
    | Drag(source: nat, dest: nat, drop: Drop)
    | Delete(row: nat, holdsFaxes: bool)
    | StartAgain

  predicate ValidName(names: set<string>, name: string)
  {
    DIVIDER !in name && name !in names
  }

  /** Only an empty folder that is not permanent may be deleted. */
  predicate Deletable(t: Tree, row: nat, holdsFaxes: bool)
  {
    row in Rows(t.forest) && !holdsFaxes && Get(t.forest, row).kids == [] && !Get(t.forest, row).rootOnly
  }

  predicate CanDrag(t: Tree, source: nat, dest: nat, drop: Drop)
  {
    source in Rows(t.forest) && dest in Rows(t.forest) && Accepted(t, source, dest, drop)
  }

  function Start(inbox: string, trash: string): Store
  {
    Store(Tree([Node(0, inbox, true, []), Node(1, trash, true, [])], map[0 := 0, 1 := 1], 2), {inbox, trash}, 2, inbox,
          trash)
  }

  function MakeIn(t: Tree, name: string, list: nat): Tree
  {
    Tree(t.forest + [Node(t.next, name, false, [])], t.lists[t.next := list], t.next + 1)
  }

  function DeleteIn(t: Tree, row: nat): Tree
  {
    Tree(Remove(t.forest, row), t.lists - {row}, t.next)
  }

  /** The names of the folders. */
  function TreeNames(fs: seq<Node>): set<string>
  {
    if fs == [] then {} else {fs[0].name} + TreeNames(fs[0].kids) + TreeNames(fs[1..])
  }

  /** What an action does. A folder cannot be given the empty name. */
  function Step(s: Store, a: Action): Store
  {
    match a
    case Make(name) =>
      if name != "" && ValidName(s.names, name) then
        s.(tree := MakeIn(s.tree, name, s.unused), names := s.names + {name}, unused := s.unused + 1)
      else s
    case Drag(source, dest, drop) =>
      if CanDrag(s.tree, source, dest, drop) then s.(tree := Move(s.tree, source, dest, drop)) else s
    case Delete(row, holdsFaxes) =>
      if Deletable(s.tree, row, holdsFaxes) then
        s.(tree := DeleteIn(s.tree, row), names := s.names - {Get(s.tree.forest, row).name})
      else s
    case StartAgain =>
      s.(tree := Reread(s.tree, s.inbox, s.trash), names := TreeNames(s.tree.forest))
  }

  function Run(s: Store, actions: seq<Action>): Store
    decreases |actions|
  {
    if actions == [] then s else Run(Step(s, actions[0]), actions[1..])
  }

  // What always holds.

  /** How many folders have the name. */
  function Count(fs: seq<Node>, name: string): nat
  {
    if fs == [] then 0
    else (if fs[0].name == name then 1 else 0) + Count(fs[0].kids, name) + Count(fs[1..], name)
  }

  /** The folders have exactly these names, each folder its own. */
  ghost predicate NamesAre(fs: seq<Node>, names: set<string>)
  {
    forall name :: Count(fs, name) == if name in names then 1 else 0
  }

  predicate ListsBelow(lists: Lists, m: nat)
  {
    forall r | r in lists :: lists[r] < m
  }

  /** The permanent folder of that row and name is at the root. */
  predicate PermanentAt(fs: seq<Node>, row: nat, name: string)
  {
    fs != [] && ((fs[0].row == row && fs[0].rootOnly && fs[0].name == name) || PermanentAt(fs[1..], row, name))
  }

  ghost predicate HasPermanent(fs: seq<Node>, name: string)
  {
    exists row: nat :: PermanentAt(fs, row, name)
  }

  ghost predicate Good(s: Store, inbox: string, trash: string)
  {
    && Sound(s.tree) && NamesAre(s.tree.forest, s.names) && s.unused > 0 && ListsBelow(s.tree.lists, s.unused)
    && HasPermanent(s.tree.forest, inbox) && HasPermanent(s.tree.forest, trash)
    && s.inbox == inbox && s.trash == trash
  }

  // Names.

  lemma {:induction false} CountIsBag(fs: seq<Node>, name: string)
    ensures Count(fs, name) == Bag(fs, map[])[(name, 0)]
    decreases fs
  {
    if fs != [] {
      CountIsBag(fs[0].kids, name);
      CountIsBag(fs[1..], name);
    }
  }

  lemma {:induction false} SameNames(fs: seq<Node>, gs: seq<Node>, names: set<string>)
    requires Bits.Same(Bag(fs, map[]), Bag(gs, map[])) && NamesAre(fs, names)
    ensures NamesAre(gs, names)
  {
    forall name ensures Count(gs, name) == if name in names then 1 else 0 {
      CountIsBag(fs, name);
      CountIsBag(gs, name);
      assert Count(fs, name) == if name in names then 1 else 0;
    }
  }

  lemma {:induction false} CopyNames(fs: seq<Node>, lists: Lists, next: nat)
    ensures Bag(CopyLevel(fs, lists, next).nodes, map[]) == Bag(fs, map[])
    decreases fs
  {
    if fs != [] {
      var f := fs[0];
      var inside := CopyLevel(f.kids, HandOver(lists, f.row, next), next + 1);
      CopyNames(f.kids, HandOver(lists, f.row, next), next + 1);
      CopyNames(fs[1..], inside.lists, inside.next);
      BagCons(Node(next, f.name, false, inside.nodes), CopyLevel(fs[1..], inside.lists, inside.next).nodes, map[]);
    }
  }

  /** A move changes no name. */
  lemma {:induction false} MoveNames(t: Tree, source: nat, dest: nat, drop: Drop)
    requires Sound(t) && CanDrag(t, source, dest, drop)
    ensures Bits.Same(Bag(t.forest, map[]), Bag(Move(t, source, dest, drop).forest, map[]))
  {
    var node := Get(t.forest, source);
    MovedSound(t, source, dest, drop);
    MoveBag(t.forest, source, dest, drop, MovedTo(node, t.lists, t.next).node, map[]);
    RemoveBag(t.forest, source, map[]);
    MovedNames(node, t.lists, t.next);
  }

  lemma {:induction false} MovedNames(node: Node, lists: Lists, next: nat)
    ensures BagOne(MovedTo(node, lists, next).node, map[]) == BagOne(node, map[])
  {
    CopyNames(node.kids, HandOver(lists, node.row, next), next + 1);
  }

  lemma {:induction false} CopyBelow(fs: seq<Node>, lists: Lists, next: nat, m: nat)
    requires m > 0 && ListsBelow(lists, m)
    ensures ListsBelow(CopyLevel(fs, lists, next).lists, m)
    decreases fs
  {
    if fs != [] {
      var inside := CopyLevel(fs[0].kids, HandOver(lists, fs[0].row, next), next + 1);
      CopyBelow(fs[0].kids, HandOver(lists, fs[0].row, next), next + 1, m);
      CopyBelow(fs[1..], inside.lists, inside.next, m);
    }
  }

  // Permanent folders.

  lemma {:induction false} PermanentCons(f: Node, others: seq<Node>, row: nat, name: string)
    ensures PermanentAt([f] + others, row, name)
       <==> (f.row == row && f.rootOnly && f.name == name) || PermanentAt(others, row, name)
  {
    assert ([f] + others)[1..] == others;
  }

  lemma {:induction false} PermanentGet(fs: seq<Node>, row: nat, name: string)
    requires Unique(fs) && PermanentAt(fs, row, name)
    ensures row in Rows(fs) && Get(fs, row).rootOnly && Get(fs, row).name == name
  {
    if fs[0].row != row || !fs[0].rootOnly || fs[0].name != name { PermanentGet(fs[1..], row, name); }
  }

  lemma {:induction false} PlaceKeepsPermanent(fs: seq<Node>, dest: nat, drop: Drop, node: Node, row: nat, name: string)
    requires PermanentAt(fs, row, name)
    ensures PermanentAt(Place(fs, dest, drop, node), row, name)
  {
    var f, tail := fs[0], fs[1..];
    if f.row == dest {
      PermanentCons(node, fs, row, name);
      PermanentCons(node, tail, row, name);
      PermanentCons(f, [node] + tail, row, name);
      assert [f, node] + tail == [f] + ([node] + tail);
      PermanentCons(f.(kids := [node] + f.kids), tail, row, name);
    } else {
      if PermanentAt(tail, row, name) { PlaceKeepsPermanent(tail, dest, drop, node, row, name); }
      PermanentCons(f.(kids := Place(f.kids, dest, drop, node)), Place(tail, dest, drop, node), row, name);
    }
  }

  lemma {:induction false} PlacePermanent(fs: seq<Node>, dest: nat, drop: Drop, node: Node)
    requires AtRoot(fs, dest) && drop != Inside && node.rootOnly
    ensures PermanentAt(Place(fs, dest, drop, node), node.row, node.name)
  {
    var f, tail := fs[0], fs[1..];
    if f.row == dest {
      PermanentCons(node, fs, node.row, node.name);
      PermanentCons(node, tail, node.row, node.name);
      PermanentCons(f, [node] + tail, node.row, node.name);
      assert [f, node] + tail == [f] + ([node] + tail);
    } else {
      PlacePermanent(tail, dest, drop, node);
      PermanentCons(f.(kids := Place(f.kids, dest, drop, node)), Place(tail, dest, drop, node), node.row, node.name);
    }
  }

  lemma {:induction false} RemoveKeepsPermanent(fs: seq<Node>, gone: nat, row: nat, name: string)
    requires PermanentAt(fs, row, name) && gone != row
    ensures PermanentAt(Remove(fs, gone), row, name)
  {
    var f, tail := fs[0], fs[1..];
    if f.row != gone {
      if PermanentAt(tail, row, name) { RemoveKeepsPermanent(tail, gone, row, name); }
      PermanentCons(f.(kids := Remove(f.kids, gone)), Remove(tail, gone), row, name);
    }
  }

  /** A permanent folder stays at the root when a folder is moved, be it the one moved. */
  lemma {:induction false} MoveKeepsPermanent(t: Tree, source: nat, dest: nat, drop: Drop, name: string)
    requires Sound(t) && CanDrag(t, source, dest, drop) && HasPermanent(t.forest, name)
    ensures HasPermanent(Move(t, source, dest, drop).forest, name)
  {
    var row: nat :| PermanentAt(t.forest, row, name);
    var node := MovedTo(Get(t.forest, source), t.lists, t.next).node;
    PermanentGet(t.forest, row, name);
    AcceptedIsSafe(t, source, dest, drop);
    if row == source {
      PlacePermanent(t.forest, dest, drop, node);
      RemoveKeepsPermanent(Place(t.forest, dest, drop, node), source, t.next, name);
    } else {
      PlaceKeepsPermanent(t.forest, dest, drop, node, row, name);
      RemoveKeepsPermanent(Place(t.forest, dest, drop, node), source, row, name);
    }
  }

  // Making a folder.

  lemma {:induction false} SnocTree(fs: seq<Node>, f: Node)
    requires f.kids == [] && !f.rootOnly && DIVIDER !in f.name && f.row !in Rows(fs)
    ensures Rows(fs + [f]) == Rows(fs) + {f.row}
    ensures Unique(fs) ==> Unique(fs + [f])
    ensures RootOnlyAtRoot(fs) ==> RootOnlyAtRoot(fs + [f])
    ensures CleanTree(fs) ==> CleanTree(fs + [f])
  {
    if fs == [] {
      NodeRows(f, []);
      RootCons(f, []);
      CleanCons(f, []);
      assert fs + [f] == [f] + [];
    } else {
      SnocTree(fs[1..], f);
      assert fs + [f] == [fs[0]] + (fs[1..] + [f]);
      NodeRows(fs[0], fs[1..] + [f]);
      RootCons(fs[0], fs[1..] + [f]);
      CleanCons(fs[0], fs[1..] + [f]);
    }
  }

  lemma {:induction false} SnocBag(fs: seq<Node>, f: Node, lists: Lists)
    ensures Bits.Same(Bag(fs + [f], lists), Bag(fs, lists) + BagOne(f, lists))
  {
    if fs == [] {
      assert fs + [f] == [f] + [];
      BagCons(f, [], lists);
      InTail(BagOne(f, lists), multiset{}, multiset{});
    } else {
      SnocBag(fs[1..], f, lists);
      assert fs + [f] == [fs[0]] + (fs[1..] + [f]);
      BagCons(fs[0], fs[1..] + [f], lists);
      InTail(BagOne(fs[0], lists), Bag(fs[1..], lists), BagOne(f, lists));
    }
  }

  /** The label of a folder with none in it. */
  lemma {:induction false} LeafBag(f: Node, lists: Lists)
    requires f.kids == []
    ensures BagOne(f, lists) == multiset{(f.name, ListOf(lists, f.row))}
  {
  }

  lemma {:induction false} SnocPermanent(fs: seq<Node>, f: Node, row: nat, name: string)
    requires PermanentAt(fs, row, name)
    ensures PermanentAt(fs + [f], row, name)
  {
    assert fs + [f] == [fs[0]] + (fs[1..] + [f]);
    PermanentCons(fs[0], fs[1..] + [f], row, name);
    if PermanentAt(fs[1..], row, name) { SnocPermanent(fs[1..], f, row, name); }
  }

  lemma {:induction false} MakeSound(t: Tree, name: string, list: nat)
    requires Sound(t) && DIVIDER !in name && ListsBelow(t.lists, list)
    ensures Sound(MakeIn(t, name, list)) && ListsBelow(MakeIn(t, name, list).lists, list + 1)
  {
    SnocTree(t.forest, Node(t.next, name, false, []));
    KeysBelow(t.lists.Keys, {}, t.next, t.next);
  }

  lemma {:induction false} MakeNames(fs: seq<Node>, f: Node, names: set<string>)
    requires NamesAre(fs, names) && f.kids == [] && f.name !in names
    ensures NamesAre(fs + [f], names + {f.name})
  {
    SnocBag(fs, f, map[]);
    LeafBag(f, map[]);
    forall name ensures Count(fs + [f], name) == if name in names + {f.name} then 1 else 0 {
      CountIsBag(fs, name);
      CountIsBag(fs + [f], name);
      assert Count(fs, name) == if name in names then 1 else 0;
    }
  }

  // Deleting a folder.

  lemma {:induction false} DeleteSound(t: Tree, row: nat)
    requires Sound(t) && Deletable(t, row, false)
    ensures Sound(DeleteIn(t, row))
  {
    RemoveRows(t.forest, row);
    RemoveRootOnly(t.forest, row);
    RemoveClean(t.forest, row);
  }

  lemma {:induction false} DeleteNames(fs: seq<Node>, row: nat, names: set<string>)
    requires Unique(fs) && row in Rows(fs) && Get(fs, row).kids == [] && NamesAre(fs, names)
    ensures NamesAre(Remove(fs, row), names - {Get(fs, row).name})
  {
    RemoveBag(fs, row, map[]);
    LeafBag(Get(fs, row), map[]);
    forall name ensures Count(Remove(fs, row), name) == if name in names - {Get(fs, row).name} then 1 else 0 {
      CountIsBag(fs, name);
      CountIsBag(Remove(fs, row), name);
      assert Count(fs, name) == if name in names then 1 else 0;
    }
  }

  // Every history.

  lemma {:induction false} MakeGood(s: Store, name: string, inbox: string, trash: string)
    requires Good(s, inbox, trash)
    ensures Good(Step(s, Make(name)), inbox, trash)
  {
    if name != "" && ValidName(s.names, name) {
      var f := Node(s.tree.next, name, false, []);
      MakeSound(s.tree, name, s.unused);
      MakeNames(s.tree.forest, f, s.names);
      var a: nat :| PermanentAt(s.tree.forest, a, inbox);
      var b: nat :| PermanentAt(s.tree.forest, b, trash);
      SnocPermanent(s.tree.forest, f, a, inbox);
      SnocPermanent(s.tree.forest, f, b, trash);
    }
  }

  lemma {:induction false} DragGood(s: Store, source: nat, dest: nat, drop: Drop, inbox: string, trash: string)
    requires Good(s, inbox, trash)
    ensures Good(Step(s, Drag(source, dest, drop)), inbox, trash)
  {
    var t := s.tree;
    if CanDrag(t, source, dest, drop) {
      MoveKeeps(t, source, dest, drop);
      MoveNames(t, source, dest, drop);
      SameNames(t.forest, Move(t, source, dest, drop).forest, s.names);
      CopyBelow(Get(t.forest, source).kids, HandOver(t.lists, source, t.next), t.next + 1, s.unused);
      MoveKeepsPermanent(t, source, dest, drop, inbox);
      MoveKeepsPermanent(t, source, dest, drop, trash);
    }
  }

  lemma {:induction false} DeleteGood(s: Store, row: nat, holdsFaxes: bool, inbox: string, trash: string)
    requires Good(s, inbox, trash)
    ensures Good(Step(s, Delete(row, holdsFaxes)), inbox, trash)
  {
    if Deletable(s.tree, row, holdsFaxes) {
      DeleteSound(s.tree, row);
      DeleteNames(s.tree.forest, row, s.names);
      var a: nat :| PermanentAt(s.tree.forest, a, inbox);
      var b: nat :| PermanentAt(s.tree.forest, b, trash);
      PermanentGet(s.tree.forest, a, inbox);
      PermanentGet(s.tree.forest, b, trash);
      RemoveKeepsPermanent(s.tree.forest, row, a, inbox);
      RemoveKeepsPermanent(s.tree.forest, row, b, trash);
    }
  }

  // Starting again.

  lemma {:induction false} NamesCounted(fs: seq<Node>, name: string)
    ensures name in TreeNames(fs) <==> Count(fs, name) > 0
    decreases fs
  {
    if fs != [] {
      NamesCounted(fs[0].kids, name);
      NamesCounted(fs[1..], name);
    }
  }

  lemma {:induction false} ReadNames(fs: seq<Node>, names: set<string>)
    requires NamesAre(fs, names)
    ensures TreeNames(fs) == names
  {
    forall name ensures name in TreeNames(fs) <==> name in names {
      NamesCounted(fs, name);
      assert Count(fs, name) == if name in names then 1 else 0;
    }
  }

  lemma {:induction false} RereadNames(t: Tree, inbox: string, trash: string)
    ensures Bits.Same(Bag(t.forest, map[]), Bag(Reread(t, inbox, trash).forest, map[]))
  {
    var fs := Reordered(t.forest, inbox, trash);
    ReorderedSame(t.forest, inbox, trash, map[]);
    CopyNames(fs, t.lists, t.next);
    MarkedBag(CopyLevel(fs, t.lists, t.next).nodes, inbox, trash, map[]);
  }

  lemma {:induction false} PermanentNamed(fs: seq<Node>, row: nat, name: string)
    requires PermanentAt(fs, row, name)
    ensures NamedAtRoot(fs, name)
  {
    if fs[0].name != name { PermanentNamed(fs[1..], row, name); }
  }

  lemma {:induction false} MarkedPermanent(fs: seq<Node>, inbox: string, trash: string, name: string) returns (row: nat)
    requires NamedAtRoot(fs, name) && (name == inbox || name == trash)
    ensures PermanentAt(Marked(fs, inbox, trash), row, name)
  {
    var f := fs[0].(rootOnly := fs[0].name == inbox || fs[0].name == trash);
    row := fs[0].row;
    if fs[0].name != name { row := MarkedPermanent(fs[1..], inbox, trash, name); }
    PermanentCons(f, Marked(fs[1..], inbox, trash), row, name);
  }

  lemma {:induction false} RereadPermanent(t: Tree, inbox: string, trash: string, name: string)
    requires HasPermanent(t.forest, name) && (name == inbox || name == trash)
    ensures HasPermanent(Reread(t, inbox, trash).forest, name)
  {
    var row: nat :| PermanentAt(t.forest, row, name);
    PermanentNamed(t.forest, row, name);
    RereadNamed(t, inbox, trash, name);
    var again := MarkedPermanent(CopyLevel(Reordered(t.forest, inbox, trash), t.lists, t.next).nodes, inbox, trash,
                                 name);
  }

  lemma {:induction false} RestartGood(s: Store, inbox: string, trash: string)
    requires Good(s, inbox, trash)
    ensures Good(Step(s, StartAgain), inbox, trash)
  {
    var t := s.tree;
    RereadSound(t, inbox, trash);
    RereadNames(t, inbox, trash);
    SameNames(t.forest, Reread(t, inbox, trash).forest, s.names);
    ReadNames(t.forest, s.names);
    CopyBelow(Reordered(t.forest, inbox, trash), t.lists, t.next, s.unused);
    RereadPermanent(t, inbox, trash, inbox);
    RereadPermanent(t, inbox, trash, trash);
  }

  lemma {:induction false} StepGood(s: Store, a: Action, inbox: string, trash: string)
    requires Good(s, inbox, trash)
    ensures Good(Step(s, a), inbox, trash)
  {
    match a
    case Make(name) => MakeGood(s, name, inbox, trash);
    case Drag(source, dest, drop) => DragGood(s, source, dest, drop, inbox, trash);
    case Delete(row, holdsFaxes) => DeleteGood(s, row, holdsFaxes, inbox, trash);
    case StartAgain => RestartGood(s, inbox, trash);
  }

  lemma {:induction false} StartGood(inbox: string, trash: string)
    requires inbox != trash && DIVIDER !in inbox && DIVIDER !in trash
    ensures Good(Start(inbox, trash), inbox, trash)
  {
    var a, b := Node(0, inbox, true, []), Node(1, trash, true, []);
    var fs := Start(inbox, trash).tree.forest;
    assert fs == [a] + [b] && [b] == [b] + [] && fs[1..] == [b];
    NodeRows(a, [b]);
    NodeRows(b, []);
    RootCons(a, [b]);
    CleanCons(a, [b]);
    PermanentCons(a, [b], 0, inbox);
    PermanentCons(b, [], 1, trash);
    PermanentCons(a, [b], 1, trash);
    forall name ensures Count(fs, name) == if name in {inbox, trash} then 1 else 0 {
      assert Count([b], name) == if name == trash then 1 else 0;
    }
  }

  /** After any sequence of actions the rows are a forest, each folder has a fax list of its
      own and a name of its own, the validator holds exactly those names, and the permanent
      folders are at the root. */
  lemma {:induction false} EveryHistory(inbox: string, trash: string, actions: seq<Action>)
    requires inbox != trash && DIVIDER !in inbox && DIVIDER !in trash
    ensures Good(Run(Start(inbox, trash), actions), inbox, trash)
  {
    StartGood(inbox, trash);
    RunGood(Start(inbox, trash), actions, inbox, trash);
  }

  lemma {:induction false} RunGood(s: Store, actions: seq<Action>, inbox: string, trash: string)
    requires Good(s, inbox, trash)
    ensures Good(Run(s, actions), inbox, trash)
    decreases |actions|
  {
    if actions != [] {
      StepGood(s, actions[0], inbox, trash);
      RunGood(Step(s, actions[0]), actions[1..], inbox, trash);
    }
  }

  /** The test of drops also refuses harmless ones: with folders A and AB at the root, A cannot
      be put into AB. */
  lemma {:induction false} HarmlessRefused(inbox: string, trash: string)
    requires inbox != trash && DIVIDER !in inbox && DIVIDER !in trash && {"A", "AB"} !! {inbox, trash}
    ensures var s := Run(Start(inbox, trash), [Make("A"), Make("AB")]);
      && Good(s, inbox, trash) && 2 in Rows(s.tree.forest) && 3 in Rows(s.tree.forest)
      && PathTo(s.tree.forest, 2) == ["A"] && PathTo(s.tree.forest, 3) == ["AB"]
      && 3 !in TreeRows(Get(s.tree.forest, 2)) && !Accepted(s.tree, 2, 3, Inside)
  {
    EveryHistory(inbox, trash, [Make("A"), Make("AB")]);
    var s := Run(Start(inbox, trash), [Make("A"), Make("AB")]);
    TwoMade(inbox, trash);
    var a, b, c, d := Node(0, inbox, true, []), Node(1, trash, true, []), Node(2, "A", false, []),
        Node(3, "AB", false, []);
    assert s.tree.forest == [a] + ([b] + ([c] + [d]));
    FourRows(a, b, c, d);
    Refused(["A"], ["AB", "A"]);
    assert ["AB"] + ["A"] == ["AB", "A"];
    assert ["AB", "A"][..0] == ["A"][..0] && "A" <= "AB";
  }

  lemma {:induction false} TwoMade(inbox: string, trash: string)
    requires {"A", "AB"} !! {inbox, trash}
    ensures Run(Start(inbox, trash), [Make("A"), Make("AB")]).tree.forest
         == [Node(0, inbox, true, []), Node(1, trash, true, []), Node(2, "A", false, []), Node(3, "AB", false, [])]
  {
    var s := Step(Start(inbox, trash), Make("A"));
    assert "A" != "AB" by { assert |"A"| != |"AB"|; }
    assert ValidName(Start(inbox, trash).names, "A") && ValidName(s.names, "AB");
    assert [Make("A"), Make("AB")][1..] == [Make("AB")] && [Make("AB")][1..] == [];
    assert Run(Start(inbox, trash), [Make("A"), Make("AB")]) == Step(s, Make("AB"));
  }

  lemma {:induction false} FourRows(a: Node, b: Node, c: Node, d: Node)
    requires a.row == 0 && b.row == 1 && c.row == 2 && d.row == 3
    requires a.kids == b.kids == c.kids == d.kids == []
    ensures var fs := [a] + ([b] + ([c] + [d]));
      && Rows(fs) == {0, 1, 2, 3} && PathTo(fs, 2) == [c.name] && PathTo(fs, 3) == [d.name]
      && Get(fs, 2) == c && Get(fs, 3) == d
  {
    NodeRows(a, [b] + ([c] + [d]));
    NodeRows(b, [c] + [d]);
    NodeRows(c, [d]);
    NodeRows(d, []);
    assert [d] == [d] + [];
    PathCons(a, [b] + ([c] + [d]), 2);
    PathCons(a, [b] + ([c] + [d]), 3);
    PathCons(b, [c] + [d], 2);
    PathCons(b, [c] + [d], 3);
    PathCons(c, [d], 2);
    PathCons(c, [d], 3);
    GetCons(a, [b] + ([c] + [d]), 2);
    GetCons(a, [b] + ([c] + [d]), 3);
    GetCons(b, [c] + [d], 2);
    GetCons(b, [c] + [d], 3);
    GetCons(c, [d], 2);
    GetCons(c, [d], 3);
  }

  // A folder and its faxes.

  /** A folder of that name has that fax list. */
  predicate Holds(s: Store, name: string, list: nat)
  {
    (name, list) in Bag(s.tree.forest, s.tree.lists)
  }

  lemma {:induction false} MakeHolds(t: Tree, name: string, list: nat, f: Node, own: nat)
    requires Sound(t) && f.row == t.next && (name, list) in Bag(t.forest, t.lists)
    ensures (name, list) in Bag(t.forest + [f], t.lists[t.next := own])
  {
    SnocBag(t.forest, f, t.lists[t.next := own]);
    BagOfView(t.forest, t.lists, t.lists[t.next := own]);
  }

  lemma {:induction false} DeleteHolds(t: Tree, name: string, list: nat, row: nat)
    requires Sound(t) && Deletable(t, row, false) && (name, list) in Bag(t.forest, t.lists)
    ensures name == Get(t.forest, row).name || (name, list) in Bag(Remove(t.forest, row), t.lists - {row})
  {
    RemoveBag(t.forest, row, t.lists);
    RemoveRows(t.forest, row);
    LeafBag(Get(t.forest, row), t.lists);
    BagOfView(Remove(t.forest, row), t.lists, t.lists - {row});
  }

  /** An action takes a folder's fax list away only by deleting the folder. */
  lemma {:induction false} StepHolds(s: Store, a: Action, name: string, list: nat, inbox: string, trash: string)
    requires Good(s, inbox, trash) && Holds(s, name, list)
    ensures Holds(Step(s, a), name, list) || (a.Delete? && name !in Step(s, a).names)
  {
    var t := s.tree;
    match a
    case Make(made) =>
      MakeHolds(t, name, list, Node(t.next, made, false, []), s.unused);
    case Drag(source, dest, drop) =>
      if CanDrag(t, source, dest, drop) { MoveConserves(t, source, dest, drop); }
    case Delete(row, holdsFaxes) =>
      if Deletable(t, row, holdsFaxes) { DeleteHolds(t, name, list, row); }
    case StartAgain => RereadBag(t, inbox, trash);
  }

  /** The folder is there before every one of the actions and after the last. */
  predicate Stays(s: Store, actions: seq<Action>, name: string)
    decreases |actions|
  {
    name in s.names && (actions == [] || Stays(Step(s, actions[0]), actions[1..], name))
  }

  /** A folder keeps its faxes for as long as it is not deleted, however often it and the
      folders around it are moved. */
  lemma {:induction false} FaxesStay(s: Store, actions: seq<Action>, name: string, list: nat, inbox: string,
                                     trash: string)
    requires Good(s, inbox, trash) && Holds(s, name, list) && Stays(s, actions, name)
    ensures Holds(Run(s, actions), name, list)
    decreases |actions|
  {
    if actions != [] {
      StepGood(s, actions[0], inbox, trash);
      StepHolds(s, actions[0], name, list, inbox, trash);
      FaxesStay(Step(s, actions[0]), actions[1..], name, list, inbox, trash);
    }
  }

  /** A folder goes only when it is deleted, and that only when it is empty, holds no faxes and
      is not permanent; and one is made only with a name that is not empty, has no divider and
      is not in use. */
  lemma {:induction false} StepNames(s: Store, a: Action, name: string, inbox: string, trash: string)
    requires Good(s, inbox, trash)
    ensures name in s.names ==>
      (name !in Step(s, a).names <==>
         && a.Delete? && !a.holdsFaxes && a.row in Rows(s.tree.forest) && Get(s.tree.forest, a.row).name == name
         && Get(s.tree.forest, a.row).kids == [] && !Get(s.tree.forest, a.row).rootOnly)
    ensures name !in s.names ==>
      (name in Step(s, a).names <==> a == Make(name) && name != "" && DIVIDER !in name)
  {
    if a.StartAgain? { ReadNames(s.tree.forest, s.names); }
  }

  // A folder and its place.

  /** The action takes the row away: it is in a folder that is moved and made anew, or deleted,
      or the program starts again. */
  predicate Takes(s: Store, a: Action, r: nat)
  {
    match a
    case Make(name) => false
    case Drag(source, dest, drop) => CanDrag(s.tree, source, dest, drop) && r in TreeRows(Get(s.tree.forest, source))
    case Delete(row, holdsFaxes) => Deletable(s.tree, row, holdsFaxes) && r == row
    case StartAgain => true
  }

  lemma {:induction false} SnocPath(fs: seq<Node>, f: Node, r: nat)
    requires r in Rows(fs) && f.row !in Rows(fs)
    ensures r in Rows(fs + [f]) && PathTo(fs + [f], r) == PathTo(fs, r)
  {
    var more := fs[1..] + [f];
    assert fs + [f] == [fs[0]] + more;
    if r in Rows(fs[1..]) { SnocPath(fs[1..], f, r); }
    NodeRows(fs[0], more);
    PathCons(fs[0], more, r);
  }

  lemma {:induction false} DragPlace(t: Tree, source: nat, dest: nat, drop: Drop, r: nat)
    requires Sound(t) && CanDrag(t, source, dest, drop) && r in Rows(t.forest)
    ensures var fs := Move(t, source, dest, drop).forest;
      && (r in Rows(fs) <==> r !in TreeRows(Get(t.forest, source)))
      && (r in Rows(fs) ==> PathTo(fs, r) == PathTo(t.forest, r))
  {
    var m := MovedTo(Get(t.forest, source), t.lists, t.next);
    MovedSound(t, source, dest, drop);
    MoveRows(t.forest, source, dest, drop, m.node);
    assert r in Span(0, t.next);
    if r !in TreeRows(Get(t.forest, source)) { OthersStay(t, source, dest, drop, r); }
  }

  /** An action takes away exactly the rows it should, and the other folders stay where they are. */
  lemma {:induction false} StepPlace(s: Store, a: Action, r: nat, inbox: string, trash: string)
    requires Good(s, inbox, trash) && r in Rows(s.tree.forest)
    ensures var fs := Step(s, a).tree.forest;
      && (r in Rows(fs) <==> !Takes(s, a, r))
      && (r in Rows(fs) ==> PathTo(fs, r) == PathTo(s.tree.forest, r))
  {
    var t := s.tree;
    match a
    case Make(name) =>
      if name != "" && ValidName(s.names, name) { SnocPath(t.forest, Node(t.next, name, false, []), r); }
    case Drag(source, dest, drop) =>
      if CanDrag(t, source, dest, drop) { DragPlace(t, source, dest, drop, r); }
    case Delete(row, holdsFaxes) =>
      if Deletable(t, row, holdsFaxes) {
        RemoveRows(t.forest, row);
        if r != row { RemovePath(t.forest, row, r); }
      }
    case StartAgain =>
      RereadSound(t, inbox, trash);
      assert r in Span(0, t.next);
  }

  /** None of the actions takes the row away. */
  predicate Untouched(s: Store, actions: seq<Action>, r: nat)
    decreases |actions|
  {
    actions == [] || (!Takes(s, actions[0], r) && Untouched(Step(s, actions[0]), actions[1..], r))
  }

  /** Over any sequence of actions a row is where it was, unless it was deleted or moved, by
      itself or in another one. */
  lemma {:induction false} PathsStay(s: Store, actions: seq<Action>, r: nat, inbox: string, trash: string)
    requires Good(s, inbox, trash) && r in Rows(s.tree.forest) && Untouched(s, actions, r)
    ensures r in Rows(Run(s, actions).tree.forest)
    ensures PathTo(Run(s, actions).tree.forest, r) == PathTo(s.tree.forest, r)
    decreases |actions|
  {
    if actions != [] {
      StepGood(s, actions[0], inbox, trash);
      StepPlace(s, actions[0], r, inbox, trash);
      PathsStay(Step(s, actions[0]), actions[1..], r, inbox, trash);
    }
  }

  /** The names in use. */
  class FolderNameValidator {
    var folderSet: set<string>

    constructor (names: set<string>)
      ensures folderSet == names
    {
      folderSet := names;
    }

    /** Can the name be given to a new folder? It is put in to see whether it was there. */
    method Validate(name: string) returns (ok: bool)
      modifies this
      ensures ok <==> DIVIDER !in name && name !in old(folderSet)
      ensures folderSet == old(folderSet)
    {
      ok := DIVIDER !in name;
      if ok {
        var size := |folderSet|;
        InsertFolderName(name);
        ok := |folderSet| > size;
        if ok {
          EraseFolderName(name);
        }
      }
    }

    method InsertFolderName(name: string)
      modifies this
      ensures folderSet == old(folderSet) + {name}
    {
      folderSet := folderSet + {name};
    }

    method EraseFolderName(name: string)
      modifies this
      ensures folderSet == old(folderSet) - {name}
    {
      folderSet := folderSet - {name};
    }
  }

  /** The folders, and what the user can do with them. */
  class FolderManager {
    const inbox: string
    const trash: string
    const tree: FolderTree
    const validator: FolderNameValidator
    var nextList: nat

    ghost function Now(): Store
      reads this, tree, validator
    {
      Store(tree.Now(), validator.folderSet, nextList, inbox, trash)
    }

    ghost predicate Valid()
      reads this, tree, validator
    {
      Good(Now(), inbox, trash)
    }

    constructor (inbox: string, trash: string)
      requires inbox != trash && DIVIDER !in inbox && DIVIDER !in trash
      ensures Valid() && Now() == Start(inbox, trash) && fresh(tree) && fresh(validator)
      ensures this.inbox == inbox && this.trash == trash
    {
      this.inbox, this.trash := inbox, trash;
      tree := new FolderTree(inbox, trash);
      validator := new FolderNameValidator({inbox, trash});
      nextList := 2;
      new;
      StartGood(inbox, trash);
    }

    /** The folders that were read when the program started. */
    constructor Load(s: Store)
      requires Good(s, s.inbox, s.trash)
      ensures Valid() && Now() == s && fresh(tree) && fresh(validator)
      ensures inbox == s.inbox && trash == s.trash
    {
      inbox, trash := s.inbox, s.trash;
      tree := new FolderTree.Load(s.tree);
      validator := new FolderNameValidator(s.names);
      nextList := s.unused;
    }

    /** Make a folder at the root, if a name is given and is valid. */
    method MakeFolder(name: string)
      requires Valid()
      modifies this, tree, validator
      ensures Valid() && Now() == Step(old(Now()), Make(name))
    {
      StepGood(Now(), Make(name), inbox, trash);
      if name == "" {
        return;
      }
      var ok := validator.Validate(name);
      if ok {
        tree.Append(name, nextList);
        nextList := nextList + 1;
        validator.InsertFolderName(name);
      }
    }

    /** Drop a folder on or beside another. */
    method DropFolder(source: nat, dest: nat, drop: Drop)
      requires Valid() && source in Rows(tree.forest) && dest in Rows(tree.forest)
      modifies this, tree, validator
      ensures Valid() && Now() == Step(old(Now()), Drag(source, dest, drop))
    {
      StepGood(Now(), Drag(source, dest, drop), inbox, trash);
      tree.MoveFolder(source, dest, drop);
    }

    /** Delete a folder, unless it is permanent or something is in it. */
    method DeleteFolder(row: nat, holdsFaxes: bool)
      requires Valid() && row in Rows(tree.forest)
      modifies this, tree, validator
      ensures Valid() && Now() == Step(old(Now()), Delete(row, holdsFaxes))
    {
      StepGood(Now(), Delete(row, holdsFaxes), inbox, trash);
      var node := Get(tree.forest, row);
      if !node.rootOnly && node.kids == [] && !holdsFaxes {
        validator.EraseFolderName(node.name);
        tree.Erase(row);
      }
    }
  }
}
