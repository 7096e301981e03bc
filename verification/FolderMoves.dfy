/** Dragging fax folders: a moved folder is made anew where it is dropped, its fax list and
    the folders in it are handed over one by one, and the old row is removed. */
module FolderMoves {
  import opened Bits
  import opened Folders

  /** A row of the folder tree. Only the permanent folders must stay at the root. */
  datatype Node = Node(row: nat, name: string, rootOnly: bool, kids: seq<Node>)

  /** What the user sees: names, fax lists, and the folders in a folder. */
  datatype View = View(name: string, faxes: nat, kids: seq<View>)

  /** Where a folder is dropped, as seen from the row it is dropped on. */
  datatype Drop = Above | Below | Inside

  /** Fax lists by row. */
  type Lists = map<nat, nat>

  function Rows(fs: seq<Node>): set<nat>
  {
    if fs == [] then {} else {fs[0].row} + Rows(fs[0].kids) + Rows(fs[1..])
  }

  /** No row occurs twice. */
  predicate Unique(fs: seq<Node>)
  {
    fs == [] ||
    (&& fs[0].row !in Rows(fs[0].kids) + Rows(fs[1..])
     && Rows(fs[0].kids) !! Rows(fs[1..])
     && Unique(fs[0].kids) && Unique(fs[1..]))
  }

  /** The fax list of a row, or 0 if it has none. */
  function ListOf(lists: Lists, row: nat): nat
  {
    if row in lists then lists[row] else 0
  }

  function Show(fs: seq<Node>, lists: Lists): seq<View>
  {
    if fs == [] then []
    else [View(fs[0].name, ListOf(lists, fs[0].row), Show(fs[0].kids, lists))] + Show(fs[1..], lists)
  }

  /** Every folder with its fax list. */
  function Bag(fs: seq<Node>, lists: Lists): multiset<(string, nat)>
  {
    if fs == [] then multiset{} else BagOne(fs[0], lists) + Bag(fs[1..], lists)
  }

  function BagOne(f: Node, lists: Lists): multiset<(string, nat)>
  {
    multiset{(f.name, ListOf(lists, f.row))} + Bag(f.kids, lists)
  }

  /** No folder below the root is a permanent one. */
  predicate NoneRootOnly(fs: seq<Node>)
  {
    fs == [] || (!fs[0].rootOnly && NoneRootOnly(fs[0].kids) && NoneRootOnly(fs[1..]))
  }

  predicate RootOnlyAtRoot(fs: seq<Node>)
  {
    fs == [] || (NoneRootOnly(fs[0].kids) && RootOnlyAtRoot(fs[1..]))
  }

  // Handing over the folders in a folder.

  /** New rows, the fax lists by row after they are handed over, and the next unused row. */
  datatype Copied = Copied(nodes: seq<Node>, lists: Lists, next: nat)

  function HandOver(lists: Lists, row: nat, next: nat): Lists
  {
    (lists - {row})[next := ListOf(lists, row)]
  }

  function CopyLevel(fs: seq<Node>, lists: Lists, next: nat): Copied
    decreases fs
  {
    if fs == [] then Copied([], lists, next)
    else
      var f := fs[0];
      var inside := CopyLevel(f.kids, HandOver(lists, f.row, next), next + 1);
      var others := CopyLevel(fs[1..], inside.lists, inside.next);
      Copied([Node(next, f.name, false, inside.nodes)] + others.nodes, others.lists, others.next)
  }

  function Span(a: nat, b: nat): (s: set<nat>)
    ensures forall r: nat :: r in s <==> a <= r < b
    decreases b
  {
    if a < b then Span(a, b - 1) + {b - 1} else {}
  }

  lemma {:induction false} SpanSplit(a: nat, b: nat, c: nat)
    requires a < b <= c
    ensures {a} + Span(a + 1, b) + Span(b, c) == Span(a, c)
    ensures a !in Span(a + 1, b) + Span(b, c) && Span(a + 1, b) !! Span(b, c)
  {
  }

  lemma {:induction false} NodeRows(f: Node, others: seq<Node>)
    ensures Rows([f] + others) == {f.row} + Rows(f.kids) + Rows(others)
    ensures Unique([f] + others) <==>
              f.row !in Rows(f.kids) + Rows(others) && Rows(f.kids) !! Rows(others) && Unique(f.kids) && Unique(others)
    ensures NoneRootOnly([f] + others) <==> !f.rootOnly && NoneRootOnly(f.kids) && NoneRootOnly(others)
  {
    assert ([f] + others)[1..] == others;
  }

  /** The new rows are the next unused ones; they have the fax lists instead of the old ones. */
  lemma {:induction false} CopyRows(fs: seq<Node>, lists: Lists, next: nat)
    ensures var c := CopyLevel(fs, lists, next);
      && next <= c.next && Rows(c.nodes) == Span(next, c.next) && Unique(c.nodes) && NoneRootOnly(c.nodes)
    decreases fs
  {
    if fs != [] {
      var f := fs[0];
      var inside := CopyLevel(f.kids, HandOver(lists, f.row, next), next + 1);
      var others := CopyLevel(fs[1..], inside.lists, inside.next);
      CopyRows(f.kids, HandOver(lists, f.row, next), next + 1);
      CopyRows(fs[1..], inside.lists, inside.next);
      NodeRows(Node(next, f.name, false, inside.nodes), others.nodes);
      SpanSplit(next, inside.next, others.next);
    }
  }

  /** What copying does to the fax list of row r below next. */
  predicate KeptOrGone(before: Lists, after: Lists, gone: set<nat>, r: nat)
  {
    && (r in after <==> r in before && r !in gone)
    && (r !in gone ==> ListOf(after, r) == ListOf(before, r))
  }

  lemma {:induction false} GoneTwice(a: Lists, b: Lists, c: Lists, x: set<nat>, y: set<nat>, r: nat)
    requires KeptOrGone(a, b, x, r) && KeptOrGone(b, c, y, r)
    ensures KeptOrGone(a, c, x + y, r)
  {
  }

  lemma {:induction false} CopyFrame(fs: seq<Node>, lists: Lists, next: nat, r: nat)
    requires Rows(fs) <= Span(0, next) && r < next
    ensures KeptOrGone(lists, CopyLevel(fs, lists, next).lists, Rows(fs), r)
    decreases fs
  {
    if fs != [] {
      var f := fs[0];
      var lists1 := HandOver(lists, f.row, next);
      var inside := CopyLevel(f.kids, lists1, next + 1);
      CopyFrame(f.kids, lists1, next + 1, r);
      CopyRows(f.kids, lists1, next + 1);
      CopyFrame(fs[1..], inside.lists, inside.next, r);
      GoneTwice(lists, lists1, inside.lists, {f.row}, Rows(f.kids), r);
      GoneTwice(lists, inside.lists, CopyLevel(fs[1..], inside.lists, inside.next).lists, {f.row} + Rows(f.kids),
                Rows(fs[1..]), r);
    }
  }

  /** What is shown depends only on the fax lists of the rows shown. */
  lemma {:induction false} ShowSame(fs: seq<Node>, a: Lists, b: Lists)
    requires forall r | r in Rows(fs) :: ListOf(a, r) == ListOf(b, r)
    ensures Show(fs, a) == Show(fs, b)
    decreases fs
  {
    if fs != [] {
      ShowSame(fs[0].kids, a, b);
      ShowSame(fs[1..], a, b);
    }
  }

  /** Copied folders show what the originals showed. */
  lemma {:induction false} CopyShows(fs: seq<Node>, lists: Lists, next: nat)
    requires Unique(fs) && Rows(fs) <= Span(0, next)
    ensures var c := CopyLevel(fs, lists, next); Show(c.nodes, c.lists) == Show(fs, lists)
    decreases fs
  {
    if fs != [] {
      var f := fs[0];
      var lists1 := HandOver(lists, f.row, next);
      var inside := CopyLevel(f.kids, lists1, next + 1);
      var others := CopyLevel(fs[1..], inside.lists, inside.next);
      CopyRows(f.kids, lists1, next + 1);
      CopyShows(f.kids, lists1, next + 1);
      CopyShows(fs[1..], inside.lists, inside.next);
      KeptShows(f.kids, f.row, lists, next);
      LaterShows(fs, lists, next);
      assert ([Node(next, f.name, false, inside.nodes)] + others.nodes)[1..] == others.nodes;
    }
  }

  /** Handing over one row's fax list leaves other rows as they were. */
  lemma {:induction false} KeptShows(fs: seq<Node>, row: nat, lists: Lists, next: nat)
    requires row !in Rows(fs) && next !in Rows(fs)
    ensures Show(fs, HandOver(lists, row, next)) == Show(fs, lists)
  {
    ShowSame(fs, HandOver(lists, row, next), lists);
  }

  /** Copying the others changes neither the copies already made nor what the others show. */
  lemma {:induction false} LaterShows(fs: seq<Node>, lists: Lists, next: nat)
    requires fs != [] && Unique(fs) && Rows(fs) <= Span(0, next)
    ensures var f, lists1 := fs[0], HandOver(lists, fs[0].row, next);
      var inside := CopyLevel(f.kids, lists1, next + 1);
      var others := CopyLevel(fs[1..], inside.lists, inside.next);
      && ListOf(others.lists, next) == ListOf(lists, f.row)
      && Show(inside.nodes, others.lists) == Show(inside.nodes, inside.lists)
      && Show(fs[1..], inside.lists) == Show(fs[1..], lists)
  {
    var f, lists1 := fs[0], HandOver(lists, fs[0].row, next);
    var inside := CopyLevel(f.kids, lists1, next + 1);
    var others := CopyLevel(fs[1..], inside.lists, inside.next);
    CopyRows(f.kids, lists1, next + 1);
    CopyFrame(f.kids, lists1, next + 1, next);
    CopyFrame(fs[1..], inside.lists, inside.next, next);
    forall r | r in Rows(inside.nodes) ensures ListOf(others.lists, r) == ListOf(inside.lists, r) {
      CopyFrame(fs[1..], inside.lists, inside.next, r);
    }
    ShowSame(inside.nodes, others.lists, inside.lists);
    forall r | r in Rows(fs[1..]) ensures ListOf(inside.lists, r) == ListOf(lists, r) {
      CopyFrame(f.kids, lists1, next + 1, r);
    }
    ShowSame(fs[1..], inside.lists, lists);
  }

  // Placing and removing rows.

  /** A folder put above, below or in the one at row dest. */
  function Place(fs: seq<Node>, dest: nat, drop: Drop, node: Node): seq<Node>
  {
    if fs == [] then []
    else if fs[0].row == dest then
      match drop
      case Above => [node] + fs
      case Below => [fs[0], node] + fs[1..]
      case Inside => [fs[0].(kids := [node] + fs[0].kids)] + fs[1..]
    else [fs[0].(kids := Place(fs[0].kids, dest, drop, node))] + Place(fs[1..], dest, drop, node)
  }

  function Remove(fs: seq<Node>, row: nat): seq<Node>
  {
    if fs == [] then []
    else if fs[0].row == row then fs[1..]
    else [fs[0].(kids := Remove(fs[0].kids, row))] + Remove(fs[1..], row)
  }

  /** The node of a row. */
  function Get(fs: seq<Node>, row: nat): (node: Node)
    requires row in Rows(fs)
    ensures node.row == row
  {
    if fs[0].row == row then fs[0]
    else if row in Rows(fs[0].kids) then Get(fs[0].kids, row)
    else Get(fs[1..], row)
  }

  /** A node and all rows in it. */
  function TreeRows(node: Node): set<nat>
  {
    {node.row} + Rows(node.kids)
  }

  predicate UniqueTree(node: Node)
  {
    node.row !in Rows(node.kids) && Unique(node.kids)
  }

  lemma {:induction false} PlaceAbsent(fs: seq<Node>, dest: nat, drop: Drop, node: Node)
    requires dest !in Rows(fs)
    ensures Place(fs, dest, drop, node) == fs
    decreases fs
  {
    if fs != [] {
      PlaceAbsent(fs[0].kids, dest, drop, node);
      PlaceAbsent(fs[1..], dest, drop, node);
      FirstAndRest(fs);
    }
  }

  lemma {:induction false} FirstAndRest(fs: seq<Node>)
    requires fs != []
    ensures [fs[0].(kids := fs[0].kids)] + fs[1..] == fs
  {
  }

  lemma {:induction false} RemoveAbsent(fs: seq<Node>, row: nat)
    requires row !in Rows(fs)
    ensures Remove(fs, row) == fs
    decreases fs
  {
    if fs != [] {
      RemoveAbsent(fs[0].kids, row);
      RemoveAbsent(fs[1..], row);
      FirstAndRest(fs);
    }
  }

  lemma {:induction false} PlaceRowsHere(fs: seq<Node>, dest: nat, drop: Drop, node: Node)
    requires fs != [] && fs[0].row == dest && Unique(fs) && UniqueTree(node) && TreeRows(node) !! Rows(fs)
    ensures Rows(Place(fs, dest, drop, node)) == Rows(fs) + TreeRows(node) && Unique(Place(fs, dest, drop, node))
  {
    var f, tail := fs[0], fs[1..];
    match drop
    case Above =>
      NodeRows(node, fs);
    case Below =>
      NodeRows(node, tail);
      NodeRows(f, [node] + tail);
      assert [f, node] + tail == [f] + ([node] + tail);
    case Inside =>
      NodeRows(node, f.kids);
      NodeRows(f.(kids := [node] + f.kids), tail);
  }

  lemma {:induction false} UnionInFirst(x: set<nat>, a: set<nat>, b: set<nat>, c: set<nat>)
    ensures (x + (a + b)) + c == ((x + a) + c) + b
  {
  }

  lemma {:induction false} UnionInTail(a: set<nat>, b: set<nat>, c: set<nat>)
    ensures a + (b + c) == (a + b) + c
  {
  }

  lemma {:induction false} PlaceRows(fs: seq<Node>, dest: nat, drop: Drop, node: Node)
    requires Unique(fs) && dest in Rows(fs) && UniqueTree(node) && TreeRows(node) !! Rows(fs)
    ensures var r := Place(fs, dest, drop, node); Rows(r) == Rows(fs) + TreeRows(node) && Unique(r)
    decreases fs
  {
    var f, tail := fs[0], fs[1..];
    if f.row == dest {
      PlaceRowsHere(fs, dest, drop, node);
    } else if dest in Rows(f.kids) {
      PlaceRows(f.kids, dest, drop, node);
      PlaceAbsent(tail, dest, drop, node);
      NodeRows(f.(kids := Place(f.kids, dest, drop, node)), tail);
      UnionInFirst({f.row}, Rows(f.kids), TreeRows(node), Rows(tail));
    } else {
      PlaceRows(tail, dest, drop, node);
      PlaceAbsent(f.kids, dest, drop, node);
      NodeRows(f, Place(tail, dest, drop, node));
      UnionInTail({f.row} + Rows(f.kids), Rows(tail), TreeRows(node));
    }
  }

  lemma {:induction false} RemoveRows(fs: seq<Node>, row: nat)
    requires Unique(fs) && row in Rows(fs)
    ensures Rows(Remove(fs, row)) == Rows(fs) - TreeRows(Get(fs, row)) && Unique(Remove(fs, row))
    ensures TreeRows(Get(fs, row)) <= Rows(fs)
    decreases fs
  {
    var f, tail := fs[0], fs[1..];
    if f.row == row {
    } else if row in Rows(f.kids) {
      RemoveRows(f.kids, row);
      RemoveAbsent(tail, row);
    } else {
      RemoveRows(tail, row);
      RemoveAbsent(f.kids, row);
    }
  }

  // What a move keeps.

  lemma {:induction false} BagCons(f: Node, others: seq<Node>, lists: Lists)
    ensures Bag([f] + others, lists) == BagOne(f, lists) + Bag(others, lists)
  {
    assert ([f] + others)[1..] == others;
  }

  lemma {:induction false} PlaceHere(fs: seq<Node>, dest: nat, drop: Drop, node: Node, lists: Lists)
    requires fs != [] && fs[0].row == dest
    ensures Same(Bag(Place(fs, dest, drop, node), lists), Bag(fs, lists) + BagOne(node, lists))
  {
    var f, tail := fs[0], fs[1..];
    var own, a, b := multiset{(f.name, ListOf(lists, f.row))}, BagOne(f, lists), BagOne(node, lists);
    match drop
    case Above =>
      BagCons(node, fs, lists);
      InTail(b, Bag(fs, lists), multiset{});
    case Below =>
      BagCons(node, tail, lists);
      BagCons(f, [node] + tail, lists);
      assert [f, node] + tail == [f] + ([node] + tail);
      InTail(b, Bag(tail, lists), multiset{});
      InTail(a, Bag(tail, lists), b);
    case Inside =>
      BagCons(node, f.kids, lists);
      BagCons(f.(kids := [node] + f.kids), tail, lists);
      InTail(b, Bag(f.kids, lists), multiset{});
      InFirst(own, Bag(f.kids, lists), b, Bag(tail, lists));
  }

  lemma {:induction false} InFirst<T>(x: multiset<T>, a: multiset<T>, b: multiset<T>, c: multiset<T>)
    ensures (x + (a + b)) + c == ((x + a) + c) + b
  {
  }

  lemma {:induction false} InTail<T>(a: multiset<T>, b: multiset<T>, c: multiset<T>)
    ensures a + (b + c) == (a + b) + c && a + b == b + a
  {
  }

  lemma {:induction false} PlaceBag(fs: seq<Node>, dest: nat, drop: Drop, node: Node, lists: Lists)
    requires Unique(fs) && dest in Rows(fs)
    ensures Same(Bag(Place(fs, dest, drop, node), lists), Bag(fs, lists) + BagOne(node, lists))
    decreases fs
  {
    var f, tail := fs[0], fs[1..];
    var own, b := multiset{(f.name, ListOf(lists, f.row))}, BagOne(node, lists);
    if f.row == dest {
      PlaceHere(fs, dest, drop, node, lists);
    } else if dest in Rows(f.kids) {
      PlaceBag(f.kids, dest, drop, node, lists);
      PlaceAbsent(tail, dest, drop, node);
      BagCons(f.(kids := Place(f.kids, dest, drop, node)), tail, lists);
      InFirst(own, Bag(f.kids, lists), b, Bag(tail, lists));
    } else {
      PlaceBag(tail, dest, drop, node, lists);
      PlaceAbsent(f.kids, dest, drop, node);
      BagCons(f, Place(tail, dest, drop, node), lists);
      InTail(BagOne(f, lists), Bag(tail, lists), b);
    }
  }

  lemma {:induction false} RemoveBag(fs: seq<Node>, row: nat, lists: Lists)
    requires Unique(fs) && row in Rows(fs)
    ensures Same(Bag(fs, lists), Bag(Remove(fs, row), lists) + BagOne(Get(fs, row), lists))
    decreases fs
  {
    var f, tail := fs[0], fs[1..];
    var own, b := multiset{(f.name, ListOf(lists, f.row))}, BagOne(Get(fs, row), lists);
    if f.row == row {
      InTail(BagOne(f, lists), Bag(tail, lists), b);
    } else if row in Rows(f.kids) {
      RemoveBag(f.kids, row, lists);
      RemoveAbsent(tail, row);
      BagCons(f.(kids := Remove(f.kids, row)), tail, lists);
      InFirst(own, Bag(Remove(f.kids, row), lists), b, Bag(tail, lists));
    } else {
      RemoveBag(tail, row, lists);
      RemoveAbsent(f.kids, row);
      BagCons(f, Remove(tail, row), lists);
      InTail(BagOne(f, lists), Bag(Remove(tail, row), lists), b);
    }
  }

  /** A folder dropped outside a subtree leaves the subtree as it is. */
  lemma {:induction false} GetAfterPlace(fs: seq<Node>, dest: nat, drop: Drop, node: Node, row: nat)
    requires Unique(fs) && dest in Rows(fs) && row in Rows(fs) && TreeRows(node) !! Rows(fs) && UniqueTree(node)
    requires dest !in TreeRows(Get(fs, row)) || (dest == row && drop != Inside)
    ensures row in Rows(Place(fs, dest, drop, node)) && Get(Place(fs, dest, drop, node), row) == Get(fs, row)
    decreases fs
  {
    var f, tail := fs[0], fs[1..];
    PlaceRows(fs, dest, drop, node);
    if f.row == dest {
      assert ([node] + fs)[1..] == fs && ([f, node] + tail)[1..] == [node] + tail && ([node] + tail)[1..] == tail;
      assert ([node] + f.kids)[1..] == f.kids;
    } else if dest in Rows(f.kids) {
      PlaceAbsent(tail, dest, drop, node);
      if row in Rows(f.kids) { GetAfterPlace(f.kids, dest, drop, node, row); }
      PlaceRows(f.kids, dest, drop, node);
    } else {
      PlaceAbsent(f.kids, dest, drop, node);
      if row in Rows(tail) { GetAfterPlace(tail, dest, drop, node, row); }
      PlaceRows(tail, dest, drop, node);
    }
  }

  // Path names and the test for a valid drop.

  function PathTo(fs: seq<Node>, row: nat): (p: Path)
    requires row in Rows(fs)
    ensures p != []
  {
    if fs[0].row == row then [fs[0].name]
    else if row in Rows(fs[0].kids) then [fs[0].name] + PathTo(fs[0].kids, row)
    else PathTo(fs[1..], row)
  }

  function DropLast(path: Path): Path
    requires path != []
  {
    path[..|path| - 1]
  }

  /** The path of a folder is the beginning of the paths of all folders in it. */
  lemma {:induction false} PathThrough(fs: seq<Node>, row: nat, inner: nat)
    requires Unique(fs) && row in Rows(fs) && inner in TreeRows(Get(fs, row))
    ensures inner in Rows(fs) && PathTo(fs, row) <= PathTo(fs, inner)
    ensures inner != row ==> PathTo(fs, row) <= DropLast(PathTo(fs, inner))
    decreases fs
  {
    var f, tail := fs[0], fs[1..];
    RemoveRows(fs, row);
    if f.row == row {
    } else if row in Rows(f.kids) {
      RemoveRows(f.kids, row);
      PathThrough(f.kids, row, inner);
    } else {
      RemoveRows(tail, row);
      PathThrough(tail, row, inner);
    }
  }

  predicate CleanTree(fs: seq<Node>)
  {
    fs == [] || (DIVIDER !in fs[0].name && CleanTree(fs[0].kids) && CleanTree(fs[1..]))
  }

  lemma {:induction false} PathClean(fs: seq<Node>, row: nat)
    requires CleanTree(fs) && row in Rows(fs)
    ensures Clean(PathTo(fs, row)) && DIVIDER !in Get(fs, row).name && CleanTree(Get(fs, row).kids)
    decreases fs
  {
    if fs[0].row == row {
    } else if row in Rows(fs[0].kids) {
      PathClean(fs[0].kids, row);
    } else {
      PathClean(fs[1..], row);
    }
  }

  /** The path name of a folder begins the path names of those in it. */
  lemma {:induction false} PrintPrefix(p: Path, q: Path)
    requires p <= q
    ensures Print(p) <= Print(q)
    decreases |q|
  {
    if |p| < |q| {
      PrintPrefix(p, q[..|q| - 1]);
    } else {
      assert p == q;
    }
  }

  /** The test made on path names: the new one must not be the old one with more after it. */
  predicate IsValidDropPath(old_: string, new_: string)
  {
    !(old_ <= new_ && |new_| > |old_|)
  }

  /** The test refuses every drop of a folder into itself or into a folder in it. */
  lemma {:induction false} IntoItselfRefused(source: Path, base: Path, name: string)
    requires source <= base
    ensures !IsValidDropPath(Print(source), Print(base + [name]))
  {
    PrintPrefix(source, base);
    PrintSnoc(base, name);
  }

  lemma {:induction false} PrintFirst(path: Path)
    requires path != []
    ensures Print(path) == [DIVIDER] + path[0] + Print(path[1..])
    decreases |path|
  {
    if |path| > 1 {
      PrintFirst(path[..|path| - 1]);
      assert path[1..][..|path| - 2] == path[..|path| - 1][1..];
      SeqAssoc([DIVIDER] + path[0], Print(path[..|path| - 1][1..]), [DIVIDER] + path[|path| - 1]);
      SeqAssoc(Print(path[..|path| - 1]), [DIVIDER], path[|path| - 1]);
      SeqAssoc(Print(path[1..][..|path| - 2]), [DIVIDER], path[|path| - 1]);
    } else {
      assert path[1..] == [] && path[..0] == [];
      assert Print(path) == "" + [DIVIDER] + path[0];
    }
  }

  /** A path name begins another exactly when the paths agree up to the last name of the
      first, and that name begins the name in its place. */
  predicate Begins(p: Path, q: Path)
  {
    p == [] || (|p| <= |q| && p[..|p| - 1] == q[..|p| - 1] && p[|p| - 1] <= q[|p| - 1])
  }

  lemma {:induction false} PrefixMeans(p: Path, q: Path)
    requires Clean(p) && Clean(q)
    ensures Print(p) <= Print(q) <==> Begins(p, q)
    decreases |p|
  {
    if p != [] && q != [] {
      PrintFirst(p);
      PrintFirst(q);
      if |p| > 1 { PrintStart(p[1..]); }
      if |q| > 1 { PrintStart(q[1..]); }
      FirstNames(p[0], Print(p[1..]), q[0], Print(q[1..]));
      if |p| > 1 {
        PrefixMeans(p[1..], q[1..]);
        BeginsNext(p, q);
      }
    } else if p != [] {
      PrintStart(p);
    }
  }

  lemma {:induction false} BeginsNext(p: Path, q: Path)
    requires |p| > 1 && q != []
    ensures Begins(p, q) <==> p[0] == q[0] && Begins(p[1..], q[1..])
  {
    if |p| <= |q| {
      var m := |p| - 1;
      assert p[1..][..m - 1] == p[..m][1..] && q[1..][..m - 1] == q[..m][1..];
      assert p[..m] == [p[0]] + p[..m][1..] && q[..m] == [q[0]] + q[..m][1..];
    }
  }

  lemma {:induction false} FirstNames(a: string, s: string, b: string, t: string)
    requires DIVIDER !in a && DIVIDER !in b && (s == "" || s[0] == DIVIDER) && (t == "" || t[0] == DIVIDER)
    ensures s == "" ==> ([DIVIDER] + a + s <= [DIVIDER] + b + t <==> a <= b)
    ensures s != "" ==> ([DIVIDER] + a + s <= [DIVIDER] + b + t <==> a == b && s <= t)
  {
    var x, y := [DIVIDER] + a + s, [DIVIDER] + b + t;
    assert forall i | 0 <= i < |a| :: x[1 + i] == a[i];
    assert forall i | 0 <= i < |b| :: y[1 + i] == b[i];
    assert s != "" ==> x[1 + |a|] == DIVIDER;
    assert t != "" ==> y[1 + |b|] == DIVIDER;
    assert x[1 + |a|..] == s && y[1 + |b|..] == t;
    assert x <= y ==> forall i | 0 <= i < |x| :: x[i] == y[i];
  }

  /** Exactly which drops the test refuses. */
  lemma {:induction false} Refused(source: Path, target: Path)
    requires Clean(source) && Clean(target)
    ensures !IsValidDropPath(Print(source), Print(target)) <==> Begins(source, target) && source != target
  {
    PrefixMeans(source, target);
    if Print(source) == Print(target) { PrintUnique(source, target); }
  }

  // The whole move.

  predicate OneListEach(lists: Lists)
  {
    forall r, q | r in lists && q in lists && r != q :: lists[r] != lists[q]
  }

  lemma {:induction false} HandOverKeeps(lists: Lists, row: nat, next: nat)
    requires OneListEach(lists) && row in lists && next !in lists
    ensures OneListEach(HandOver(lists, row, next)) && HandOver(lists, row, next).Keys == lists.Keys - {row} + {next}
  {
  }

  /** The rows with fax lists when row r is handed over to n, then rows a to s, then rows b to t. */
  lemma {:induction false} KeysAfter(keys: set<nat>, r: nat, n: nat, a: set<nat>, s: set<nat>, b: set<nat>, t: set<nat>)
    requires r in keys && a <= keys && b <= keys && n !in keys
    requires r !in a + b && a !! b && s !! keys && n !in s && t !! keys && t !! s && n !in t
    ensures a <= keys - {r} + {n} && b <= (keys - {r} + {n}) - a + s
    ensures ((keys - {r} + {n}) - a + s) - b + t == keys - ({r} + a + b) + ({n} + s + t)
  {
  }

  lemma {:induction false} SpanApart(keys: set<nat>, next: nat, a: nat, b: nat)
    requires keys <= Span(0, next) && next <= a
    ensures Span(a, b) !! keys
  {
  }

  lemma {:induction false} KeysBelow(keys: set<nat>, gone: set<nat>, lo: nat, hi: nat)
    requires keys <= Span(0, lo) && lo <= hi
    ensures keys - gone + Span(lo, hi) <= Span(0, hi) && keys - gone + {lo} <= Span(0, lo + 1)
  {
  }

  lemma {:induction false} CopyKeeps(fs: seq<Node>, lists: Lists, next: nat)
    requires Unique(fs) && Rows(fs) <= lists.Keys <= Span(0, next) && OneListEach(lists)
    ensures var c := CopyLevel(fs, lists, next);
      OneListEach(c.lists) && c.lists.Keys == lists.Keys - Rows(fs) + Span(next, c.next)
    decreases fs
  {
    if fs != [] {
      var f, tail := fs[0], fs[1..];
      var lists1 := HandOver(lists, f.row, next);
      var inside := CopyLevel(f.kids, lists1, next + 1);
      var others := CopyLevel(tail, inside.lists, inside.next);
      CopyRows(f.kids, lists1, next + 1);
      CopyRows(tail, inside.lists, inside.next);
      SpanSplit(next, inside.next, others.next);
      SpanApart(lists.Keys, next, next + 1, inside.next);
      SpanApart(lists.Keys, next, inside.next, others.next);
      KeysAfter(lists.Keys, f.row, next, Rows(f.kids), Span(next + 1, inside.next), Rows(tail),
                Span(inside.next, others.next));
      HandOverKeeps(lists, f.row, next);
      KeysBelow(lists.Keys, {f.row}, next, next);
      KeysBelow(lists1.Keys, Rows(f.kids), next + 1, inside.next);
      CopyKeeps(f.kids, lists1, next + 1);
      CopyKeeps(tail, inside.lists, inside.next);
    }
  }

  /** A folder made anew, with its fax list and the folders in it handed over. */
  datatype Moved = Moved(node: Node, lists: Lists, next: nat)

  function MovedTo(node: Node, lists: Lists, next: nat): Moved
  {
    var c := CopyLevel(node.kids, HandOver(lists, node.row, next), next + 1);
    Moved(Node(next, node.name, node.rootOnly, c.nodes), c.lists, c.next)
  }

  lemma {:induction false} MovedRows(node: Node, lists: Lists, next: nat)
    requires UniqueTree(node) && TreeRows(node) <= lists.Keys <= Span(0, next) && OneListEach(lists)
    ensures var m := MovedTo(node, lists, next);
      && next < m.next && TreeRows(m.node) == Span(next, m.next) && UniqueTree(m.node) && NoneRootOnly(m.node.kids)
      && OneListEach(m.lists) && m.lists.Keys == lists.Keys - TreeRows(node) + Span(next, m.next)
  {
    var lists1 := HandOver(lists, node.row, next);
    var c := CopyLevel(node.kids, lists1, next + 1);
    HandOverKeeps(lists, node.row, next);
    KeysBelow(lists.Keys, {node.row}, next, next);
    CopyRows(node.kids, lists1, next + 1);
    CopyKeeps(node.kids, lists1, next + 1);
    SpanFrom(next, c.next);
    SpanApart(lists.Keys, next, next + 1, c.next);
    KeysMoved(lists.Keys, node.row, next, Rows(node.kids), Span(next + 1, c.next));
  }

  lemma {:induction false} KeysMoved(keys: set<nat>, r: nat, n: nat, a: set<nat>, s: set<nat>)
    requires r in keys && a <= keys && n !in keys && r !in a && s !! keys && n !in s
    ensures (keys - {r} + {n}) - a + s == keys - ({r} + a) + ({n} + s)
  {
  }

  lemma {:induction false} SpanFrom(a: nat, b: nat)
    requires a < b
    ensures {a} + Span(a + 1, b) == Span(a, b) && a !in Span(a + 1, b)
  {
  }

  /** The moved folder shows what it showed before, and rows elsewhere keep their fax lists. */
  lemma {:induction false} MovedShows(node: Node, lists: Lists, next: nat, r: nat)
    requires UniqueTree(node) && TreeRows(node) <= Span(0, next)
    ensures var m := MovedTo(node, lists, next);
      && Show(m.node.kids, m.lists) == Show(node.kids, lists)
      && ListOf(m.lists, next) == ListOf(lists, node.row)
      && (r < next && r !in TreeRows(node) ==> ListOf(m.lists, r) == ListOf(lists, r))
  {
    var lists1 := HandOver(lists, node.row, next);
    CopyShows(node.kids, lists1, next + 1);
    KeptShows(node.kids, node.row, lists, next);
    CopyFrame(node.kids, lists1, next + 1, next);
    if r < next { CopyFrame(node.kids, lists1, next + 1, r); }
  }

  // Where permanent folders are.

  /** Is the row at the root? */
  predicate AtRoot(fs: seq<Node>, row: nat)
  {
    fs != [] && (fs[0].row == row || AtRoot(fs[1..], row))
  }

  lemma {:induction false} ShortPath(fs: seq<Node>, row: nat)
    requires Unique(fs) && row in Rows(fs)
    ensures |PathTo(fs, row)| == 1 ==> AtRoot(fs, row)
    decreases fs
  {
    if fs[0].row != row && row !in Rows(fs[0].kids) { ShortPath(fs[1..], row); }
  }

  lemma {:induction false} AtRootRow(fs: seq<Node>, row: nat)
    requires AtRoot(fs, row)
    ensures row in Rows(fs)
  {
    if fs[0].row != row { AtRootRow(fs[1..], row); }
  }

  lemma {:induction false} PlaceNoneRootOnly(fs: seq<Node>, dest: nat, drop: Drop, node: Node)
    requires NoneRootOnly(fs) && !node.rootOnly && NoneRootOnly(node.kids)
    ensures NoneRootOnly(Place(fs, dest, drop, node))
    decreases fs
  {
    if fs != [] {
      var f, tail := fs[0], fs[1..];
      PlaceNoneRootOnly(f.kids, dest, drop, node);
      PlaceNoneRootOnly(tail, dest, drop, node);
      NodeRows(node, fs);
      NodeRows(node, tail);
      NodeRows(f, [node] + tail);
      assert [f, node] + tail == [f] + ([node] + tail);
      NodeRows(node, f.kids);
      NodeRows(f.(kids := [node] + f.kids), tail);
      NodeRows(f.(kids := Place(f.kids, dest, drop, node)), Place(tail, dest, drop, node));
    }
  }

  lemma {:induction false} RootCons(f: Node, others: seq<Node>)
    ensures RootOnlyAtRoot([f] + others) <==> NoneRootOnly(f.kids) && RootOnlyAtRoot(others)
  {
    assert ([f] + others)[1..] == others;
  }

  /** Dropping keeps permanent folders at the root, if a permanent one is dropped beside a
      folder at the root. */
  lemma {:induction false} PlaceRootOnly(fs: seq<Node>, dest: nat, drop: Drop, node: Node)
    requires Unique(fs) && RootOnlyAtRoot(fs) && NoneRootOnly(node.kids)
    requires node.rootOnly ==> drop != Inside && AtRoot(fs, dest)
    ensures RootOnlyAtRoot(Place(fs, dest, drop, node))
    decreases fs
  {
    if fs != [] {
      var f, tail := fs[0], fs[1..];
      if f.row == dest {
        RootCons(node, fs);
        RootCons(node, tail);
        RootCons(f, [node] + tail);
        assert [f, node] + tail == [f] + ([node] + tail);
        NodeRows(node, f.kids);
        RootCons(f.(kids := [node] + f.kids), tail);
      } else {
        if node.rootOnly {
          AtRootRow(tail, dest);
          PlaceAbsent(f.kids, dest, drop, node);
        } else {
          PlaceNoneRootOnly(f.kids, dest, drop, node);
        }
        PlaceRootOnly(tail, dest, drop, node);
        RootCons(f.(kids := Place(f.kids, dest, drop, node)), Place(tail, dest, drop, node));
      }
    }
  }

  lemma {:induction false} RemoveNoneRootOnly(fs: seq<Node>, row: nat)
    requires NoneRootOnly(fs)
    ensures NoneRootOnly(Remove(fs, row))
    decreases fs
  {
    if fs != [] {
      RemoveNoneRootOnly(fs[0].kids, row);
      RemoveNoneRootOnly(fs[1..], row);
      NodeRows(fs[0].(kids := Remove(fs[0].kids, row)), Remove(fs[1..], row));
    }
  }

  lemma {:induction false} RemoveRootOnly(fs: seq<Node>, row: nat)
    requires RootOnlyAtRoot(fs)
    ensures RootOnlyAtRoot(Remove(fs, row))
    decreases fs
  {
    if fs != [] {
      RemoveNoneRootOnly(fs[0].kids, row);
      RemoveRootOnly(fs[1..], row);
      RootCons(fs[0].(kids := Remove(fs[0].kids, row)), Remove(fs[1..], row));
    }
  }

  lemma {:induction false} CleanCons(f: Node, others: seq<Node>)
    ensures CleanTree([f] + others) <==> DIVIDER !in f.name && CleanTree(f.kids) && CleanTree(others)
  {
    assert ([f] + others)[1..] == others;
  }

  lemma {:induction false} PlaceClean(fs: seq<Node>, dest: nat, drop: Drop, node: Node)
    requires CleanTree(fs) && DIVIDER !in node.name && CleanTree(node.kids)
    ensures CleanTree(Place(fs, dest, drop, node))
    decreases fs
  {
    if fs != [] {
      var f, tail := fs[0], fs[1..];
      PlaceClean(f.kids, dest, drop, node);
      PlaceClean(tail, dest, drop, node);
      CleanCons(node, fs);
      CleanCons(node, tail);
      CleanCons(f, [node] + tail);
      assert [f, node] + tail == [f] + ([node] + tail);
      CleanCons(node, f.kids);
      CleanCons(f.(kids := [node] + f.kids), tail);
      CleanCons(f.(kids := Place(f.kids, dest, drop, node)), Place(tail, dest, drop, node));
    }
  }

  lemma {:induction false} RemoveClean(fs: seq<Node>, row: nat)
    requires CleanTree(fs)
    ensures CleanTree(Remove(fs, row))
    decreases fs
  {
    if fs != [] {
      RemoveClean(fs[0].kids, row);
      RemoveClean(fs[1..], row);
      CleanCons(fs[0].(kids := Remove(fs[0].kids, row)), Remove(fs[1..], row));
    }
  }

  lemma {:induction false} CopyClean(fs: seq<Node>, lists: Lists, next: nat)
    requires CleanTree(fs)
    ensures CleanTree(CopyLevel(fs, lists, next).nodes)
    decreases fs
  {
    if fs != [] {
      var f := fs[0];
      var inside := CopyLevel(f.kids, HandOver(lists, f.row, next), next + 1);
      CopyClean(f.kids, HandOver(lists, f.row, next), next + 1);
      CopyClean(fs[1..], inside.lists, inside.next);
      CleanCons(Node(next, f.name, false, inside.nodes), CopyLevel(fs[1..], inside.lists, inside.next).nodes);
    }
  }

  /** The folder tree, the fax lists by row, and the next unused row. */
  datatype Tree = Tree(forest: seq<Node>, lists: Lists, next: nat)

  /** A forest in which every folder has a fax list of its own and permanent folders are at
      the root. */
  predicate Sound(t: Tree)
  {
    && Unique(t.forest) && t.lists.Keys == Rows(t.forest) && t.lists.Keys <= Span(0, t.next)
    && OneListEach(t.lists) && RootOnlyAtRoot(t.forest) && CleanTree(t.forest)
  }

  /** The path of the folder that the moved one is put in. */
  function Base(t: Tree, dest: nat, drop: Drop): Path
    requires dest in Rows(t.forest)
  {
    if drop == Inside then PathTo(t.forest, dest) else DropLast(PathTo(t.forest, dest))
  }

  /** The tests made before a folder is moved. */
  predicate Accepted(t: Tree, source: nat, dest: nat, drop: Drop)
    requires source in Rows(t.forest) && dest in Rows(t.forest)
  {
    var node, target := Get(t.forest, source), Base(t, dest, drop) + [Get(t.forest, source).name];
    && Print(PathTo(t.forest, source)) != Print(PathTo(t.forest, dest))
    && IsValidDropPath(Print(PathTo(t.forest, source)), Print(target))
    && (node.rootOnly ==> |target| == 1)
  }

  function Move(t: Tree, source: nat, dest: nat, drop: Drop): Tree
    requires source in Rows(t.forest)
  {
    var m := MovedTo(Get(t.forest, source), t.lists, t.next);
    Tree(Remove(Place(t.forest, dest, drop, m.node), source), m.lists, m.next)
  }

  lemma {:induction false} GetUnique(fs: seq<Node>, row: nat)
    requires Unique(fs) && row in Rows(fs)
    ensures UniqueTree(Get(fs, row)) && Get(fs, row).name == PathTo(fs, row)[|PathTo(fs, row)| - 1]
    ensures RootOnlyAtRoot(fs) ==> NoneRootOnly(Get(fs, row).kids)
    decreases fs
  {
    if fs[0].row == row {
    } else if row in Rows(fs[0].kids) {
      GetUnique(fs[0].kids, row);
      if RootOnlyAtRoot(fs) { NoneInside(fs[0].kids); }
    } else {
      GetUnique(fs[1..], row);
    }
  }

  lemma {:induction false} NoneInside(fs: seq<Node>)
    requires NoneRootOnly(fs)
    ensures RootOnlyAtRoot(fs)
  {
    if fs != [] { NoneInside(fs[1..]); }
  }

  /** Exactly which drops are accepted: not on the folder itself, not where the path of the folder
      would begin its new path, and a permanent folder only to the root. */
  lemma {:induction false} AcceptedExactly(t: Tree, source: nat, dest: nat, drop: Drop)
    requires Sound(t) && source in Rows(t.forest) && dest in Rows(t.forest)
    ensures var path, target := PathTo(t.forest, source), Base(t, dest, drop) + [Get(t.forest, source).name];
      Accepted(t, source, dest, drop) <==>
        && path != PathTo(t.forest, dest) && (Begins(path, target) ==> path == target)
        && (Get(t.forest, source).rootOnly ==> |target| == 1)
  {
    PathClean(t.forest, source);
    PathClean(t.forest, dest);
    if Print(PathTo(t.forest, source)) == Print(PathTo(t.forest, dest)) {
      PrintUnique(PathTo(t.forest, source), PathTo(t.forest, dest));
    }
    Refused(PathTo(t.forest, source), Base(t, dest, drop) + [Get(t.forest, source).name]);
  }

  /** An accepted drop is not into the folder itself or a folder in it, and a permanent
      folder is dropped beside one at the root. */
  lemma {:induction false} AcceptedIsSafe(t: Tree, source: nat, dest: nat, drop: Drop)
    requires Sound(t) && source in Rows(t.forest) && dest in Rows(t.forest) && Accepted(t, source, dest, drop)
    ensures dest !in {source} + Rows(Get(t.forest, source).kids)
    ensures Get(t.forest, source).rootOnly ==> drop != Inside && AtRoot(t.forest, dest)
  {
    var node, base := Get(t.forest, source), Base(t, dest, drop);
    GetUnique(t.forest, source);
    if dest in {source} + Rows(node.kids) {
      PathThrough(t.forest, source, dest);
      if dest != source { IntoItselfRefused(PathTo(t.forest, source), base, node.name); }
    }
    ShortPath(t.forest, dest);
  }

  /** The rows of the forest after an insertion of new rows and a removal of old ones. */
  lemma {:induction false} MoveRows(fs: seq<Node>, source: nat, dest: nat, drop: Drop, node: Node)
    requires Unique(fs) && source in Rows(fs) && dest in Rows(fs)
    requires UniqueTree(node) && TreeRows(node) !! Rows(fs) && dest !in TreeRows(Get(fs, source))
    ensures var r := Remove(Place(fs, dest, drop, node), source);
      Unique(r) && Rows(r) == Rows(fs) - TreeRows(Get(fs, source)) + TreeRows(node)
  {
    PlaceRows(fs, dest, drop, node);
    GetAfterPlace(fs, dest, drop, node, source);
    RemoveRows(fs, source);
    RemoveRows(Place(fs, dest, drop, node), source);
  }

  lemma {:induction false} MoveRoots(fs: seq<Node>, source: nat, dest: nat, drop: Drop, node: Node)
    requires Unique(fs) && RootOnlyAtRoot(fs) && CleanTree(fs)
    requires NoneRootOnly(node.kids) && (node.rootOnly ==> drop != Inside && AtRoot(fs, dest))
    requires DIVIDER !in node.name && CleanTree(node.kids)
    ensures var r := Remove(Place(fs, dest, drop, node), source); RootOnlyAtRoot(r) && CleanTree(r)
  {
    PlaceRootOnly(fs, dest, drop, node);
    RemoveRootOnly(Place(fs, dest, drop, node), source);
    PlaceClean(fs, dest, drop, node);
    RemoveClean(Place(fs, dest, drop, node), source);
  }

  /** What is known of the folder made anew. */
  lemma {:induction false} MovedSound(t: Tree, source: nat, dest: nat, drop: Drop)
    requires Sound(t) && source in Rows(t.forest) && dest in Rows(t.forest) && Accepted(t, source, dest, drop)
    ensures var node := Get(t.forest, source); var m := MovedTo(node, t.lists, t.next);
      && TreeRows(node) <= Rows(t.forest) && UniqueTree(node) && NoneRootOnly(node.kids) && dest !in TreeRows(node)
      && (node.rootOnly ==> drop != Inside && AtRoot(t.forest, dest))
      && t.next < m.next && TreeRows(m.node) == Span(t.next, m.next) && UniqueTree(m.node) && NoneRootOnly(m.node.kids)
      && TreeRows(m.node) !! Rows(t.forest) && OneListEach(m.lists)
      && m.lists.Keys == t.lists.Keys - TreeRows(node) + Span(t.next, m.next)
  {
    var node := Get(t.forest, source);
    AcceptedIsSafe(t, source, dest, drop);
    GetUnique(t.forest, source);
    RemoveRows(t.forest, source);
    MovedRows(node, t.lists, t.next);
    SpanApart(Rows(t.forest), t.next, t.next, MovedTo(node, t.lists, t.next).next);
  }

  lemma {:induction false} MovedClean(node: Node, lists: Lists, next: nat)
    requires DIVIDER !in node.name && CleanTree(node.kids)
    ensures var m := MovedTo(node, lists, next); DIVIDER !in m.node.name && CleanTree(m.node.kids)
  {
    CopyClean(node.kids, HandOver(lists, node.row, next), next + 1);
  }

  /** Moving a folder keeps the forest and its fax lists sound. */
  lemma {:induction false} MoveKeeps(t: Tree, source: nat, dest: nat, drop: Drop)
    requires Sound(t) && source in Rows(t.forest) && dest in Rows(t.forest) && Accepted(t, source, dest, drop)
    ensures Sound(Move(t, source, dest, drop))
  {
    var node := Get(t.forest, source);
    var m := MovedTo(node, t.lists, t.next);
    MovedSound(t, source, dest, drop);
    MoveRows(t.forest, source, dest, drop, m.node);
    KeysBelow(t.lists.Keys, TreeRows(node), t.next, m.next);
    PathClean(t.forest, source);
    MovedClean(node, t.lists, t.next);
    MoveRoots(t.forest, source, dest, drop, m.node);
  }

  /** Every folder's label depends only on the fax lists of the rows. */
  lemma {:induction false} BagOfView(fs: seq<Node>, a: Lists, b: Lists)
    requires forall r | r in Rows(fs) :: ListOf(a, r) == ListOf(b, r)
    ensures Bag(fs, a) == Bag(fs, b)
    decreases fs
  {
    if fs != [] {
      BagOfView(fs[0].kids, a, b);
      BagOfView(fs[1..], a, b);
    }
  }

  /** What is shown determines the labels. */
  lemma {:induction false} BagFromShow(fs: seq<Node>, a: Lists, gs: seq<Node>, b: Lists)
    requires Show(fs, a) == Show(gs, b)
    ensures Bag(fs, a) == Bag(gs, b)
    decreases fs
  {
    if fs != [] && gs != [] {
      var v, w := Show(fs, a), Show(gs, b);
      assert v[0] == w[0] && v[1..] == Show(fs[1..], a) && w[1..] == Show(gs[1..], b);
      BagFromShow(fs[0].kids, a, gs[0].kids, b);
      BagFromShow(fs[1..], a, gs[1..], b);
    }
  }

  lemma {:induction false} Cancel<T>(x: multiset<T>, o: multiset<T>, f: multiset<T>, n: multiset<T>, r: multiset<T>)
    requires f + n == x + o && f == r + o
    ensures x == r + n
  {
    forall e ensures x[e] == (r + n)[e] {
      assert (f + n)[e] == (x + o)[e] && f[e] == (r + o)[e];
    }
  }

  /** The labels after an insertion and a removal. */
  lemma {:induction false} MoveBag(fs: seq<Node>, source: nat, dest: nat, drop: Drop, node: Node, lists: Lists)
    requires Unique(fs) && source in Rows(fs) && dest in Rows(fs)
    requires UniqueTree(node) && TreeRows(node) !! Rows(fs) && dest !in TreeRows(Get(fs, source))
    ensures Same(Bag(Remove(Place(fs, dest, drop, node), source), lists),
                 Bag(Remove(fs, source), lists) + BagOne(node, lists))
  {
    var now := Place(fs, dest, drop, node);
    PlaceRows(fs, dest, drop, node);
    GetAfterPlace(fs, dest, drop, node, source);
    PlaceBag(fs, dest, drop, node, lists);
    RemoveBag(now, source, lists);
    RemoveBag(fs, source, lists);
    Cancel(Bag(Remove(now, source), lists), BagOne(Get(fs, source), lists), Bag(fs, lists), BagOne(node, lists),
           Bag(Remove(fs, source), lists));
  }

  /** The moved folder shows what it showed before. */
  lemma {:induction false} MovedLabels(node: Node, lists: Lists, next: nat)
    requires UniqueTree(node) && TreeRows(node) <= Span(0, next)
    ensures var m := MovedTo(node, lists, next);
      && m.node.name == node.name && ListOf(m.lists, m.node.row) == ListOf(lists, node.row)
      && Show(m.node.kids, m.lists) == Show(node.kids, lists)
      && Same(BagOne(m.node, m.lists), BagOne(node, lists))
  {
    var m := MovedTo(node, lists, next);
    MovedShows(node, lists, next, next);
    BagFromShow(m.node.kids, m.lists, node.kids, lists);
  }

  /** Rows outside the moved folder keep their labels. */
  lemma {:induction false} OthersKept(fs: seq<Node>, node: Node, lists: Lists, next: nat)
    requires UniqueTree(node) && TreeRows(node) <= Span(0, next)
    requires Rows(fs) <= Span(0, next) && Rows(fs) !! TreeRows(node)
    ensures Same(Bag(fs, MovedTo(node, lists, next).lists), Bag(fs, lists))
  {
    var m := MovedTo(node, lists, next);
    forall r | r in Rows(fs) ensures ListOf(m.lists, r) == ListOf(lists, r) {
      MovedShows(node, lists, next, r);
    }
    BagOfView(fs, m.lists, lists);
  }

  /** No folder and no fax list is lost or doubled by a move, and the moved folder shows what
      it showed before. */
  lemma {:induction false} MoveConserves(t: Tree, source: nat, dest: nat, drop: Drop)
    requires Sound(t) && source in Rows(t.forest) && dest in Rows(t.forest) && Accepted(t, source, dest, drop)
    ensures Same(Bag(Move(t, source, dest, drop).forest, Move(t, source, dest, drop).lists), Bag(t.forest, t.lists))
    ensures var node := Get(t.forest, source); var m := MovedTo(node, t.lists, t.next);
      && m.node.name == node.name && ListOf(m.lists, m.node.row) == ListOf(t.lists, source)
      && Show(m.node.kids, m.lists) == Show(node.kids, t.lists)
  {
    var node := Get(t.forest, source);
    var m := MovedTo(node, t.lists, t.next);
    MovedSound(t, source, dest, drop);
    RemoveRows(t.forest, source);
    GetUnique(t.forest, source);
    MoveBag(t.forest, source, dest, drop, m.node, m.lists);
    OthersKept(Remove(t.forest, source), node, t.lists, t.next);
    MovedLabels(node, t.lists, t.next);
    RemoveBag(t.forest, source, t.lists);
  }

  /** The path name that the folder would get. */
  method NewName(dropName: string, drop: Drop, name: string, ghost path: Path) returns (newName: string)
    requires path != [] && Clean(path) && dropName == Print(path)
    ensures newName == Print((if drop == Inside then path else DropLast(path)) + [name])
  {
    newName := dropName;
    if drop != Inside {
      var pos := RFind(newName);
      LastName("", path, dropName, pos);
      newName := if pos >= 0 then newName[..pos] else "";
    }
    newName := newName + [DIVIDER] + name;
    PrintSnoc(if drop == Inside then path else DropLast(path), name);
  }

  /** A path name whose last divider is its first character is that of a folder at the root. */
  lemma {:induction false} RootOnlyTest(base: Path, name: string, newName: string, last: int)
    requires Clean(base) && DIVIDER !in name && newName == Print(base + [name])
    requires -1 <= last < |newName| && DIVIDER !in newName[last + 1..] && (last >= 0 ==> newName[last] == DIVIDER)
    ensures last == 0 <==> |base + [name]| == 1
  {
    LastName("", base + [name], newName, last);
    assert (base + [name])[..|base|] == base;
    if base != [] { PrintStart(base); }
  }

  /** The folder part of the list manager. */
  class FolderTree {
    var forest: seq<Node>
    var lists: Lists
    var next: nat

    ghost function Now(): Tree
      reads this
    {
      Tree(forest, lists, next)
    }

    /** The two permanent folders. */
    constructor (inbox: string, trash: string)
      requires DIVIDER !in inbox && DIVIDER !in trash
      ensures Sound(Now())
      ensures Now() == Tree([Node(0, inbox, true, []), Node(1, trash, true, [])], map[0 := 0, 1 := 1], 2)
    {
      forest := [Node(0, inbox, true, []), Node(1, trash, true, [])];
      lists := map[0 := 0, 1 := 1];
      next := 2;
      new;
      NodeRows(Node(0, inbox, true, []), [Node(1, trash, true, [])]);
      assert forest == [Node(0, inbox, true, [])] + [Node(1, trash, true, [])];
      assert [Node(1, trash, true, [])][1..] == [];
    }

    /** Folders that were read when the program started. */
    constructor Load(t: Tree)
      ensures Now() == t
    {
      forest, lists, next := t.forest, t.lists, t.next;
    }

    /** A new folder with an empty fax list, after those at the root. */
    method Append(name: string, list: nat)
      modifies this
      ensures Now() == old(Tree(forest + [Node(next, name, false, [])], lists[next := list], next + 1))
    {
      forest := forest + [Node(next, name, false, [])];
      lists := lists[next := list];
      next := next + 1;
    }

    /** Remove a folder and its fax list. */
    method Erase(row: nat)
      modifies this
      ensures Now() == old(Tree(Remove(forest, row), lists - {row}, next))
    {
      lists := lists - {row};
      forest := Remove(forest, row);
    }

    /** Hand the fax lists of a level of folders over to new rows, level by level. */
    method MoveChildFolders(level: seq<Node>) returns (nodes: seq<Node>)
      modifies this`lists, this`next
      ensures CopyLevel(level, old(lists), old(next)) == Copied(nodes, lists, next)
      decreases level
    {
      if level == [] {
        return [];
      }
      var row := next;
      lists := HandOver(lists, level[0].row, row);
      next := next + 1;
      var kids := MoveChildFolders(level[0].kids);
      var others := MoveChildFolders(level[1..]);
      nodes := [Node(row, level[0].name, false, kids)] + others;
    }

    /** May the dragged folder be put where it is dropped? */
    method MayMove(source: nat, dest: nat, drop: Drop) returns (ok: bool)
      requires Sound(Now()) && source in Rows(forest) && dest in Rows(forest)
      ensures ok == Accepted(Now(), source, dest, drop)
    {
      var node := Get(forest, source);
      var sourceName, dropName := Print(PathTo(forest, source)), Print(PathTo(forest, dest));
      if sourceName == dropName {
        return false;
      }
      PathClean(forest, source);
      PathClean(forest, dest);
      var newName := NewName(dropName, drop, node.name, PathTo(forest, dest));
      var last := RFind(newName);
      RootOnlyTest(Base(Now(), dest, drop), node.name, newName, last);
      ok := IsValidDropPath(sourceName, newName) && (!node.rootOnly || last == 0);
    }

    /** Make the folder anew, hand over what it holds, and remove the old row. */
    method Relocate(source: nat, dest: nat, drop: Drop)
      requires source in Rows(forest)
      modifies this
      ensures Now() == old(Move(Now(), source, dest, drop))
    {
      var node := Get(forest, source);
      var row := next;
      lists := HandOver(lists, source, row);
      next := next + 1;
      var kids := MoveChildFolders(node.kids);
      forest := Remove(Place(forest, dest, drop, Node(row, node.name, node.rootOnly, kids)), source);
    }

    /** Move the dragged folder to where it is dropped, if the drop is valid. */
    method MoveFolder(source: nat, dest: nat, drop: Drop)
      requires Sound(Now()) && source in Rows(forest) && dest in Rows(forest)
      modifies this
      ensures Sound(Now())
      ensures Now() == old(if Accepted(Now(), source, dest, drop) then Move(Now(), source, dest, drop) else Now())
      ensures Same(Bag(forest, lists), old(Bag(forest, lists)))
    {
      var ok := MayMove(source, dest, drop);
      if ok {
        MoveKeeps(Now(), source, dest, drop);
        MoveConserves(Now(), source, dest, drop);
        GetUnique(forest, source);
        Relocate(source, dest, drop);
      }
    }
  }
}
