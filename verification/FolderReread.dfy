/** The folder tree after the program has ended and started again: the permanent folders come
    first, every row is made anew, and each folder's faxes are back in its own list. */
module FolderReread {
  import Bits
  import opened FolderMoves

  // The order of the folders at the root.

  /** The folder of that name brought to the front of its level. */
  function Front(fs: seq<Node>, name: string): (r: seq<Node>)
    ensures |r| == |fs|
  {
    if fs == [] || fs[0].name == name then fs
    else
      var r := Front(fs[1..], name);
      if r != [] && r[0].name == name then [r[0], fs[0]] + r[1..] else fs
  }

  /** Main folder, trash folder, and the others in their order. */
  function Reordered(fs: seq<Node>, inbox: string, trash: string): seq<Node>
  {
    Front(Front(fs, trash), inbox)
  }

  predicate SameRows(fs: seq<Node>, gs: seq<Node>)
  {
    && Rows(fs) == Rows(gs) && (Unique(fs) <==> Unique(gs)) && (CleanTree(fs) <==> CleanTree(gs))
  }

  lemma {:induction false} SameRowsCons(f: Node, fs: seq<Node>, gs: seq<Node>)
    requires SameRows(fs, gs)
    ensures SameRows([f] + fs, [f] + gs)
  {
    NodeRows(f, fs);
    NodeRows(f, gs);
    CleanCons(f, fs);
    CleanCons(f, gs);
  }

  lemma {:induction false} SwapRows(f: Node, g: Node, tail: seq<Node>)
    ensures SameRows([f, g] + tail, [g, f] + tail)
  {
    assert [f, g] + tail == [f] + ([g] + tail) && [g, f] + tail == [g] + ([f] + tail);
    NodeRows(f, [g] + tail);
    NodeRows(g, [f] + tail);
    NodeRows(f, tail);
    NodeRows(g, tail);
    CleanCons(f, [g] + tail);
    CleanCons(g, [f] + tail);
    CleanCons(f, tail);
    CleanCons(g, tail);
  }

  lemma {:induction false} FrontRows(fs: seq<Node>, name: string)
    ensures SameRows(fs, Front(fs, name))
  {
    if fs != [] && fs[0].name != name {
      var r := Front(fs[1..], name);
      FrontRows(fs[1..], name);
      SameRowsCons(fs[0], fs[1..], r);
      assert fs == [fs[0]] + fs[1..];
      if r != [] {
        assert [fs[0]] + r == [fs[0], r[0]] + r[1..];
        SwapRows(fs[0], r[0], r[1..]);
      }
    }
  }

  lemma {:induction false} FrontBag(fs: seq<Node>, name: string, lists: Lists)
    ensures Bits.Same(Bag(Front(fs, name), lists), Bag(fs, lists))
  {
    if fs != [] && fs[0].name != name {
      var f, r := fs[0], Front(fs[1..], name);
      FrontBag(fs[1..], name, lists);
      if r != [] && r[0].name == name {
        assert [r[0], f] + r[1..] == [r[0]] + ([f] + r[1..]) && r == [r[0]] + r[1..];
        BagCons(r[0], [f] + r[1..], lists);
        BagCons(f, r[1..], lists);
        BagCons(r[0], r[1..], lists);
        InTail(BagOne(f, lists), BagOne(r[0], lists), Bag(r[1..], lists));
        InTail(BagOne(r[0], lists), BagOne(f, lists), Bag(r[1..], lists));
      }
    }
  }

  lemma {:induction false} ReorderedSame(fs: seq<Node>, inbox: string, trash: string, lists: Lists)
    ensures SameRows(fs, Reordered(fs, inbox, trash)) && Bag(Reordered(fs, inbox, trash), lists) == Bag(fs, lists)
  {
    FrontRows(fs, trash);
    FrontRows(Front(fs, trash), inbox);
    FrontBag(fs, trash, lists);
    FrontBag(Front(fs, trash), inbox, lists);
  }

  // Rows made anew.

  /** The folders with those two names at the root are permanent. */
  function Marked(fs: seq<Node>, inbox: string, trash: string): seq<Node>
  {
    if fs == [] then []
    else [fs[0].(rootOnly := fs[0].name == inbox || fs[0].name == trash)] + Marked(fs[1..], inbox, trash)
  }

  lemma {:induction false} MarkedRows(fs: seq<Node>, inbox: string, trash: string)
    ensures SameRows(fs, Marked(fs, inbox, trash))
    ensures NoneRootOnly(fs) ==> RootOnlyAtRoot(Marked(fs, inbox, trash))
  {
    if fs != [] {
      var f := fs[0].(rootOnly := fs[0].name == inbox || fs[0].name == trash);
      MarkedRows(fs[1..], inbox, trash);
      NodeRows(f, Marked(fs[1..], inbox, trash));
      CleanCons(f, Marked(fs[1..], inbox, trash));
      RootCons(f, Marked(fs[1..], inbox, trash));
    }
  }

  lemma {:induction false} MarkedBag(fs: seq<Node>, inbox: string, trash: string, lists: Lists)
    ensures Bag(Marked(fs, inbox, trash), lists) == Bag(fs, lists)
  {
    if fs != [] {
      MarkedBag(fs[1..], inbox, trash, lists);
      BagCons(fs[0].(rootOnly := fs[0].name == inbox || fs[0].name == trash), Marked(fs[1..], inbox, trash), lists);
    }
  }

  /** The tree made anew. A folder's new fax list is known by the number of its old one, since it
      has the same faxes. */
  function Reread(t: Tree, inbox: string, trash: string): Tree
  {
    var c := CopyLevel(Reordered(t.forest, inbox, trash), t.lists, t.next);
    Tree(Marked(c.nodes, inbox, trash), c.lists, c.next)
  }

  lemma {:induction false} SpanWithin(keys: set<nat>, a: nat, b: nat)
    requires keys <= Span(0, a) && a <= b
    ensures Span(a, b) <= Span(0, b) && keys - keys + Span(a, b) == Span(a, b)
  {
  }

  lemma {:induction false} RereadSound(t: Tree, inbox: string, trash: string)
    requires Sound(t)
    ensures Sound(Reread(t, inbox, trash)) && Rows(Reread(t, inbox, trash).forest) !! Span(0, t.next)
  {
    var fs := Reordered(t.forest, inbox, trash);
    var c := CopyLevel(fs, t.lists, t.next);
    ReorderedSame(t.forest, inbox, trash, t.lists);
    CopyRows(fs, t.lists, t.next);
    CopyKeeps(fs, t.lists, t.next);
    CopyClean(fs, t.lists, t.next);
    SpanWithin(t.lists.Keys, t.next, c.next);
    MarkedRows(c.nodes, inbox, trash);
  }

  /** Starting again changes no folder's name or faxes. */
  lemma {:induction false} RereadBag(t: Tree, inbox: string, trash: string)
    requires Sound(t)
    ensures Bag(Reread(t, inbox, trash).forest, Reread(t, inbox, trash).lists) == Bag(t.forest, t.lists)
  {
    var fs := Reordered(t.forest, inbox, trash);
    var c := CopyLevel(fs, t.lists, t.next);
    ReorderedSame(t.forest, inbox, trash, t.lists);
    CopyShows(fs, t.lists, t.next);
    BagFromShow(c.nodes, c.lists, fs, t.lists);
    MarkedBag(c.nodes, inbox, trash, c.lists);
  }

  // The permanent folders.

  /** A folder of that name is at the root. */
  predicate NamedAtRoot(fs: seq<Node>, name: string)
  {
    fs != [] && (fs[0].name == name || NamedAtRoot(fs[1..], name))
  }

  lemma {:induction false} NamedCons(f: Node, others: seq<Node>, name: string)
    ensures NamedAtRoot([f] + others, name) <==> f.name == name || NamedAtRoot(others, name)
  {
    assert ([f] + others)[1..] == others;
  }

  lemma {:induction false} FrontNamed(fs: seq<Node>, first: string, name: string)
    ensures NamedAtRoot(Front(fs, first), name) <==> NamedAtRoot(fs, name)
  {
    if fs != [] && fs[0].name != first {
      var f, r := fs[0], Front(fs[1..], first);
      FrontNamed(fs[1..], first, name);
      if r != [] && r[0].name == first {
        assert [r[0], f] + r[1..] == [r[0]] + ([f] + r[1..]) && r == [r[0]] + r[1..];
        NamedCons(r[0], [f] + r[1..], name);
        NamedCons(f, r[1..], name);
        NamedCons(r[0], r[1..], name);
      }
    }
  }

  lemma {:induction false} CopyNamed(fs: seq<Node>, lists: Lists, next: nat, name: string)
    ensures NamedAtRoot(CopyLevel(fs, lists, next).nodes, name) <==> NamedAtRoot(fs, name)
    decreases fs
  {
    if fs != [] {
      var inside := CopyLevel(fs[0].kids, HandOver(lists, fs[0].row, next), next + 1);
      CopyNamed(fs[1..], inside.lists, inside.next, name);
      NamedCons(Node(next, fs[0].name, false, inside.nodes), CopyLevel(fs[1..], inside.lists, inside.next).nodes, name);
    }
  }

  lemma {:induction false} RereadNamed(t: Tree, inbox: string, trash: string, name: string)
    ensures NamedAtRoot(CopyLevel(Reordered(t.forest, inbox, trash), t.lists, t.next).nodes, name)
        <==> NamedAtRoot(t.forest, name)
  {
    CopyNamed(Reordered(t.forest, inbox, trash), t.lists, t.next, name);
    FrontNamed(Front(t.forest, trash), inbox, name);
    FrontNamed(t.forest, trash, name);
  }
}
