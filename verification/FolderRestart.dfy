/** Whatever is done to the folders, the list of path names written at the end rebuilds them. */
module FolderRestart {
  import opened Folders
  import FaxPlaces
  import opened FolderMoves
  import opened FolderReread
  import opened FolderHistory

  /** The folders of the rows. */
  function AsFolders(fs: seq<Node>): (r: seq<Folder>)
    ensures |r| == |fs|
  {
    if fs == [] then [] else [Folder(fs[0].name, AsFolders(fs[0].kids))] + AsFolders(fs[1..])
  }

  ghost predicate AtMostOnce(fs: seq<Node>)
  {
    forall name :: Count(fs, name) <= 1
  }

  lemma {:induction false} AsFirst(fs: seq<Node>)
    requires fs != []
    ensures AsFolders(fs)[0] == Folder(fs[0].name, AsFolders(fs[0].kids)) && AsFolders(fs)[1..] == AsFolders(fs[1..])
  {
  }

  lemma {:induction false} FoundCounts(fs: seq<Node>, name: string)
    ensures Find(AsFolders(fs), name) >= 0 ==> Count(fs, name) >= 1
    decreases fs
  {
    if fs != [] {
      AsFirst(fs);
      FindFirst(AsFolders(fs), name);
      FoundCounts(fs[1..], name);
    }
  }

  lemma {:induction false} OnceInside(fs: seq<Node>)
    requires fs != [] && AtMostOnce(fs)
    ensures AtMostOnce(fs[0].kids) && AtMostOnce(fs[1..]) && Count(fs[1..], fs[0].name) == 0
  {
    forall name ensures Count(fs[0].kids, name) <= 1 && Count(fs[1..], name) <= 1 {
      assert Count(fs, name) <= 1;
    }
    assert Count(fs, fs[0].name) <= 1;
  }

  /** Folders that each have a name of their own have names that differ from those beside them. */
  lemma {:induction false} OnceDistinct(fs: seq<Node>)
    requires AtMostOnce(fs)
    ensures Distinct(AsFolders(fs))
    decreases fs
  {
    if fs != [] {
      OnceInside(fs);
      AsFirst(fs);
      OnceDistinct(fs[0].kids);
      OnceDistinct(fs[1..]);
      FoundCounts(fs[1..], fs[0].name);
    }
  }

  lemma {:induction false} CleanFolders(fs: seq<Node>)
    requires CleanTree(fs)
    ensures CleanNames(AsFolders(fs))
    decreases fs
  {
    if fs != [] {
      AsFirst(fs);
      CleanFolders(fs[0].kids);
      CleanFolders(fs[1..]);
    }
  }

  lemma {:induction false} HasLater(fs: seq<Folder>, path: Path)
    requires fs != [] && Distinct(fs) && path != [] && Has(fs[1..], path)
    ensures Has(fs, path)
  {
    FindFirst(fs, path[0]);
  }

  lemma {:induction false} HasFirst(fs: seq<Folder>, path: Path)
    requires fs != [] && path != [] && fs[0].name == path[0] && Has(fs[0].kids, path[1..])
    ensures Has(fs, path)
  {
    FindFirst(fs, path[0]);
  }

  /** A row's path leads to its folder. */
  lemma {:induction false} PathHas(fs: seq<Node>, r: nat)
    requires r in Rows(fs) && Distinct(AsFolders(fs))
    ensures Has(AsFolders(fs), PathTo(fs, r))
    decreases fs
  {
    AsFirst(fs);
    if r == fs[0].row {
      HasFirst(AsFolders(fs), PathTo(fs, r));
    } else if r in Rows(fs[0].kids) {
      PathHas(fs[0].kids, r);
      assert PathTo(fs, r)[1..] == PathTo(fs[0].kids, r);
      HasFirst(AsFolders(fs), PathTo(fs, r));
    } else {
      PathHas(fs[1..], r);
      HasLater(AsFolders(fs), PathTo(fs, r));
    }
  }

  lemma {:induction false} PermanentFound(fs: seq<Node>, row: nat, name: string)
    requires PermanentAt(fs, row, name)
    ensures Find(AsFolders(fs), name) >= 0
  {
    AsFirst(fs);
    FindFirst(AsFolders(fs), name);
    if fs[0].name != name { PermanentFound(fs[1..], row, name); }
  }

  /** The folders of a good state can be written and read back, and both permanent ones are
      among them. */
  lemma {:induction false} GoodFolders(s: Store, inbox: string, trash: string)
    requires Good(s, inbox, trash)
    ensures var fs := AsFolders(s.tree.forest);
      Distinct(fs) && CleanNames(fs) && Find(fs, inbox) >= 0 && Find(fs, trash) >= 0
  {
    forall name ensures Count(s.tree.forest, name) <= 1 {
      assert Count(s.tree.forest, name) == if name in s.names then 1 else 0;
    }
    OnceDistinct(s.tree.forest);
    CleanFolders(s.tree.forest);
    var a: nat :| PermanentAt(s.tree.forest, a, inbox);
    var b: nat :| PermanentAt(s.tree.forest, b, trash);
    PermanentFound(s.tree.forest, a, inbox);
    PermanentFound(s.tree.forest, b, trash);
  }

  /** After any sequence of actions, the list of path names read back gives the same forest; read
      by the program when it starts, it gives the same folders with the permanent ones first. */
  lemma {:induction false} EveryHistoryReadsBack(inbox: string, trash: string, actions: seq<Action>)
    requires inbox != trash && DIVIDER !in inbox && DIVIDER !in trash
    ensures var fs := AsFolders(Run(Start(inbox, trash), actions).tree.forest);
      && InsertAll([], Preorder(fs)) == fs
      && InsertAll([Folder(inbox, []), Folder(trash, [])], Preorder(fs))
         == [Folder(inbox, KidsOf(fs, inbox)), Folder(trash, KidsOf(fs, trash))] + Others(fs, inbox, trash)
  {
    var fs := AsFolders(Run(Start(inbox, trash), actions).tree.forest);
    EveryHistory(inbox, trash, actions);
    GoodFolders(Run(Start(inbox, trash), actions), inbox, trash);
    ReadBack(fs);
    Restart(inbox, trash, fs);
  }

  // What the program has when it starts again.

  lemma {:induction false} OthersFirst(fs: seq<Folder>, a: string, b: string)
    requires fs != []
    ensures var others := Others(fs[1..], a, b);
      Others(fs, a, b) == if fs[0].name == a || fs[0].name == b then others else [fs[0]] + others
  {
    NoFolders(Others(fs[1..], a, b));
  }

  lemma {:induction false} KidsFirst(fs: seq<Folder>, name: string)
    requires fs != []
    ensures KidsOf(fs, name) == if fs[0].name == name then fs[0].kids else KidsOf(fs[1..], name)
  {
    FindFirst(fs, name);
  }

  lemma {:induction false} OthersNone(fs: seq<Folder>, name: string)
    requires Find(fs, name) < 0
    ensures Others(fs, name, name) == fs
  {
    if fs != [] {
      FindFirst(fs, name);
      OthersNone(fs[1..], name);
    }
  }

  lemma {:induction false} AsSnd(f: Node, g: Node, tail: seq<Node>)
    ensures AsFolders([f, g] + tail)
         == [Folder(f.name, AsFolders(f.kids)), Folder(g.name, AsFolders(g.kids))] + AsFolders(tail)
  {
    assert ([f, g] + tail)[1..] == [g] + tail && ([g] + tail)[1..] == tail;
  }

  /** One folder before another. */
  lemma {:induction false} PutBefore(f: Folder, g: Folder, others: seq<Folder>)
    ensures [f, g] + others == [f] + ([g] + others)
  {
  }

  /** The folder brought to the front, before all others. */
  lemma {:induction false} FrontFolders(fs: seq<Node>, gs: seq<Folder>, name: string)
    requires gs == AsFolders(fs) && Distinct(gs) && Find(gs, name) >= 0
    ensures Front(fs, name)[0].name == name
    ensures AsFolders(Front(fs, name)) == [Folder(name, KidsOf(gs, name))] + Others(gs, name, name)
  {
    AsFirst(fs);
    FindFirst(gs, name);
    KidsFirst(gs, name);
    OthersFirst(gs, name, name);
    if fs[0].name == name {
      OthersNone(gs[1..], name);
    } else {
      FrontFolders(fs[1..], gs[1..], name);
      FrontSecond(fs, Folder(name, KidsOf(gs, name)), Others(gs[1..], name, name), name);
    }
  }

  lemma {:induction false} FrontSecond(fs: seq<Node>, f: Folder, others: seq<Folder>, name: string)
    requires fs != [] && fs[0].name != name && Front(fs[1..], name) != [] && Front(fs[1..], name)[0].name == name
    requires AsFolders(Front(fs[1..], name)) == [f] + others
    ensures AsFolders(Front(fs, name)) == [f] + ([AsFolders(fs)[0]] + others)
  {
    var r := Front(fs[1..], name);
    AsFirst(fs);
    AsFirst(r);
    AsSnd(r[0], fs[0], r[1..]);
    assert ([f] + others)[1..] == others;
    PutBefore(f, AsFolders(fs)[0], others);
  }

  /** Without the folder named b, the others named a are as before. */
  lemma {:induction false} WithoutOne(fs: seq<Folder>, a: string, b: string)
    requires a != b
    ensures var w := Others(fs, b, b);
      && Others(w, a, a) == Others(fs, a, b) && KidsOf(w, a) == KidsOf(fs, a) && (Find(w, a) >= 0 <==> Find(fs, a) >= 0)
  {
    if fs != [] {
      WithoutOne(fs[1..], a, b);
      OthersFirst(fs, b, b);
      OthersFirst(fs, a, b);
      KidsFirst(fs, a);
      FindFirst(fs, a);
      if fs[0].name != b { OneMoreFolder(fs[0], Others(fs[1..], b, b), a); }
    }
  }

  lemma {:induction false} OneMoreFolder(f: Folder, w: seq<Folder>, a: string)
    ensures var gs := [f] + w;
      && Others(gs, a, a) == (if f.name == a then Others(w, a, a) else [f] + Others(w, a, a))
      && KidsOf(gs, a) == (if f.name == a then f.kids else KidsOf(w, a))
      && (Find(gs, a) >= 0 <==> f.name == a || Find(w, a) >= 0)
      && (Distinct(gs) <==> Find(w, f.name) < 0 && Distinct(f.kids) && Distinct(w))
  {
    var gs := [f] + w;
    assert gs[1..] == w;
    OthersFirst(gs, a, a);
    KidsFirst(gs, a);
    FindFirst(gs, a);
  }

  lemma {:induction false} DistinctOthers(fs: seq<Folder>, b: string)
    requires Distinct(fs)
    ensures Distinct(Others(fs, b, b)) && Find(Others(fs, b, b), b) < 0
  {
    if fs != [] {
      DistinctOthers(fs[1..], b);
      OthersFirst(fs, b, b);
      if fs[0].name != b {
        WithoutOne(fs[1..], fs[0].name, b);
        OneMoreFolder(fs[0], Others(fs[1..], b, b), b);
      }
    }
  }

  lemma {:induction false} ReorderedFolders(fs: seq<Node>, gs: seq<Folder>, inbox: string, trash: string)
    requires gs == AsFolders(fs) && Distinct(gs) && inbox != trash && Find(gs, inbox) >= 0 && Find(gs, trash) >= 0
    ensures AsFolders(Reordered(fs, inbox, trash))
         == [Folder(inbox, KidsOf(gs, inbox)), Folder(trash, KidsOf(gs, trash))] + Others(gs, inbox, trash)
  {
    var t, others := Folder(trash, KidsOf(gs, trash)), Others(gs, trash, trash);
    FrontFolders(fs, gs, trash);
    DistinctOthers(gs, trash);
    WithoutOne(gs, inbox, trash);
    DistinctKids(gs, trash);
    OneMoreFolder(t, others, inbox);
    FrontFolders(Front(fs, trash), [t] + others, inbox);
    PutBefore(Folder(inbox, KidsOf(gs, inbox)), t, Others(gs, inbox, trash));
  }

  lemma {:induction false} DistinctKids(fs: seq<Folder>, name: string)
    requires Distinct(fs)
    ensures Distinct(KidsOf(fs, name))
  {
    if fs != [] {
      FindFirst(fs, name);
      DistinctKids(fs[1..], name);
    }
  }

  lemma {:induction false} CopyFolders(fs: seq<Node>, lists: Lists, next: nat)
    ensures AsFolders(CopyLevel(fs, lists, next).nodes) == AsFolders(fs)
    decreases fs
  {
    if fs != [] {
      var inside := CopyLevel(fs[0].kids, HandOver(lists, fs[0].row, next), next + 1);
      var others := CopyLevel(fs[1..], inside.lists, inside.next);
      CopyFolders(fs[0].kids, HandOver(lists, fs[0].row, next), next + 1);
      CopyFolders(fs[1..], inside.lists, inside.next);
      assert ([Node(next, fs[0].name, false, inside.nodes)] + others.nodes)[1..] == others.nodes;
    }
  }

  lemma {:induction false} MarkedFolders(fs: seq<Node>, inbox: string, trash: string)
    ensures AsFolders(Marked(fs, inbox, trash)) == AsFolders(fs)
  {
    if fs != [] {
      MarkedFolders(fs[1..], inbox, trash);
      var f := fs[0].(rootOnly := fs[0].name == inbox || fs[0].name == trash);
      assert ([f] + Marked(fs[1..], inbox, trash))[1..] == Marked(fs[1..], inbox, trash);
    }
  }

  lemma {:induction false} NamesAsFolders(fs: seq<Node>)
    ensures TreeNames(fs) == NamesIn(AsFolders(fs))
    decreases fs
  {
    if fs != [] {
      AsFirst(fs);
      NamesAsFolders(fs[0].kids);
      NamesAsFolders(fs[1..]);
    }
  }

  lemma {:induction false} RereadFolders(t: Tree, fs: seq<Folder>, inbox: string, trash: string)
    requires fs == AsFolders(t.forest) && Distinct(fs) && inbox != trash && Find(fs, inbox) >= 0 && Find(fs, trash) >= 0
    ensures AsFolders(Reread(t, inbox, trash).forest)
         == [Folder(inbox, KidsOf(fs, inbox)), Folder(trash, KidsOf(fs, trash))] + Others(fs, inbox, trash)
  {
    var gs := Reordered(t.forest, inbox, trash);
    ReorderedFolders(t.forest, fs, inbox, trash);
    CopyFolders(gs, t.lists, t.next);
    MarkedFolders(CopyLevel(gs, t.lists, t.next).nodes, inbox, trash);
  }

  /** Starting again is reading the list written: the same folders, and the validator holds the
      names in the list. */
  lemma {:induction false} StartAgainReads(s: Store, inbox: string, trash: string)
    requires Good(s, inbox, trash) && inbox != trash
    ensures var fs, again := AsFolders(s.tree.forest), Step(s, StartAgain);
      && AsFolders(again.tree.forest) == InsertAll([Folder(inbox, []), Folder(trash, [])], Preorder(fs))
      && again.names == NamesIn(fs) == s.names
  {
    var fs, t := AsFolders(s.tree.forest), s.tree;
    GoodFolders(s, inbox, trash);
    Restart(inbox, trash, fs);
    RereadFolders(t, fs, inbox, trash);
    NamesAsFolders(t.forest);
    ReadNames(t.forest, s.names);
  }

  // The manager that is made from what is read.

  /** Rows for folders, from the next unused row on, and the next one after them. */
  function Numbered(fs: seq<Folder>, next: nat): (seq<Node>, nat)
    decreases fs
  {
    if fs == [] then ([], next)
    else
      var inside := Numbered(fs[0].kids, next + 1);
      var others := Numbered(fs[1..], inside.1);
      ([Node(next, fs[0].name, false, inside.0)] + others.0, others.1)
  }

  lemma {:induction false} NumberedRows(fs: seq<Folder>, next: nat)
    ensures var r := Numbered(fs, next);
      next <= r.1 && Rows(r.0) == Span(next, r.1) && Unique(r.0) && NoneRootOnly(r.0)
    decreases fs
  {
    if fs != [] {
      var inside := Numbered(fs[0].kids, next + 1);
      var others := Numbered(fs[1..], inside.1);
      NumberedRows(fs[0].kids, next + 1);
      NumberedRows(fs[1..], inside.1);
      NodeRows(Node(next, fs[0].name, false, inside.0), others.0);
      SpanSplit(next, inside.1, others.1);
    }
  }

  lemma {:induction false} NumberedFolders(fs: seq<Folder>, next: nat)
    ensures AsFolders(Numbered(fs, next).0) == fs
    decreases fs
  {
    if fs != [] {
      var inside := Numbered(fs[0].kids, next + 1);
      var others := Numbered(fs[1..], inside.1);
      NumberedFolders(fs[0].kids, next + 1);
      NumberedFolders(fs[1..], inside.1);
      assert ([Node(next, fs[0].name, false, inside.0)] + others.0)[1..] == others.0;
    }
  }

  /** Names and counts of names depend on the folders only. */
  lemma {:induction false} SameFolders(fs: seq<Node>, gs: seq<Node>, name: string)
    requires AsFolders(fs) == AsFolders(gs)
    ensures Count(fs, name) == Count(gs, name) && (CleanTree(fs) <==> CleanTree(gs))
    ensures NamedAtRoot(fs, name) <==> NamedAtRoot(gs, name)
    decreases fs
  {
    if fs != [] {
      AsFirst(fs);
      AsFirst(gs);
      SameFolders(fs[0].kids, gs[0].kids, name);
      SameFolders(fs[1..], gs[1..], name);
    }
  }

  /** The program's state once it has read folders: each has a new row and a new fax list. */
  function Loaded(fs: seq<Folder>, names: set<string>, inbox: string, trash: string): Store
  {
    var (nodes, next) := Numbered(fs, 0);
    Store(Tree(Marked(nodes, inbox, trash), map r | r in Span(0, next) :: r, next), names, next, inbox, trash)
  }

  lemma {:induction false} LoadedSound(fs: seq<Folder>, names: set<string>, inbox: string, trash: string)
    requires CleanTree(Numbered(fs, 0).0)
    ensures var s := Loaded(fs, names, inbox, trash);
      Sound(s.tree) && ListsBelow(s.tree.lists, s.unused) && AsFolders(s.tree.forest) == fs
  {
    var nodes := Numbered(fs, 0).0;
    NumberedRows(fs, 0);
    NumberedFolders(fs, 0);
    MarkedRows(nodes, inbox, trash);
    MarkedFolders(nodes, inbox, trash);
  }

  /** What is read from the list of a good state makes a good state. */
  lemma {:induction false} LoadedGood(s: Store, fs: seq<Folder>, inbox: string, trash: string)
    requires Good(s, inbox, trash) && fs == AsFolders(s.tree.forest) && fs != []
    ensures Good(Loaded(fs, s.names, inbox, trash), inbox, trash)
  {
    var nodes, forest := Numbered(fs, 0).0, Loaded(fs, s.names, inbox, trash).tree.forest;
    NumberedFolders(fs, 0);
    SameFolders(s.tree.forest, nodes, inbox);
    SameFolders(s.tree.forest, nodes, trash);
    LoadedSound(fs, s.names, inbox, trash);
    forall name ensures Count(forest, name) == if name in s.names then 1 else 0 {
      SameFolders(s.tree.forest, forest, name);
      assert Count(s.tree.forest, name) == if name in s.names then 1 else 0;
    }
    var a: nat :| PermanentAt(s.tree.forest, a, inbox);
    var b: nat :| PermanentAt(s.tree.forest, b, trash);
    PermanentNamed(s.tree.forest, a, inbox);
    PermanentNamed(s.tree.forest, b, trash);
    a := MarkedPermanent(nodes, inbox, trash, inbox);
    b := MarkedPermanent(nodes, inbox, trash, trash);
  }

  /** A fax in the list of a row. */
  datatype Kept = Kept(name: string, row: nat)

  /** The faxes and the folders that they are in. */
  function Located(fs: seq<Node>, faxes: seq<Kept>): (r: seq<FaxPlaces.Fax>)
    requires forall i | 0 <= i < |faxes| :: faxes[i].row in Rows(fs)
    ensures |r| == |faxes|
  {
    seq(|faxes|, i requires 0 <= i < |faxes| => FaxPlaces.Fax(faxes[i].name, PathTo(fs, faxes[i].row)))
  }

  lemma {:induction false} FirstNamed(fs: seq<Node>, r: nat)
    requires r in Rows(fs)
    ensures PathTo(fs, r)[0] in TreeNames(fs)
  {
    if fs[0].row != r && r !in Rows(fs[0].kids) { FirstNamed(fs[1..], r); }
  }

  /** As long as no folder has the empty name, every fax comes back to the folder that it is in. */
  lemma {:induction false} OwnFolder(s: Store, r: nat, inbox: string, trash: string)
    requires Good(s, inbox, trash) && "" !in s.names && r in Rows(s.tree.forest)
    ensures FaxPlaces.Home(inbox, PathTo(s.tree.forest, r)) == PathTo(s.tree.forest, r)
  {
    FirstNamed(s.tree.forest, r);
    ReadNames(s.tree.forest, s.names);
  }

  /** No action gives a folder the empty name. */
  lemma {:induction false} NeverEmpty(s: Store, actions: seq<Action>, inbox: string, trash: string)
    requires Good(s, inbox, trash) && "" !in s.names
    ensures "" !in Run(s, actions).names
    decreases |actions|
  {
    if actions != [] {
      StepGood(s, actions[0], inbox, trash);
      ReadNames(s.tree.forest, s.names);
      NeverEmpty(Step(s, actions[0]), actions[1..], inbox, trash);
    }
  }

  /** End the program and start it again: the new manager is valid and has the folders that the
      old one would have, its validator holds the same names, and every fax is in its folder. */
  method Reopen(m: FolderManager, faxes: seq<Kept>) returns (again: FolderManager, lists: FaxPlaces.FaxLists)
    requires m.Valid() && m.inbox != m.trash && DIVIDER !in m.inbox && DIVIDER !in m.trash
    requires forall i | 0 <= i < |faxes| :: faxes[i].row in Rows(m.tree.forest)
    ensures fresh(again) && again.Valid() && again.inbox == m.inbox && again.trash == m.trash
    ensures AsFolders(again.tree.forest) == AsFolders(Step(m.Now(), StartAgain).tree.forest)
    ensures again.validator.folderSet == m.validator.folderSet
    ensures forall path: Path ::
              FaxPlaces.ListAt(lists, path) == FaxPlaces.FaxesOf(Located(m.tree.forest, faxes), m.inbox, path)
  {
    var fs := AsFolders(m.tree.forest);
    ghost var next := Step(m.Now(), StartAgain);
    GoodFolders(m.Now(), m.inbox, m.trash);
    Restart(m.inbox, m.trash, fs);
    StartAgainReads(m.Now(), m.inbox, m.trash);
    StepGood(m.Now(), StartAgain, m.inbox, m.trash);
    forall i | 0 <= i < |faxes| ensures Has(fs, PathTo(m.tree.forest, faxes[i].row)) {
      PathHas(m.tree.forest, faxes[i].row);
    }
    var folders, names;
    folders, names, lists := FaxPlaces.RestartWithFaxes(fs, Located(m.tree.forest, faxes), m.inbox, m.trash);
    NamesAsFolders(next.tree.forest);
    ReadNames(next.tree.forest, next.names);
    LoadedGood(next, folders, m.inbox, m.trash);
    var s := Loaded(folders, names, m.inbox, m.trash);
    again := new FolderManager.Load(s);
    LoadedFolders(folders, names, m.inbox, m.trash);
  }

  lemma {:induction false} LoadedFolders(fs: seq<Folder>, names: set<string>, inbox: string, trash: string)
    ensures AsFolders(Loaded(fs, names, inbox, trash).tree.forest) == fs
  {
    NumberedFolders(fs, 0);
    MarkedFolders(Numbered(fs, 0).0, inbox, trash);
  }
}
