/** Fax folders: the list of their path names, written in preorder, and the rebuilding of the
    folders from it. */
module Folders {
  import Bits

  const DIVIDER := '@'

  /** A folder and the folders in it, in their order. */
  datatype Folder = Folder(name: string, kids: seq<Folder>)

  /** The names from the root to a folder. */
  type Path = seq<string>

  // Path names.

  function Print(path: Path): string
  {
    if path == [] then "" else Print(path[..|path| - 1]) + [DIVIDER] + path[|path| - 1]
  }

  predicate Clean(path: Path)
  {
    forall i | 0 <= i < |path| :: DIVIDER !in path[i]
  }

  lemma {:induction false} PrintSnoc(path: Path, name: string)
    ensures Print(path + [name]) == Print(path) + [DIVIDER] + name
  {
    assert (path + [name])[..|path|] == path;
  }

  /** The last divider, or -1. */
  method RFind(s: string) returns (pos: int)
    ensures -1 <= pos < |s| && DIVIDER !in s[pos + 1..]
    ensures pos >= 0 ==> s[pos] == DIVIDER
  {
    pos := |s| - 1;
    while pos >= 0 && s[pos] != DIVIDER
      invariant -1 <= pos < |s| && DIVIDER !in s[pos + 1..]
    {
      pos := pos - 1;
    }
  }

  lemma {:induction false} LastDivider(a: string, b: string, c: string, d: string)
    requires a + [DIVIDER] + b == c + [DIVIDER] + d && DIVIDER !in b && DIVIDER !in d
    ensures a == c && b == d
  {
    var s := a + [DIVIDER] + b;
    assert s[|a|] == DIVIDER && s[|a| + 1..] == b && s[..|a|] == a;
    assert s[|c|] == DIVIDER && s[|c| + 1..] == d && s[..|c|] == c;
    assert forall k | |a| < k < |s| :: s[k] == b[k - |a| - 1];
    assert forall k | |c| < k < |s| :: s[k] == d[k - |c| - 1];
  }

  /** A path name stands for one path only. */
  lemma {:induction false} PrintUnique(p: Path, q: Path)
    requires Clean(p) && Clean(q) && Print(p) == Print(q)
    ensures p == q
    decreases |p|
  {
    if p != [] && q != [] {
      var m, n := |p| - 1, |q| - 1;
      LastDivider(Print(p[..m]), p[m], Print(q[..n]), q[n]);
      PrintUnique(p[..m], q[..n]);
      assert p == p[..m] + [p[m]] && q == q[..n] + [q[n]];
    }
  }

  // Folders.

  /** The place of a name among folders, or -1. */
  function Find(fs: seq<Folder>, name: string): (i: int)
    ensures -1 <= i < |fs| && (i >= 0 ==> fs[i].name == name)
    ensures i < 0 ==> forall k | 0 <= k < |fs| :: fs[k].name != name
  {
    if fs == [] then -1
    else if fs[|fs| - 1].name == name && Find(fs[..|fs| - 1], name) < 0 then |fs| - 1
    else Find(fs[..|fs| - 1], name)
  }

  predicate Has(fs: seq<Folder>, path: Path)
    decreases |path|
  {
    path == [] || (Find(fs, path[0]) >= 0 && Has(fs[Find(fs, path[0])].kids, path[1..]))
  }

  function Chain(path: Path): Folder
    requires path != []
  {
    Folder(path[0], if |path| == 1 then [] else [Chain(path[1..])])
  }

  /** The folders with those on a path added where they are missing. */
  function Insert(fs: seq<Folder>, path: Path): seq<Folder>
    decreases |path|
  {
    if path == [] then fs
    else
      var i := Find(fs, path[0]);
      if i < 0 then fs + [Chain(path)] else fs[i := Folder(path[0], Insert(fs[i].kids, path[1..]))]
  }

  function InsertAll(fs: seq<Folder>, paths: seq<Path>): seq<Folder>
    decreases |paths|
  {
    if paths == [] then fs else InsertAll(Insert(fs, paths[0]), paths[1..])
  }

  function Under(name: string, paths: seq<Path>): (r: seq<Path>)
    ensures |r| == |paths|
  {
    seq(|paths|, i requires 0 <= i < |paths| => [name] + paths[i])
  }

  /** The paths of all folders, each before those of the folders in it. */
  function Preorder(fs: seq<Folder>): seq<Path>
  {
    if fs == [] then []
    else [[fs[0].name]] + Under(fs[0].name, Preorder(fs[0].kids)) + Preorder(fs[1..])
  }

  // Reading back.

  lemma {:induction false} InsertAllConcat(fs: seq<Folder>, a: seq<Path>, b: seq<Path>)
    ensures InsertAll(fs, a + b) == InsertAll(InsertAll(fs, a), b)
    decreases |a|
  {
    if a == [] {
      assert a + b == b;
    } else {
      assert (a + b)[1..] == a[1..] + b;
      InsertAllConcat(Insert(fs, a[0]), a[1..], b);
    }
  }

  lemma {:induction false} FindAt(fs: seq<Folder>, f: Folder, i: nat)
    requires i < |fs| && Find(fs, f.name) == i
    ensures Find(fs[i := f], f.name) == i
    decreases |fs|
  {
    var n := |fs| - 1;
    if i == n {
      assert fs[i := f][..n] == fs[..n];
    } else {
      assert fs[i := f][..n] == fs[..n][i := f];
      FindAt(fs[..n], f, i);
    }
  }

  lemma {:induction false} FindNew(fs: seq<Folder>, f: Folder)
    requires Find(fs, f.name) < 0
    ensures Find(fs + [f], f.name) == |fs|
  {
    assert (fs + [f])[..|fs|] == fs;
  }

  /** Paths that all begin with an existing folder change only what is in that folder. */
  lemma {:induction false} InsertUnder(fs: seq<Folder>, name: string, paths: seq<Path>)
    requires Find(fs, name) >= 0
    ensures var i := Find(fs, name);
      InsertAll(fs, Under(name, paths)) == fs[i := Folder(name, InsertAll(fs[i].kids, paths))]
    decreases |paths|
  {
    var i := Find(fs, name);
    if paths == [] {
      assert fs[i := Folder(name, fs[i].kids)] == fs;
    } else {
      var fs' := Insert(fs, [name] + paths[0]);
      assert ([name] + paths[0])[1..] == paths[0];
      FindAt(fs, Folder(name, Insert(fs[i].kids, paths[0])), i);
      assert Under(name, paths)[1..] == Under(name, paths[1..]);
      InsertUnder(fs', name, paths[1..]);
    }
  }

  /** Folders merged into existing ones: those known by name keep their place. */
  function Merge(gs: seq<Folder>, fs: seq<Folder>): seq<Folder>
    decreases fs
  {
    if fs == [] then gs
    else
      var i := Find(gs, fs[0].name);
      var gs' := if i < 0 then gs + [Folder(fs[0].name, Merge([], fs[0].kids))]
                 else gs[i := Folder(fs[0].name, Merge(gs[i].kids, fs[0].kids))];
      Merge(gs', fs[1..])
  }

  lemma {:induction false} FirstLevel(gs: seq<Folder>, name: string)
    ensures var i, gs1 := Find(gs, name), Insert(gs, [name]);
      && (i >= 0 ==> gs1 == gs)
      && (i < 0 ==> gs1 == gs + [Folder(name, [])] && Find(gs1, name) == |gs|)
  {
    var i := Find(gs, name);
    if i < 0 {
      FindNew(gs, Folder(name, []));
    } else {
      assert [name][1..] == [];
      assert gs[i := Folder(name, gs[i].kids)] == gs;
    }
  }

  /** The folders known after the paths of f and of all folders in it. */
  lemma {:induction false} ReadOne(gs: seq<Folder>, name: string, inside: seq<Path>)
    ensures var i := Find(gs, name);
      InsertAll(gs, [[name]] + Under(name, inside))
      == if i < 0 then gs + [Folder(name, InsertAll([], inside))]
          else gs[i := Folder(name, InsertAll(gs[i].kids, inside))]
  {
    var gs1 := Insert(gs, [name]);
    InsertAllConcat(gs, [[name]], Under(name, inside));
    InsertOne(gs, [name]);
    FirstLevel(gs, name);
    InsertUnder(gs1, name, inside);
    if Find(gs, name) < 0 { LastChanged(gs, Folder(name, []), Folder(name, InsertAll([], inside))); }
  }

  lemma {:induction false} InsertOne(gs: seq<Folder>, path: Path)
    ensures InsertAll(gs, [path]) == Insert(gs, path)
  {
    assert [path][1..] == [];
  }

  lemma {:induction false} LastChanged(gs: seq<Folder>, f: Folder, g: Folder)
    ensures (gs + [f])[|gs| := g] == gs + [g]
  {
  }

  /** Reading a list of path names merges the folders it was written for. */
  lemma {:induction false} ReadMerges(gs: seq<Folder>, fs: seq<Folder>)
    ensures InsertAll(gs, Preorder(fs)) == Merge(gs, fs)
    decreases fs
  {
    if fs != [] {
      var f, i := fs[0], Find(gs, fs[0].name);
      var known := if i < 0 then [] else gs[i].kids;
      InsertAllConcat(gs, [[f.name]] + Under(f.name, Preorder(f.kids)), Preorder(fs[1..]));
      ReadOne(gs, f.name, Preorder(f.kids));
      ReadMerges(known, f.kids);
      ReadMerges(if i < 0 then gs + [Folder(f.name, Merge([], f.kids))]
                 else gs[i := Folder(f.name, Merge(gs[i].kids, f.kids))],
                 fs[1..]);
    }
  }

  /** No two folders side by side have the same name. */
  predicate Distinct(fs: seq<Folder>)
  {
    fs == [] || (Find(fs[1..], fs[0].name) < 0 && Distinct(fs[0].kids) && Distinct(fs[1..]))
  }

  predicate Apart(gs: seq<Folder>, fs: seq<Folder>)
  {
    forall k | 0 <= k < |fs| :: Find(gs, fs[k].name) < 0
  }

  /** Apart from one more folder, if it is not among the others. */
  lemma {:induction false} ApartNext(gs: seq<Folder>, fs: seq<Folder>)
    requires fs != [] && Apart(gs, fs) && Find(fs[1..], fs[0].name) < 0
    ensures Find(gs, fs[0].name) < 0 && Apart(gs + [fs[0]], fs[1..])
  {
    var f, rest := fs[0], fs[1..];
    forall k | 0 <= k < |rest| ensures Find(gs + [f], rest[k].name) < 0 {
      assert rest[k] == fs[k + 1];
      assert (gs + [f])[..|gs|] == gs;
    }
  }

  lemma {:induction false} OneThenRest(gs: seq<Folder>, fs: seq<Folder>)
    requires fs != []
    ensures (gs + [fs[0]]) + fs[1..] == gs + fs
  {
  }

  lemma {:induction false} NoFolders(fs: seq<Folder>)
    ensures [] + fs == fs && fs + [] == fs
  {
  }

  /** New folders with distinct names are put after the existing ones as they are. */
  lemma {:induction false} MergeApart(gs: seq<Folder>, fs: seq<Folder>)
    requires Distinct(fs) && Apart(gs, fs)
    ensures Bits.Same(Merge(gs, fs), gs + fs)
    decreases fs
  {
    if fs == [] {
      NoFolders(gs);
    } else {
      ApartNext(gs, fs);
      MergeApart([], fs[0].kids);
      NoFolders(fs[0].kids);
      MergeApart(gs + [fs[0]], fs[1..]);
      OneThenRest(gs, fs);
    }
  }

  /** Reading back the list of path names gives exactly the folders it was written for. */
  lemma {:induction false} ReadBack(fs: seq<Folder>)
    requires Distinct(fs)
    ensures InsertAll([], Preorder(fs)) == fs
  {
    ReadMerges([], fs);
    MergeApart([], fs);
    NoFolders(fs);
  }

  /** The kids a folder of the given name has among fs. */
  function KidsOf(fs: seq<Folder>, name: string): seq<Folder>
  {
    if Find(fs, name) >= 0 then fs[Find(fs, name)].kids else []
  }

  function Others(fs: seq<Folder>, a: string, b: string): seq<Folder>
  {
    if fs == [] then []
    else (if fs[0].name == a || fs[0].name == b then [] else [fs[0]]) + Others(fs[1..], a, b)
  }

  /** Folders a and b, with the kids they have among fs or, if not there, with the given ones. */
  function Permanent(a: Folder, b: Folder, fs: seq<Folder>): seq<Folder>
  {
    [Folder(a.name, a.kids + KidsOf(fs, a.name)), Folder(b.name, b.kids + KidsOf(fs, b.name))]
  }

  lemma {:induction false} FindFirst(fs: seq<Folder>, name: string)
    requires fs != []
    ensures Find(fs, name)
         == if fs[0].name == name then 0 else if Find(fs[1..], name) < 0 then -1 else Find(fs[1..], name) + 1
    decreases |fs|
  {
    if |fs| > 1 {
      FindFirst(fs[..|fs| - 1], name);
      assert fs[..|fs| - 1][1..] == fs[1..][..|fs| - 2];
    }
  }

  lemma {:induction false} FindPermanent(a: Folder, b: Folder, done: seq<Folder>, name: string)
    requires Find(done, name) < 0
    ensures Find([a, b] + done, name) == if name == a.name then 0 else if name == b.name then 1 else -1
  {
    FindFirst([a, b] + done, name);
    assert ([a, b] + done)[1..] == [b] + done;
    FindFirst([b] + done, name);
    assert ([b] + done)[1..] == done;
  }

  lemma {:induction false} FindSnoc(fs: seq<Folder>, f: Folder, name: string)
    requires Find(fs, name) < 0 && f.name != name
    ensures Find(fs + [f], name) < 0
  {
    assert (fs + [f])[..|fs|] == fs;
  }

  /** What is expected once fs is merged. */
  ghost predicate Merged(a: Folder, b: Folder, done: seq<Folder>, fs: seq<Folder>)
  {
    Merge([a, b] + done, fs) == Permanent(a, b, fs) + (done + Others(fs, a.name, b.name))
  }

  predicate Mergeable(a: Folder, b: Folder, done: seq<Folder>, fs: seq<Folder>)
  {
    && Distinct(fs) && a.name != b.name && Apart(done, fs) && Find(done, a.name) < 0 && Find(done, b.name) < 0
    && (Find(fs, a.name) >= 0 ==> a.kids == []) && (Find(fs, b.name) >= 0 ==> b.kids == [])
  }

  lemma {:induction false} MergedNone(a: Folder, b: Folder, done: seq<Folder>)
    ensures Merged(a, b, done, [])
  {
    assert done + [] == done && a.kids + [] == a.kids && b.kids + [] == b.kids;
  }

  /** Kids known for a folder, and those it has among fs. */
  lemma {:induction false} KidsNext(f: Folder, fs: seq<Folder>)
    requires fs != [] && Find(fs[1..], fs[0].name) < 0
    ensures fs[0].name == f.name && f.kids == [] ==> fs[0].kids + KidsOf(fs[1..], f.name) == f.kids + KidsOf(fs, f.name)
    ensures fs[0].name != f.name ==> KidsOf(fs[1..], f.name) == KidsOf(fs, f.name)
  {
    FindFirst(fs, f.name);
    NoFolders(fs[0].kids);
  }

  lemma {:induction false} MergedFirst(a: Folder, b: Folder, done: seq<Folder>, fs: seq<Folder>)
    requires Mergeable(a, b, done, fs) && fs != [] && fs[0].name == a.name
    ensures Mergeable(fs[0], b, done, fs[1..])
    ensures Merged(fs[0], b, done, fs[1..]) ==> Merged(a, b, done, fs)
  {
    FindFirst(fs, a.name);
    FindFirst(fs, b.name);
    FindPermanent(a, b, done, a.name);
    MergeApart([], fs[0].kids);
    NoFolders(fs[0].kids);
    KidsNext(a, fs);
    KidsNext(b, fs);
    assert ([a, b] + done)[0 := fs[0]] == [fs[0], b] + done;
    ApartTail(done, fs);
    NoFolders(Others(fs[1..], a.name, b.name));
  }

  lemma {:induction false} ApartTail(gs: seq<Folder>, fs: seq<Folder>)
    requires Apart(gs, fs) && fs != []
    ensures Apart(gs, fs[1..])
  {
    assert forall k | 0 <= k < |fs[1..]| :: fs[1..][k] == fs[k + 1];
  }

  lemma {:induction false} MergedSecond(a: Folder, b: Folder, done: seq<Folder>, fs: seq<Folder>)
    requires Mergeable(a, b, done, fs) && fs != [] && fs[0].name == b.name
    ensures Mergeable(a, fs[0], done, fs[1..])
    ensures Merged(a, fs[0], done, fs[1..]) ==> Merged(a, b, done, fs)
  {
    FindFirst(fs, a.name);
    FindFirst(fs, b.name);
    FindPermanent(a, b, done, b.name);
    MergeApart([], fs[0].kids);
    NoFolders(fs[0].kids);
    KidsNext(a, fs);
    KidsNext(b, fs);
    assert ([a, b] + done)[1 := fs[0]] == [a, fs[0]] + done;
    ApartTail(done, fs);
    NoFolders(Others(fs[1..], a.name, b.name));
  }

  lemma {:induction false} MergedOther(a: Folder, b: Folder, done: seq<Folder>, fs: seq<Folder>)
    requires Mergeable(a, b, done, fs) && fs != [] && fs[0].name != a.name && fs[0].name != b.name
    ensures Mergeable(a, b, done + [fs[0]], fs[1..])
    ensures Merged(a, b, done + [fs[0]], fs[1..]) ==> Merged(a, b, done, fs)
  {
    var f := fs[0];
    FindFirst(fs, a.name);
    FindFirst(fs, b.name);
    ApartNext(done, fs);
    FindPermanent(a, b, done, f.name);
    MergeApart([], f.kids);
    NoFolders(f.kids);
    assert ([a, b] + done) + [f] == [a, b] + (done + [f]);
    FindSnoc(done, f, a.name);
    FindSnoc(done, f, b.name);
    Bits.SeqAssoc(done, [f], Others(fs[1..], a.name, b.name));
  }

  /** The two permanent folders keep their places; other folders follow in their order. */
  lemma {:induction false} MergePermanent(a: Folder, b: Folder, done: seq<Folder>, fs: seq<Folder>)
    requires Mergeable(a, b, done, fs)
    ensures Merged(a, b, done, fs)
    decreases fs
  {
    if fs == [] {
      MergedNone(a, b, done);
    } else if fs[0].name == a.name {
      MergedFirst(a, b, done, fs);
      MergePermanent(fs[0], b, done, fs[1..]);
    } else if fs[0].name == b.name {
      MergedSecond(a, b, done, fs);
      MergePermanent(a, fs[0], done, fs[1..]);
    } else {
      MergedOther(a, b, done, fs);
      MergePermanent(a, b, done + [fs[0]], fs[1..]);
    }
  }

  /** The program starts with two permanent folders and then reads the list written before.
      What it has then are the folders it had, the permanent ones first. */
  lemma {:induction false} Restart(inbox: string, trash: string, fs: seq<Folder>)
    requires Distinct(fs) && inbox != trash
    ensures InsertAll([Folder(inbox, []), Folder(trash, [])], Preorder(fs))
         == [Folder(inbox, KidsOf(fs, inbox)), Folder(trash, KidsOf(fs, trash))] + Others(fs, inbox, trash)
  {
    var a, b := Folder(inbox, []), Folder(trash, []);
    ReadMerges([a, b], fs);
    assert [a, b] + [] == [a, b];
    MergePermanent(a, b, [], fs);
    NoFolders(Others(fs, inbox, trash));
    NoFolders(KidsOf(fs, inbox));
    NoFolders(KidsOf(fs, trash));
  }

  // One line of the list.

  lemma {:induction false} FirstOf(path: Path, name: string)
    requires path != []
    ensures (path + [name])[0] == path[0] && (path + [name])[1..] == path[1..] + [name]
  {
  }

  lemma {:induction false} HasPrefix(fs: seq<Folder>, path: Path, name: string)
    requires Has(fs, path + [name])
    ensures Has(fs, path)
    decreases |path|
  {
    if path != [] {
      FirstOf(path, name);
      HasPrefix(fs[Find(fs, path[0])].kids, path[1..], name);
    }
  }

  /** A known path adds nothing. */
  lemma {:induction false} InsertKnown(fs: seq<Folder>, path: Path)
    requires Has(fs, path)
    ensures Insert(fs, path) == fs
    decreases |path|
  {
    if path != [] {
      var i := Find(fs, path[0]);
      InsertKnown(fs[i].kids, path[1..]);
      assert fs[i := Folder(path[0], fs[i].kids)] == fs;
    }
  }

  /** A new folder put last in the folder of the given path. */
  function AppendChild(fs: seq<Folder>, path: Path, name: string): seq<Folder>
    requires Has(fs, path)
    decreases |path|
  {
    if path == [] then fs + [Folder(name, [])]
    else
      var i := Find(fs, path[0]);
      fs[i := Folder(path[0], AppendChild(fs[i].kids, path[1..], name))]
  }

  lemma {:induction false} AppendInserts(fs: seq<Folder>, path: Path, name: string)
    requires Has(fs, path) && !Has(fs, path + [name])
    ensures AppendChild(fs, path, name) == Insert(fs, path + [name])
    decreases |path|
  {
    if path == [] {
      assert [] + [name] == [name] && [name][1..] == [];
    } else {
      FirstOf(path, name);
      AppendInserts(fs[Find(fs, path[0])].kids, path[1..], name);
    }
  }

  /** The folders of a path can be added level by level. */
  lemma {:induction false} InsertDeeper(fs: seq<Folder>, path: Path, name: string)
    ensures Has(Insert(fs, path), path) && Insert(Insert(fs, path), path + [name]) == Insert(fs, path + [name])
    decreases |path|
  {
    if path != [] {
      var i := Find(fs, path[0]);
      FirstOf(path, name);
      if i < 0 {
        FindNew(fs, Chain(path));
        ChainIsInsert(path);
        ChainIsInsert(path + [name]);
        InsertDeeper([], path[1..], name);
        assert (fs + [Chain(path)])[|fs| := Chain(path + [name])] == fs + [Chain(path + [name])];
      } else {
        FindAt(fs, Folder(path[0], Insert(fs[i].kids, path[1..])), i);
        InsertDeeper(fs[i].kids, path[1..], name);
      }
    }
  }

  lemma {:induction false} ChainIsInsert(path: Path)
    requires path != []
    ensures Chain(path) == Folder(path[0], Insert([], path[1..]))
  {
    if |path| > 1 { assert [] + [Chain(path[1..])] == [Chain(path[1..])]; }
  }

  /** Appending a folder makes its path known and no other. */
  lemma {:induction false} HasAppended(fs: seq<Folder>, path: Path, name: string, other: Path)
    requires Has(fs, path) && !Has(fs, path + [name])
    ensures Has(AppendChild(fs, path, name), other) <==> Has(fs, other) || other == path + [name]
    decreases |path|
  {
    if other != [] {
      if path == [] {
        assert (fs + [Folder(name, [])])[..|fs|] == fs;
        assert [] + [name] == [name];
        assert other[0] == name && other[1..] == [] ==> other == [name];
      } else {
        var i := Find(fs, path[0]);
        var kids := AppendChild(fs[i].kids, path[1..], name);
        FirstOf(path, name);
        FindAt(fs, Folder(path[0], kids), i);
        FindOther(fs, Folder(path[0], kids), i, other[0]);
        HasAppended(fs[i].kids, path[1..], name, other[1..]);
        assert other == [other[0]] + other[1..] && path + [name] == [path[0]] + (path[1..] + [name]);
      }
    }
  }

  lemma {:induction false} FindOther(fs: seq<Folder>, f: Folder, i: nat, name: string)
    requires i < |fs| && Find(fs, f.name) == i
    ensures Find(fs[i := f], name) == Find(fs, name)
    decreases |fs|
  {
    var n := |fs| - 1;
    if i == n {
      assert fs[i := f][..n] == fs[..n];
    } else {
      assert fs[i := f][..n] == fs[..n][i := f];
      FindOther(fs[..n], f, i, name);
    }
  }

  // The list manager.

  function PrintAll(prefix: Path, paths: seq<Path>): (lines: seq<string>)
    ensures |lines| == |paths|
  {
    seq(|paths|, i requires 0 <= i < |paths| => Print(prefix + paths[i]))
  }

  lemma {:induction false} PrintInside(prefix: Path, name: string, paths: seq<Path>)
    ensures PrintAll(prefix, [[name]] + Under(name, paths))
         == [Print(prefix + [name])] + PrintAll(prefix + [name], paths)
  {
    forall i | 0 <= i < |paths| ensures Print(prefix + ([name] + paths[i])) == Print((prefix + [name]) + paths[i]) {
      Bits.SeqAssoc(prefix, [name], paths[i]);
    }
  }

  lemma {:induction false} PrintConcat(prefix: Path, a: seq<Path>, b: seq<Path>)
    ensures PrintAll(prefix, a + b) == PrintAll(prefix, a) + PrintAll(prefix, b)
  {
  }

  lemma {:induction false} PreorderSnoc(fs: seq<Folder>, f: Folder)
    ensures Preorder(fs + [f]) == Preorder(fs) + ([[f.name]] + Under(f.name, Preorder(f.kids)))
  {
    if fs == [] {
      assert [] + [f] == [f] && [f][1..] == [];
      assert [[f.name]] + Under(f.name, Preorder(f.kids)) + [] == [] + ([[f.name]] + Under(f.name, Preorder(f.kids)));
    } else {
      assert (fs + [f])[1..] == fs[1..] + [f];
      PreorderSnoc(fs[1..], f);
      Bits.SeqAssoc([[fs[0].name]] + Under(fs[0].name, Preorder(fs[0].kids)), Preorder(fs[1..]),
               [[f.name]] + Under(f.name, Preorder(f.kids)));
    }
  }

  /** Write the path names of the folders of a level, each followed by those inside it. */
  method WritePathsForLevel(level: seq<Folder>, prefix: Path) returns (lines: seq<string>)
    ensures lines == PrintAll(prefix, Preorder(level))
    decreases level
  {
    lines := [];
    for k := 0 to |level|
      invariant lines == PrintAll(prefix, Preorder(level[..k]))
    {
      var f := level[k];
      var pathname := Print(prefix + [f.name]);
      var inside := WritePathsForLevel(f.kids, prefix + [f.name]);
      lines := lines + ([pathname] + inside);
      assert level[..k + 1] == level[..k] + [f];
      PreorderSnoc(level[..k], f);
      PrintInside(prefix, f.name, Preorder(f.kids));
      PrintConcat(prefix, Preorder(level[..k]), [[f.name]] + Under(f.name, Preorder(f.kids)));
    }
    assert level[..|level|] == level;
  }

  lemma {:induction false} SinglePath(name: string)
    ensures Print([name]) == [DIVIDER] + name
  {
    PrintSnoc([], name);
    assert [] + [name] == [name] && "" + [DIVIDER] + name == [DIVIDER] + name;
  }

  lemma {:induction false} PrintStart(path: Path)
    requires path != []
    ensures Print(path) != "" && Print(path)[0] == DIVIDER
    decreases |path|
  {
    if |path| > 1 { PrintStart(path[..|path| - 1]); }
  }

  lemma {:induction false} StartHas(inbox: string, trash: string, path: Path)
    requires path != [] && inbox != trash
    ensures Has([Folder(inbox, []), Folder(trash, [])], path) <==> path == [inbox] || path == [trash]
  {
    var fs := [Folder(inbox, []), Folder(trash, [])];
    FindFirst(fs, path[0]);
    FindFirst(fs[1..], path[0]);
    assert path == [path[0]] + path[1..];
  }

  /** The last divider of a text is the one before a part without dividers. */
  lemma {:induction false} CutAt(a: string, b: string, s: string, pos: int)
    requires s == a + [DIVIDER] + b && DIVIDER !in b
    requires -1 <= pos < |s| && DIVIDER !in s[pos + 1..] && (pos >= 0 ==> s[pos] == DIVIDER)
    ensures pos >= 0 && s[..pos] == a && s[pos + 1..] == b
  {
    assert s[|a|] == DIVIDER;
    assert forall i | pos < i < |s| :: s[i] == s[pos + 1..][i - pos - 1];
    assert forall i | |a| < i < |s| :: s[i] == b[i - |a| - 1];
    assert pos == |a|;
  }

  /** The last name of a text and a path name is what follows the last divider. */
  lemma {:induction false} LastName(lead: string, path: Path, s: string, pos: int)
    requires path != [] && Clean(path) && s == lead + Print(path)
    requires -1 <= pos < |s| && DIVIDER !in s[pos + 1..] && (pos >= 0 ==> s[pos] == DIVIDER)
    ensures pos >= 0 && s[..pos] == lead + Print(path[..|path| - 1]) && s[pos + 1..] == path[|path| - 1]
  {
    SplitLine(lead, path);
    CutAt(lead + Print(path[..|path| - 1]), path[|path| - 1], s, pos);
  }

  lemma {:induction false} SplitLine(lead: string, path: Path)
    requires path != []
    ensures lead + Print(path) == (lead + Print(path[..|path| - 1])) + [DIVIDER] + path[|path| - 1]
  {
  }

  lemma {:induction false} SplitSnoc(lead: string, rest: Path, name: string)
    ensures lead + Print(rest + [name]) == (lead + Print(rest)) + [DIVIDER] + name
  {
    SplitLine(lead, rest + [name]);
    assert (rest + [name])[..|rest|] == rest;
  }

  lemma {:induction false} AroundDivider(line: string, pos: nat)
    requires pos < |line| && line[pos] == DIVIDER
    ensures line == line[..pos] + [DIVIDER] + line[pos + 1..]
  {
  }

  lemma {:induction false} JoinLine(line: string, pos: nat, lead: string, rest: Path)
    requires pos < |line| && line[pos] == DIVIDER && line[..pos] == lead + Print(rest)
    ensures line == lead + Print(rest + [line[pos + 1..]])
  {
    SplitSnoc(lead, rest, line[pos + 1..]);
    AroundDivider(line, pos);
  }

  lemma {:induction false} CleanPrefix(path: Path, k: nat)
    requires Clean(path) && k <= |path|
    ensures Clean(path[..k])
  {
  }

  /** Every line is a text without dividers and a path name after it. */
  lemma {:induction false} EveryLine(line: string) returns (lead: string, path: Path)
    ensures DIVIDER !in lead && Clean(path) && line == lead + Print(path)
  {
    var pos := |line| - 1;
    while pos >= 0 && line[pos] != DIVIDER
      invariant -1 <= pos < |line| && DIVIDER !in line[pos + 1..]
    {
      pos := pos - 1;
    }
    if pos < 0 {
      lead, path := line, [];
    } else {
      var rest;
      lead, rest := EveryLine(line[..pos]);
      path := rest + [line[pos + 1..]];
      JoinLine(line, pos, lead, rest);
    }
  }

  lemma {:induction false} HasDivider(lead: string, path: Path)
    requires path != []
    ensures DIVIDER in lead + Print(path)
  {
    SplitLine(lead, path);
    var a := lead + Print(path[..|path| - 1]);
    assert (a + [DIVIDER] + path[|path| - 1])[|a|] == DIVIDER;
  }

  /** A line is a text and a path name in one way only. */
  lemma {:induction false} LineUnique(a: string, p: Path, b: string, q: Path)
    requires DIVIDER !in a && DIVIDER !in b && Clean(p) && Clean(q) && a + Print(p) == b + Print(q)
    ensures a == b && p == q
    decreases |p|
  {
    var m, n := |p| - 1, |q| - 1;
    if p != [] { HasDivider(a, p); }
    if q != [] { HasDivider(b, q); }
    if p == [] || q == [] {
      assert a + "" == a && b + "" == b;
    } else {
      SplitLine(a, p);
      SplitLine(b, q);
      LastDivider(a + Print(p[..m]), p[m], b + Print(q[..n]), q[n]);
      LineUnique(a, p[..m], b, q[..n]);
      assert p == p[..m] + [p[m]] && q == q[..n] + [q[n]];
    }
  }

  lemma {:induction false} LineStart(lead: string, path: Path)
    requires DIVIDER !in lead
    ensures lead == "" && path != [] <==> lead + Print(path) != "" && (lead + Print(path))[0] == DIVIDER
  {
    if path != [] { PrintStart(path); }
    if lead != "" { LeadUnknown(lead, path); }
  }

  // The names of folders.

  function Names(path: Path): set<string>
  {
    set name | name in path
  }

  function NamesIn(fs: seq<Folder>): set<string>
  {
    if fs == [] then {} else {fs[0].name} + NamesIn(fs[0].kids) + NamesIn(fs[1..])
  }

  lemma {:induction false} NamesAppended(fs: seq<Folder>, f: Folder)
    ensures NamesIn(fs + [f]) == NamesIn(fs) + {f.name} + NamesIn(f.kids)
  {
    if fs == [] {
      assert fs + [f] == [f] && [f][1..] == [];
    } else {
      assert (fs + [f])[1..] == fs[1..] + [f];
      NamesAppended(fs[1..], f);
    }
  }

  /** More names in one of the folders. */
  lemma {:induction false} NamesAdded(fs: seq<Folder>, i: nat, kids: seq<Folder>, more: set<string>)
    requires i < |fs| && NamesIn(kids) == NamesIn(fs[i].kids) + more
    ensures NamesIn(fs[i := Folder(fs[i].name, kids)]) == NamesIn(fs) + more
  {
    var f := Folder(fs[i].name, kids);
    if i == 0 {
      assert fs[0 := f][1..] == fs[1..];
    } else {
      assert fs[i := f][1..] == fs[1..][i - 1 := f];
      NamesAdded(fs[1..], i - 1, kids, more);
    }
  }

  lemma {:induction false} NamesFirst(path: Path)
    requires path != []
    ensures Names(path) == {path[0]} + Names(path[1..])
  {
    assert path == [path[0]] + path[1..];
  }

  lemma {:induction false} NamesSplit(path: Path, k: nat)
    requires k <= |path|
    ensures Names(path) == Names(path[..k]) + Names(path[k..])
  {
    assert path == path[..k] + path[k..];
  }

  lemma {:induction false} NameAt(fs: seq<Folder>, i: nat)
    requires i < |fs|
    ensures fs[i].name in NamesIn(fs) && NamesIn(fs[i].kids) <= NamesIn(fs)
  {
    if i > 0 { NameAt(fs[1..], i - 1); }
  }

  lemma {:induction false} HasNames(fs: seq<Folder>, path: Path)
    requires Has(fs, path)
    ensures Names(path) <= NamesIn(fs)
    decreases |path|
  {
    if path != [] {
      var i := Find(fs, path[0]);
      NameAt(fs, i);
      HasNames(fs[i].kids, path[1..]);
      NamesFirst(path);
    }
  }

  lemma {:induction false} ChainNames(path: Path)
    requires path != []
    ensures {Chain(path).name} + NamesIn(Chain(path).kids) == Names(path)
    decreases |path|
  {
    NamesFirst(path);
    if |path| > 1 {
      ChainNames(path[1..]);
      assert [Chain(path[1..])][1..] == [];
    }
  }

  /** Adding a path adds its names. */
  lemma {:induction false} InsertNames(fs: seq<Folder>, path: Path)
    ensures NamesIn(Insert(fs, path)) == NamesIn(fs) + Names(path)
    decreases |path|
  {
    if path != [] {
      var i := Find(fs, path[0]);
      if i < 0 {
        NamesAppended(fs, Chain(path));
        ChainNames(path);
      } else {
        InsertNames(fs[i].kids, path[1..]);
        NamesAdded(fs, i, Insert(fs[i].kids, path[1..]), Names(path[1..]));
        NamesFirst(path);
        NameAt(fs, i);
      }
    }
  }

  /** A missing folder's own folders are missing too, and stay so when it is added. */
  lemma {:induction false} NextMissing(fs: seq<Folder>, path: Path, name: string, next: string)
    requires Has(fs, path) && !Has(fs, path + [name])
    ensures !Has(Insert(fs, path + [name]), path + [name] + [next])
  {
    AppendInserts(fs, path, name);
    HasAppended(fs, path, name, path + [name] + [next]);
    if Has(fs, path + [name] + [next]) { HasPrefix(fs, path + [name], next); }
  }

  /** Adding the first missing folder of a path. */
  lemma {:induction false} MissingAdded(was: seq<Folder>, fs: seq<Folder>, at: Path, name: string)
    requires fs == Insert(was, at) && Has(fs, at) && !Has(fs, at + [name])
    ensures var now := Insert(fs, at + [name]); now == Insert(was, at + [name]) && Has(now, at + [name])
  {
    InsertDeeper(was, at, name);
    InsertDeeper(fs, at + [name], "");
  }

  lemma {:induction false} WholePath(path: Path)
    ensures Bits.Same(path[..|path|], path)
  {
    assert path[..|path|] == path;
  }

  lemma {:induction false} TakeNext(path: Path, k: nat)
    requires k < |path|
    ensures path[..k + 1] == path[..k] + [path[k]]
    ensures k + 1 < |path| ==> path[..k + 2] == path[..k] + [path[k]] + [path[k + 1]]
    ensures Clean(path) ==> Clean(path[..k] + [path[k]])
  {
  }

  /** How far the search for a known part of a line has come. */
  ghost predicate Searched(lead: string, path: Path, k: nat, remaining: string, missing: seq<string>)
  {
    && k <= |path| && remaining == lead + Print(path[..k]) && |missing| == |path| - k
    && forall i | 0 <= i < |missing| :: missing[i] == path[|path| - 1 - i]
  }

  lemma {:induction false} SearchOn(lead: string, path: Path, k: nat, remaining: string, missing: seq<string>, pos: int)
    requires Clean(path) && k > 0 && Searched(lead, path, k, remaining, missing)
    requires -1 <= pos < |remaining| && DIVIDER !in remaining[pos + 1..] && (pos >= 0 ==> remaining[pos] == DIVIDER)
    ensures pos >= 0 && remaining[pos + 1..] == path[k - 1]
    ensures Searched(lead, path, k - 1, remaining[..pos], missing + [remaining[pos + 1..]])
  {
    CutName(lead, path, k, remaining, pos);
    OneMissing(path, k, missing, remaining[pos + 1..]);
  }

  /** Cutting a line at its last divider cuts off the last name. */
  lemma {:induction false} CutName(lead: string, path: Path, k: nat, remaining: string, pos: int)
    requires Clean(path) && 0 < k <= |path| && remaining == lead + Print(path[..k])
    requires -1 <= pos < |remaining| && DIVIDER !in remaining[pos + 1..] && (pos >= 0 ==> remaining[pos] == DIVIDER)
    ensures pos >= 0 && remaining[..pos] == lead + Print(path[..k - 1]) && remaining[pos + 1..] == path[k - 1]
  {
    var p := path[..k];
    CleanPrefix(path, k);
    LastName(lead, p, remaining, pos);
    assert p[..k - 1] == path[..k - 1] && p[k - 1] == path[k - 1];
  }

  lemma {:induction false} OneMissing(path: Path, k: nat, missing: seq<string>, name: string)
    requires 0 < k <= |path| && |missing| == |path| - k && name == path[k - 1]
    requires forall i | 0 <= i < |missing| :: missing[i] == path[|path| - 1 - i]
    ensures var more := missing + [name];
      |more| == |path| - (k - 1) && forall i | 0 <= i < |more| :: more[i] == path[|path| - 1 - i]
  {
  }

  lemma {:induction false} NamesLater(path: Path, k: nat)
    requires 0 < k <= |path|
    ensures Names(path[k - 1..]) == Names(path[k..]) + {path[k - 1]}
  {
    NamesFirst(path[k - 1..]);
    assert path[k - 1..][1..] == path[k..];
  }

  /** A line with a text in front is no path name, however much is cut off it. */
  lemma {:induction false} LeadUnknown(lead: string, path: Path)
    requires DIVIDER !in lead && lead != ""
    ensures lead + Print(path) != "" && (lead + Print(path))[0] != DIVIDER
  {
  }

  /** The path name of each folder leads to its path, and no other one leads anywhere. */
  ghost predicate Indexed(folders: seq<Folder>, known: map<string, Path>)
  {
    && (forall path: Path :: path != [] && Clean(path) ==> Knows(folders, known, path))
    && (forall k | k in known :: k != "" && k[0] == DIVIDER)
  }

  predicate Knows(folders: seq<Folder>, known: map<string, Path>, path: Path)
  {
    (Print(path) in known <==> Has(folders, path)) && (Print(path) in known ==> known[Print(path)] == path)
  }

  /** The search has left k names of the path, of which the first ones may be known. */
  ghost predicate Cutting(folders: seq<Folder>, lead: string, path: Path, k: nat, remaining: string,
                          missing: seq<string>)
  {
    && Searched(lead, path, k, remaining, missing)
    && (lead == "" && k < |path| ==> !Has(folders, path[..k + 1]))
  }

  lemma {:induction false} CutUnknown(folders: seq<Folder>, known: map<string, Path>, lead: string, path: Path, k: nat,
                                      remaining: string, missing: seq<string>)
    requires Indexed(folders, known) && Clean(path) && DIVIDER !in lead
    requires Cutting(folders, lead, path, k, remaining, missing)
    ensures remaining in known ==> lead == "" && k > 0
    ensures lead == "" && k > 0 && remaining !in known ==> !Has(folders, path[..k])
    ensures remaining == "" ==> lead == "" && k == 0
    ensures lead == "" && (k == 0 || remaining in known) ==> Has(folders, path[..k])
  {
    CleanPrefix(path, k);
    if lead != "" {
      LeadUnknown(lead, path[..k]);
    } else {
      assert "" + Print(path[..k]) == Print(path[..k]);
      if k > 0 {
        PrintStart(path[..k]);
        assert Knows(folders, known, path[..k]);
      }
    }
  }

  /** One name is cut off, and what is left is still to be searched for. */
  lemma {:induction false} CutNext(folders: seq<Folder>, known: map<string, Path>, lead: string, path: Path, k: nat,
                                   remaining: string, missing: seq<string>, pos: int)
    requires Indexed(folders, known) && Clean(path) && DIVIDER !in lead
    requires Cutting(folders, lead, path, k, remaining, missing) && remaining != "" && remaining !in known
    requires -1 <= pos < |remaining| && DIVIDER !in remaining[pos + 1..] && (pos >= 0 ==> remaining[pos] == DIVIDER)
    ensures pos >= 0 <==> k > 0
    ensures pos >= 0 ==> remaining[pos + 1..] == path[k - 1]
    ensures pos >= 0 ==> Cutting(folders, lead, path, k - 1, remaining[..pos], missing + [remaining[pos + 1..]])
    ensures pos < 0 ==> lead != ""
  {
    CutUnknown(folders, known, lead, path, k, remaining, missing);
    if k > 0 {
      SearchOn(lead, path, k, remaining, missing, pos);
    } else {
      assert path[..0] == [] && lead + "" == lead;
    }
  }

  /** The folders, the path names by which they are known, and the names put into the validator. */
  class FolderStore {
    var folders: seq<Folder>
    var known: map<string, Path>
    var names: set<string>

    ghost predicate Valid()
      reads this
    {
      Indexed(folders, known) && NamesIn(folders) <= names
    }

    /** The program starts with its two permanent folders. */
    constructor (inbox: string, trash: string)
      requires DIVIDER !in inbox && DIVIDER !in trash && inbox != trash
      ensures Valid() && folders == [Folder(inbox, []), Folder(trash, [])] && names == NamesIn(folders)
    {
      folders := [Folder(inbox, []), Folder(trash, [])];
      known := map[[DIVIDER] + inbox := [inbox], [DIVIDER] + trash := [trash]];
      names := {inbox, trash};
      new;
      SinglePath(inbox);
      SinglePath(trash);
      assert folders[1..] == [Folder(trash, [])] && folders[1..][1..] == [];
      forall path: Path | path != [] && Clean(path) ensures Knows(folders, known, path) {
        StartHas(inbox, trash, path);
        if Print(path) == [DIVIDER] + inbox { PrintUnique(path, [inbox]); }
        if Print(path) == [DIVIDER] + trash { PrintUnique(path, [trash]); }
      }
    }

    /** Put a new folder last in the folder of the given path. */
    method CreateRow(path: Path, name: string)
      requires Valid() && Has(folders, path) && !Has(folders, path + [name]) && Clean(path + [name]) && name in names
      modifies this`folders, this`known
      ensures Valid() && folders == Insert(old(folders), path + [name])
    {
      AppendInserts(folders, path, name);
      InsertNames(folders, path + [name]);
      HasNames(folders, path);
      ghost var was := folders;
      folders := AppendChild(folders, path, name);
      known := known[Print(path + [name]) := path + [name]];
      PrintSnoc(path, name);
      PrintStart(path + [name]);
      forall p: Path | p != [] && Clean(p) ensures Knows(folders, known, p) {
        assert old(Knows(folders, known, p));
        HasAppended(was, path, name, p);
        if Print(p) == Print(path + [name]) { PrintUnique(p, path + [name]); }
      }
    }

    /** Put the last name of what remains of a line into the validator, and cut it off. */
    method CutOne(remaining0: string, missing0: seq<string>, ghost lead: string, ghost path: Path, ghost k: nat)
      returns (ok: bool, remaining: string, missing: seq<string>)
      requires Indexed(folders, known) && Clean(path) && DIVIDER !in lead
      requires Cutting(folders, lead, path, k, remaining0, missing0) && remaining0 != "" && remaining0 !in known
      modifies this`names
      ensures ok == (k > 0)
      ensures ok ==> |remaining| < |remaining0| && Cutting(folders, lead, path, k - 1, remaining, missing)
      ensures ok ==> names == old(names) + {path[k - 1]}
      ensures !ok ==> lead != "" && remaining == "" && missing == [] && names == old(names)
    {
      var pos := RFind(remaining0);
      CutNext(folders, known, lead, path, k, remaining0, missing0, pos);
      ok := pos >= 0;
      if ok {
        missing := missing0 + [remaining0[pos + 1..]];
        names := names + {remaining0[pos + 1..]};
        remaining := remaining0[..pos];
      } else {
        remaining, missing := "", [];
      }
    }

    /** The part of a path name that is known, and the names after it, last one first. Nothing
        is known of a line with a text in front. */
    method KnownPart(line: string, ghost lead: string, ghost path: Path)
      returns (ok: bool, remaining: string, missing: seq<string>, ghost k: nat)
      requires Valid() && Clean(path) && DIVIDER !in lead && line == lead + Print(path)
      modifies this`names
      ensures Valid() && ok == (lead == "" && path != [])
      ensures k <= |path| && names == old(names) + Names(path[k..]) && (!ok ==> k == 0)
      ensures ok ==> Cutting(folders, "", path, k, remaining, missing) && Has(folders, path[..k])
      ensures ok ==> remaining == "" || remaining in known
    {
      ok, remaining, missing := line != "", line, [];
      k := |path|;
      assert path[..|path|] == path && path[|path|..] == [];
      while remaining != "" && remaining !in known
        invariant Valid() && k <= |path| && names == old(names) + Names(path[k..])
        invariant ok ==> Cutting(folders, lead, path, k, remaining, missing) && (lead != "" || path != [])
        invariant !ok ==> remaining == "" && k == 0 && (lead != "" || path == [])
        decreases |remaining|
      {
        if k > 0 { NamesLater(path, k); }
        ok, remaining, missing := CutOne(remaining, missing, lead, path, k);
        if ok { k := k - 1; }
      }
      if ok { CutUnknown(folders, known, lead, path, k, remaining, missing); }
    }

    /** Add the folders of a path name that are not there yet, and put their names into the
        validator. A line with a text in front adds names and no folders. */
    method GetFolders(line: string) returns (ok: bool)
      requires Valid()
      modifies this
      ensures Valid() && ok == (line != "" && line[0] == DIVIDER)
      ensures forall lead: string, path: Path | DIVIDER !in lead && Clean(path) && lead + Print(path) == line ::
                Added(lead, path, ok, old(folders), old(names))
    {
      ghost var lead, path := EveryLine(line);
      var remaining, missing;
      ghost var k;
      ok, remaining, missing, k := KnownPart(line, lead, path);
      NamesSplit(path, k);
      if ok {
        HasNames(folders, path[..k]);
        AddMissing(remaining, missing, path, k);
      }
      LineStart(lead, path);
      forall lead': string, path': Path | DIVIDER !in lead' && Clean(path') && lead' + Print(path') == line
        ensures lead' == lead && path' == path
      {
        LineUnique(lead', path', lead, path);
      }
    }

    /** What reading a line has added to the folders and to the names. */
    ghost predicate Added(lead: string, path: Path, ok: bool, was: seq<Folder>, before: set<string>)
      reads this
    {
      ok == (lead == "" && path != []) && folders == (if ok then Insert(was, path) else was)
          && names == before + Names(path)
    }

    /** The first k folders of a path are there, and the next one is not. */
    ghost predicate Adding(was: seq<Folder>, path: Path, k: nat, at: Path)
      reads this
    {
      && Valid() && Clean(path) && k <= |path| && at == path[..k] && Names(path) <= names
      && folders == Insert(was, at) && Has(folders, at)
      && (k < |path| ==> !Has(folders, path[..k + 1]))
    }

    method AddNext(ghost was: seq<Folder>, ghost path: Path, ghost k: nat, at: Path, name: string)
      requires Adding(was, path, k, at) && k < |path| && name == path[k]
      modifies this`folders, this`known
      ensures Adding(was, path, k + 1, at + [name])
    {
      TakeNext(path, k);
      MissingAdded(was, folders, at, name);
      if k + 1 < |path| { NextMissing(folders, at, name, path[k + 1]); }
      assert name in Names(path);
      CreateRow(at, name);
    }

    /** Where the known part of a path is. */
    method RowOf(remaining: string, ghost path: Path, ghost k: nat) returns (at: Path)
      requires Valid() && Clean(path) && k <= |path| && remaining == Print(path[..k])
      requires remaining == "" || remaining in known
      ensures at == path[..k]
    {
      CleanPrefix(path, k);
      if k > 0 { PrintStart(path[..k]); assert Knows(folders, known, path[..k]); }
      at := if remaining == "" then [] else known[remaining];
    }

    /** Add the missing folders, first one first. */
    method AddMissing(remaining: string, missing: seq<string>, ghost path: Path, ghost k0: nat)
      requires Valid() && Clean(path) && Cutting(folders, "", path, k0, remaining, missing) && Names(path) <= names
      requires Has(folders, path[..k0]) && (remaining == "" || remaining in known)
      modifies this`folders, this`known
      ensures Valid() && folders == Insert(old(folders), path)
    {
      ghost var was, k := folders, k0;
      assert "" + Print(path[..k0]) == Print(path[..k0]);
      var at := RowOf(remaining, path, k0);
      AddingStarts(path, k0);
      var i := |missing|;
      while i > 0
        invariant 0 <= i <= |missing| && k == |path| - i && Adding(was, path, k, at)
      {
        i := i - 1;
        AddNext(was, path, k, at, missing[i]);
        at, k := at + [missing[i]], k + 1;
      }
      AddingEnds(was, path, at);
    }

    lemma {:induction false} AddingStarts(path: Path, k: nat)
      requires Valid() && Clean(path) && k <= |path| && Names(path) <= names
      requires Has(folders, path[..k]) && (k < |path| ==> !Has(folders, path[..k + 1]))
      ensures Adding(folders, path, k, path[..k])
    {
      InsertKnown(folders, path[..k]);
    }

    lemma {:induction false} AddingEnds(was: seq<Folder>, path: Path, at: Path)
      requires Adding(was, path, |path|, at)
      ensures Valid() && folders == Insert(was, path)
    {
      WholePath(path);
    }

    /** Read a list of lines. The folders are those of the path names among them; the validator
        also gets the names on the other lines. */
    method ReadPathList(lines: seq<string>, ghost leads: seq<string>, ghost paths: seq<Path>)
      requires Valid() && |leads| == |paths| == |lines|
      requires forall i | 0 <= i < |lines| ::
                 DIVIDER !in leads[i] && Clean(paths[i]) && leads[i] + Print(paths[i]) == lines[i]
      modifies this
      ensures Valid() && folders == InsertAll(old(folders), Proper(leads, paths))
          && names == old(names) + AllNames(paths)
    {
      for i := 0 to |lines|
        invariant Valid() && folders == InsertAll(old(folders), Proper(leads[..i], paths[..i]))
        invariant names == old(names) + AllNames(paths[..i])
      {
        var ok := GetFolders(lines[i]);
        assert Added(leads[i], paths[i], ok, InsertAll(old(folders), Proper(leads[..i], paths[..i])),
                     old(names) + AllNames(paths[..i]));
        ProperNext(old(folders), leads, paths, i);
      }
      assert leads[..|lines|] == leads && paths[..|lines|] == paths;
    }
  }

  /** The paths that stand alone on their lines. */
  function Proper(leads: seq<string>, paths: seq<Path>): seq<Path>
    requires |leads| == |paths|
  {
    if paths == [] then []
    else
      var n := |paths| - 1;
      Proper(leads[..n], paths[..n]) + (if leads[n] == "" && paths[n] != [] then [paths[n]] else [])
  }

  function AllNames(paths: seq<Path>): set<string>
  {
    if paths == [] then {} else AllNames(paths[..|paths| - 1]) + Names(paths[|paths| - 1])
  }

  lemma {:induction false} ProperNext(fs: seq<Folder>, leads: seq<string>, paths: seq<Path>, i: nat)
    requires |leads| == |paths| && i < |paths|
    ensures InsertAll(fs, Proper(leads[..i + 1], paths[..i + 1]))
         == var was := InsertAll(fs, Proper(leads[..i], paths[..i]));
            if leads[i] == "" && paths[i] != [] then Insert(was, paths[i]) else was
    ensures AllNames(paths[..i + 1]) == AllNames(paths[..i]) + Names(paths[i])
  {
    var proper := Proper(leads[..i], paths[..i]);
    assert leads[..i + 1][..i] == leads[..i] && paths[..i + 1][..i] == paths[..i];
    if leads[i] == "" && paths[i] != [] {
      InsertAllConcat(fs, proper, [paths[i]]);
      InsertOne(InsertAll(fs, proper), paths[i]);
    } else {
      assert proper + [] == proper;
    }
  }

  /** The folders added by a list of paths have its names. */
  lemma {:induction false} InsertAllNames(fs: seq<Folder>, paths: seq<Path>)
    ensures NamesIn(InsertAll(fs, paths)) == NamesIn(fs) + AllNames(paths)
    decreases |paths|
  {
    if paths != [] {
      var n := |paths| - 1;
      assert paths == paths[..n] + [paths[n]];
      InsertAllConcat(fs, paths[..n], [paths[n]]);
      InsertOne(InsertAll(fs, paths[..n]), paths[n]);
      InsertAllNames(fs, paths[..n]);
      InsertNames(InsertAll(fs, paths[..n]), paths[n]);
    }
  }

  lemma {:induction false} AllProper(leads: seq<string>, paths: seq<Path>)
    requires |leads| == |paths| && forall i | 0 <= i < |paths| :: leads[i] == "" && paths[i] != []
    ensures Proper(leads, paths) == paths
  {
    if paths != [] {
      var n := |paths| - 1;
      AllProper(leads[..n], paths[..n]);
      assert paths == paths[..n] + [paths[n]];
    }
  }

  /** Names that can be path components. */
  predicate CleanNames(fs: seq<Folder>)
  {
    fs == [] || (DIVIDER !in fs[0].name && CleanNames(fs[0].kids) && CleanNames(fs[1..]))
  }

  lemma {:induction false} PreorderClean(fs: seq<Folder>, i: nat)
    requires CleanNames(fs) && i < |Preorder(fs)|
    ensures Preorder(fs)[i] != [] && Clean(Preorder(fs)[i])
    decreases fs
  {
    var inside := Preorder(fs[0].kids);
    if 0 < i <= |inside| {
      PreorderClean(fs[0].kids, i - 1);
    } else if i > |inside| {
      PreorderClean(fs[1..], i - 1 - |inside|);
    }
  }

  /** The lines written are the path names of the folders. */
  lemma {:induction false} LinesArePaths(fs: seq<Folder>, lines: seq<string>)
    requires CleanNames(fs) && lines == PrintAll([], Preorder(fs))
    ensures |lines| == |Preorder(fs)|
    ensures forall i | 0 <= i < |lines| ::
              Preorder(fs)[i] != [] && Clean(Preorder(fs)[i]) && Print(Preorder(fs)[i]) == lines[i]
  {
    forall i | 0 <= i < |lines|
      ensures Preorder(fs)[i] != [] && Clean(Preorder(fs)[i]) && Print(Preorder(fs)[i]) == lines[i]
    {
      PreorderClean(fs, i);
      assert [] + Preorder(fs)[i] == Preorder(fs)[i];
    }
  }

  lemma {:induction false} ProperNames(leads: seq<string>, paths: seq<Path>, i: nat)
    requires |leads| == |paths| && i < |paths|
    ensures Names(paths[i]) <= AllNames(paths)
    ensures leads[i] == "" ==> Names(paths[i]) <= AllNames(Proper(leads, paths))
  {
    var n := |paths| - 1;
    var proper := Proper(leads[..n], paths[..n]);
    if i < n { ProperNames(leads[..n], paths[..n], i); }
    assert (proper + [paths[n]])[..|proper|] == proper && proper + [] == proper;
  }

  /** All names are among some, if those of each path are. */
  lemma {:induction false} AllNamesIn(paths: seq<Path>, names: set<string>)
    requires forall i | 0 <= i < |paths| :: Names(paths[i]) <= names
    ensures AllNames(paths) <= names
  {
    if paths != [] {
      var n := |paths| - 1;
      forall i | 0 <= i < n ensures Names(paths[..n][i]) <= names {
        assert paths[..n][i] == paths[i];
      }
      AllNamesIn(paths[..n], names);
    }
  }

  /** After a list of lines is read the validator holds exactly the folders' names if and only
      if each name on a line that is no path name is that of some folder. */
  lemma {:induction false} ValidatorExact(fs: seq<Folder>, leads: seq<string>, paths: seq<Path>)
    requires |leads| == |paths|
    ensures var after := InsertAll(fs, Proper(leads, paths));
      NamesIn(fs) + AllNames(paths) == NamesIn(after)
      <==> forall i | 0 <= i < |paths| && leads[i] != "" :: Names(paths[i]) <= NamesIn(after)
  {
    var after := InsertAll(fs, Proper(leads, paths));
    InsertAllNames(fs, Proper(leads, paths));
    forall i | 0 <= i < |paths|
      ensures Names(paths[i]) <= AllNames(paths) && (leads[i] == "" ==> Names(paths[i]) <= NamesIn(after))
    {
      ProperNames(leads, paths, i);
    }
    ProperFew(leads, paths);
    if forall i | 0 <= i < |paths| && leads[i] != "" :: Names(paths[i]) <= NamesIn(after) {
      AllNamesIn(paths, NamesIn(after));
    }
  }

  lemma {:induction false} ProperFew(leads: seq<string>, paths: seq<Path>)
    requires |leads| == |paths|
    ensures AllNames(Proper(leads, paths)) <= AllNames(paths)
  {
    if paths != [] {
      var n := |paths| - 1;
      ProperFew(leads[..n], paths[..n]);
      var proper := Proper(leads[..n], paths[..n]);
      assert (proper + [paths[n]])[..|proper|] == proper && proper + [] == proper;
    }
  }

  /** Write the list of path names, start again, and read it: the folders are those that were
      there, in their order, the permanent ones first, and the validator holds their names. */
  method WriteAndRestart(fs: seq<Folder>, inbox: string, trash: string) returns (store: FolderStore)
    requires Distinct(fs) && CleanNames(fs) && inbox != trash && DIVIDER !in inbox && DIVIDER !in trash
    ensures fresh(store) && store.Valid() && store.names == NamesIn(store.folders)
    ensures store.folders
         == [Folder(inbox, KidsOf(fs, inbox)), Folder(trash, KidsOf(fs, trash))] + Others(fs, inbox, trash)
  {
    var lines := WritePathsForLevel(fs, []);
    store := new FolderStore(inbox, trash);
    ReadWritten(store, lines, fs);
    Restart(inbox, trash, fs);
  }

  /** No text stands in front of the path names written. */
  lemma {:induction false} WrittenProper(lines: seq<string>, fs: seq<Folder>) returns (leads: seq<string>)
    requires CleanNames(fs) && lines == PrintAll([], Preorder(fs))
    ensures |leads| == |lines| == |Preorder(fs)| && Proper(leads, Preorder(fs)) == Preorder(fs)
    ensures forall i | 0 <= i < |lines| ::
              DIVIDER !in leads[i] && Clean(Preorder(fs)[i]) && leads[i] + Print(Preorder(fs)[i]) == lines[i]
  {
    leads := seq(|lines|, _ => "");
    LinesArePaths(fs, lines);
    AllProper(leads, Preorder(fs));
    forall i | 0 <= i < |lines| ensures leads[i] + Print(Preorder(fs)[i]) == lines[i] {
      assert "" + lines[i] == lines[i];
    }
  }

  /** Read a list that was written before. */
  method ReadWritten(store: FolderStore, lines: seq<string>, ghost fs: seq<Folder>)
    requires store.Valid() && store.names == NamesIn(store.folders) && CleanNames(fs)
        && lines == PrintAll([], Preorder(fs))
    modifies store
    ensures store.Valid() && store.folders == InsertAll(old(store.folders), Preorder(fs))
    ensures store.names == NamesIn(store.folders)
  {
    ghost var leads := WrittenProper(lines, fs);
    InsertAllNames(store.folders, Preorder(fs));
    store.ReadPathList(lines, leads, Preorder(fs));
  }
}
