/**
 The files of the multi-node testnet: every node's gentx is copied into every other node's
 directory, and all nodes end with the same genesis.
*/
module Gentx {
  import opened Base
  import opened Text
  import opened Paths

  /** Where things are: the output directory, the node directory prefix, and the node ids. */
  datatype Layout = Layout(out: Path, prefix: string, ids: seq<string>)

  /** A clean output directory, names without slashes, and an id of its own for every node. */
  ghost predicate Valid(l: Layout) {
    && Clean(l.out) && '/' !in l.prefix && NoDup(l.ids)
    && forall i :: 0 <= i < |l.ids| ==> '/' !in l.ids[i]
  }

  function NodeDir(l: Layout, i: nat): Path { l.out + [l.prefix + Decimal(i)] }
  function GentxDir(l: Layout, i: nat): Path { NodeDir(l, i) + ["config", "gentx"] }
  function GentxName(id: string): string { "gentx-" + id + ".json" }

  /** Node j's gentx file in node i's directory. */
  function Target(l: Layout, i: nat, j: nat): Path
    requires j < |l.ids|
  {
    GentxDir(l, i) + [GentxName(l.ids[j])]
  }

  function GenesisFile(l: Layout, i: nat): Path { NodeDir(l, i) + ["config", "genesis.json"] }

  /** Where two nodes with the default prefix have node 1's gentx and their genesis files. */
  lemma TwoNodeLayout()
    ensures var l := Layout(["testnets"], "validator", ["x", "y"]);
      && Target(l, 0, 1) == ["testnets", "validator0", "config", "gentx", "gentx-y.json"]
      && Target(l, 1, 1) == ["testnets", "validator1", "config", "gentx", "gentx-y.json"]
      && GenesisFile(l, 0) == ["testnets", "validator0", "config", "genesis.json"]
      && GenesisFile(l, 1) == ["testnets", "validator1", "config", "genesis.json"]
  {
    assert Decimal(0) == "0" && Decimal(1) == "1";
    assert "validator" + "0" == "validator0" && "validator" + "1" == "validator1";
    assert GentxName("y") == "gentx-y.json";
  }

  // ----- the names keep the files apart -----

  lemma DecimalInjective(i: nat, j: nat)
    requires Decimal(i) == Decimal(j)
    ensures i == j
  {
    ValueDecimal(i);
    ValueDecimal(j);
  }

  lemma ConcatCancels(p: string, a: string, b: string)
    requires p + a == p + b
    ensures a == b
  {
    assert (p + a)[|p|..] == a && (p + b)[|p|..] == b;
  }

  lemma NodeNamesDiffer(l: Layout, i: nat, j: nat)
    requires i != j
    ensures l.prefix + Decimal(i) != l.prefix + Decimal(j)
  {
    if l.prefix + Decimal(i) == l.prefix + Decimal(j) {
      ConcatCancels(l.prefix, Decimal(i), Decimal(j));
      DecimalInjective(i, j);
      assert false;
    }
  }

  lemma GentxNameInjective(a: string, b: string)
    ensures GentxName(a) == GentxName(b) ==> a == b
  {
    assert GentxName(a)[6..|GentxName(a)| - 5] == a;
    assert GentxName(b)[6..|GentxName(b)| - 5] == b;
  }

  lemma TargetsDiffer(l: Layout, i: nat, j: nat, a: nat, b: nat)
    requires Valid(l) && j < |l.ids| && b < |l.ids| && (i, j) != (a, b)
    ensures Target(l, i, j) != Target(l, a, b)
  {
    if i != a {
      NodeNamesDiffer(l, i, a);
      assert Target(l, i, j)[|l.out|] == l.prefix + Decimal(i);
      assert Target(l, a, b)[|l.out|] == l.prefix + Decimal(a);
    } else {
      GentxNameInjective(l.ids[j], l.ids[b]);
      assert Target(l, i, j)[|l.out| + 3] == GentxName(l.ids[j]);
      assert Target(l, a, b)[|l.out| + 3] == GentxName(l.ids[b]);
    }
  }

  lemma NodeNameClean(l: Layout, i: nat)
    requires Valid(l)
    ensures CleanName(l.prefix + Decimal(i))
  {
    var name := l.prefix + Decimal(i);
    assert IsDigit(name[|name| - 1]);
  }

  lemma TargetClean(l: Layout, i: nat, j: nat)
    requires Valid(l) && j < |l.ids|
    ensures Clean(Target(l, i, j)) && Clean(GentxDir(l, i))
  {
    NodeNameClean(l, i);
    assert GentxName(l.ids[j])[0] == 'g';
    assert Target(l, i, j) == GentxDir(l, i) + [GentxName(l.ids[j])];
  }

  /**
   A node's own gentx is inside its own directory and no other, "validator1" and "validator10"
   included.
  */
  lemma InsideOwnDirOnly(l: Layout, i: nat, j: nat)
    requires Valid(l) && i < |l.ids|
    ensures IsSubDir(Target(l, i, i), GentxDir(l, j)) <==> i == j
  {
    TargetClean(l, i, i);
    GentxDirClean(l, j);
    IsSubDirIff(Target(l, i, i), GentxDir(l, j));
    if i == j {
      assert Target(l, i, i)[|GentxDir(l, i)|] == GentxName(l.ids[i]);
      assert GentxName(l.ids[i])[0] == 'g';
    } else {
      NodeNamesDiffer(l, i, j);
      assert GentxDir(l, j)[|l.out|] == l.prefix + Decimal(j);
      assert Target(l, i, i)[|l.out|] == l.prefix + Decimal(i);
    }
  }

  lemma GentxDirClean(l: Layout, j: nat)
    requires Valid(l)
    ensures Clean(GentxDir(l, j))
  {
    NodeNameClean(l, j);
  }

  // ----- the file system -----

  function Ancestors(p: Path): set<Path> { set i | 0 <= i <= |p| :: p[..i] }

  class FileSystem {
    var files: map<Path, string>
    var dirs: set<Path>

    method MkdirAll(dir: Path)
      modifies this`dirs
      ensures dirs == old(dirs) + Ancestors(dir)
    {
      dirs := dirs + Ancestors(dir);
    }

    method WriteFile(file: Path, dir: Path, contents: string) returns (ok: bool)
      requires file != []
      modifies this
      ensures dirs == old(dirs) + Ancestors(dir)
      ensures ok <==> file[..|file| - 1] in dirs
      ensures files == if ok then old(files)[file := contents] else old(files)
    {
      MkdirAll(dir);
      ok := file[..|file| - 1] in dirs;
      if ok {
        files := files[file := contents];
      }
    }

    /**
     Creating the destination empties it before the source is read: a file copied onto itself
     would be lost.
    */
    method CopyFile(src: Path, dstDir: Path) returns (ok: bool)
      requires src != []
      modifies this`files
      ensures ok <==> src in old(files) && dstDir in dirs
      ensures !ok ==> files == old(files)
      ensures ok ==> files == CopiedInto(old(files), src, dstDir + [src[|src| - 1]])
    {
      var dst := dstDir + [src[|src| - 1]];
      if src !in files || dstDir !in dirs {
        return false;
      }
      files := files[dst := ""];
      files := files[dst := files[src]];
      ok := true;
    }
  }

  function CopiedInto(files: map<Path, string>, src: Path, dst: Path): map<Path, string>
    requires src in files
  {
    files[dst := if src == dst then "" else files[src]]
  }

  /** The copy has the source's contents; a file copied onto itself is left empty, and so lost unless it was. */
  lemma CopyHolds(files: map<Path, string>, src: Path, dst: Path)
    requires src in files
    ensures var g := CopiedInto(files, src, dst);
      && g.Keys == files.Keys + {dst}
      && g[dst] == (if src == dst then "" else files[src])
      && (forall p :: p in files && p != dst ==> g[p] == files[p])
      && (g[src] == files[src] <==> src != dst || files[src] == "")
  {
  }

  // ----- spreading -----

  /** Pairs (i, j) handled once the loops are at node a, file b. */
  predicate Done(i: int, j: int, a: int, b: int) { i < a || (i == a && j < b) }

  ghost predicate IsTarget(l: Layout, p: Path) {
    exists i: nat, j: nat :: i < |l.ids| && j < |l.ids| && p == Target(l, i, j)
  }

  /** The files when the loops are at node a, file b: targets reached are in place, originals kept. */
  ghost predicate Spread(l: Layout, f: map<Path, string>, g: map<Path, string>, a: int, b: int)
    requires forall j: nat :: j < |l.ids| ==> Target(l, j, j) in f
  {
    && (forall i: nat, j: nat :: i < |l.ids| && j < |l.ids| && (i == j || Done(i, j, a, b)) ==>
          Target(l, i, j) in g && g[Target(l, i, j)] == f[Target(l, j, j)])
    && (forall p :: !IsTarget(l, p) ==> (p in g <==> p in f) && (p in f ==> g[p] == f[p]))
  }

  ghost predicate Written(l: Layout, fs: FileSystem)
    reads fs
  {
    forall j: nat :: j < |l.ids| ==> Target(l, j, j) in fs.files && GentxDir(l, j) in fs.dirs
  }

  lemma CopyStepAt(l: Layout, f: map<Path, string>, g: map<Path, string>, a: nat, b: nat, i: nat, j: nat)
    requires Valid(l) && a < |l.ids| && b < |l.ids| && a != b && i < |l.ids| && j < |l.ids|
    requires Target(l, j, j) in f && Target(l, b, b) in f
    requires Target(l, b, b) in g && g[Target(l, b, b)] == f[Target(l, b, b)]
    requires (i, j) != (a, b) ==> Target(l, i, j) in g && g[Target(l, i, j)] == f[Target(l, j, j)]
    ensures var h := CopiedInto(g, Target(l, b, b), Target(l, a, b));
      Target(l, i, j) in h && h[Target(l, i, j)] == f[Target(l, j, j)]
  {
    TargetsDiffer(l, b, b, a, b);
    if (i, j) != (a, b) {
      TargetsDiffer(l, i, j, a, b);
    }
  }

  lemma CopyStep(l: Layout, f: map<Path, string>, g: map<Path, string>, a: nat, b: nat)
    requires Valid(l) && a < |l.ids| && b < |l.ids| && a != b
    requires forall j: nat :: j < |l.ids| ==> Target(l, j, j) in f
    requires Spread(l, f, g, a, b)
    ensures Spread(l, f, CopiedInto(g, Target(l, b, b), Target(l, a, b)), a, b + 1)
  {
    hide Target, Valid;
    var h := CopiedInto(g, Target(l, b, b), Target(l, a, b));
    forall i: nat, j: nat | i < |l.ids| && j < |l.ids| && (i == j || Done(i, j, a, b + 1))
      ensures Target(l, i, j) in h && h[Target(l, i, j)] == f[Target(l, j, j)]
    {
      CopyStepAt(l, f, g, a, b, i, j);
    }
  }

  /** Copies every gentx into every other node's gentx directory. */
  method SpreadGentxs(fs: FileSystem, l: Layout, gentxsFiles: seq<Path>) returns (ok: bool)
    requires Valid(l) && Written(l, fs)
    requires |gentxsFiles| == |l.ids| && forall j: nat :: j < |l.ids| ==> gentxsFiles[j] == Target(l, j, j)
    modifies fs`files
    ensures ok
    ensures Spread(l, old(fs.files), fs.files, |l.ids|, 0)
  {
    var n := |l.ids|;
    for i := 0 to n
      invariant Spread(l, old(fs.files), fs.files, i, 0)
    {
      for b := 0 to n
        invariant Spread(l, old(fs.files), fs.files, i, b)
      {
        var file, gentxsDir := gentxsFiles[b], GentxDir(l, i);
        InsideOwnDirOnly(l, b, i);
        if !IsSubDir(file, gentxsDir) {
          CopyStep(l, old(fs.files), fs.files, i, b);
          ok := fs.CopyFile(file, gentxsDir);
          if !ok {
            return;
          }
        }
      }
    }
    ok := true;
  }

  // ----- what each node sees -----

  /** The files of a directory, by name. */
  ghost function Contents(files: map<Path, string>, dir: Path): map<string, string> {
    var names := set p | p in files && p != [] && p[..|p| - 1] == dir :: p[|p| - 1];
    map name | name in names && dir + [name] in files :: files[dir + [name]]
  }

  lemma ContentsHas(files: map<Path, string>, dir: Path, name: string)
    ensures name in Contents(files, dir) <==> dir + [name] in files
    ensures dir + [name] in files ==> Contents(files, dir)[name] == files[dir + [name]]
  {
    var p := dir + [name];
    assert p[..|p| - 1] == dir && p[|p| - 1] == name;
  }

  /** Gentx files by name. */
  ghost function ByName(ids: seq<string>, txs: seq<string>): map<string, string>
    requires |txs| == |ids|
  {
    if ids == [] then map[]
    else ByName(ids[..|ids| - 1], txs[..|ids| - 1])[GentxName(ids[|ids| - 1]) := txs[|ids| - 1]]
  }

  ghost function AllGentxs(l: Layout, txs: seq<string>): map<string, string>
    requires |txs| == |l.ids|
  {
    ByName(l.ids, txs)
  }

  lemma {:induction false} ByNameHas(ids: seq<string>, txs: seq<string>, name: string)
    requires NoDup(ids) && |txs| == |ids|
    ensures name in ByName(ids, txs) ==> exists j :: 0 <= j < |ids| && GentxName(ids[j]) == name
    ensures forall j :: 0 <= j < |ids| && GentxName(ids[j]) == name ==>
      name in ByName(ids, txs) && ByName(ids, txs)[name] == txs[j]
  {
    if ids != [] {
      var n := |ids| - 1;
      ByNameHas(ids[..n], txs[..n], name);
      if GentxName(ids[n]) == name {
        forall j | 0 <= j < n ensures GentxName(ids[j]) != name {
          GentxNameInjective(ids[j], ids[n]);
        }
      } else if name in ByName(ids, txs) {
        var j :| 0 <= j < n && GentxName(ids[..n][j]) == name;
        assert GentxName(ids[j]) == name;
      }
    }
  }

  lemma AllGentxsHas(l: Layout, txs: seq<string>, j: nat)
    requires Valid(l) && |txs| == |l.ids| && j < |l.ids|
    ensures GentxName(l.ids[j]) in AllGentxs(l, txs) && AllGentxs(l, txs)[GentxName(l.ids[j])] == txs[j]
  {
    ByNameHas(l.ids, txs, GentxName(l.ids[j]));
  }

  /** The gentx files as they were written, one by each node. */
  ghost function Originals(l: Layout, f: map<Path, string>): (txs: seq<string>)
    requires forall j: nat :: j < |l.ids| ==> Target(l, j, j) in f
    ensures |txs| == |l.ids|
  {
    seq(|l.ids|, j requires 0 <= j < |l.ids| => f[Target(l, j, j)])
  }

  /**
   After spreading, a node's gentx directory holds all n gentx files as first written, over
   whatever else it held before.
  */
  lemma DirectoryAfterSpread(l: Layout, f: map<Path, string>, g: map<Path, string>, i: nat)
    requires Valid(l) && i < |l.ids|
    requires forall j: nat :: j < |l.ids| ==> Target(l, j, j) in f
    requires Spread(l, f, g, |l.ids|, 0)
    ensures Contents(g, GentxDir(l, i)) == Contents(f, GentxDir(l, i)) + AllGentxs(l, Originals(l, f))
  {
    hide Spread, Valid, Contents, AllGentxs, Originals;
    var left := Contents(g, GentxDir(l, i));
    var right := Contents(f, GentxDir(l, i)) + AllGentxs(l, Originals(l, f));
    forall name: string
      ensures name in left <==> name in right
      ensures name in left ==> left[name] == right[name]
    {
      NameAfterSpread(l, f, g, i, name);
    }
  }

  lemma NameAfterSpread(l: Layout, f: map<Path, string>, g: map<Path, string>, i: nat, name: string)
    requires Valid(l) && i < |l.ids|
    requires forall j: nat :: j < |l.ids| ==> Target(l, j, j) in f
    requires Spread(l, f, g, |l.ids|, 0)
    ensures var dir, all := GentxDir(l, i), AllGentxs(l, Originals(l, f));
      && (name in Contents(g, dir) <==> name in Contents(f, dir) || name in all)
      && (name in Contents(g, dir) ==>
            Contents(g, dir)[name] == if name in all then all[name] else Contents(f, dir)[name])
  {
    var dir, all := GentxDir(l, i), AllGentxs(l, Originals(l, f));
    ContentsHas(f, dir, name);
    ContentsHas(g, dir, name);
    if name in all {
      ByNameHas(l.ids, Originals(l, f), name);
      var j :| 0 <= j < |l.ids| && GentxName(l.ids[j]) == name;
      AllGentxsHas(l, Originals(l, f), j);
      assert dir + [name] == Target(l, i, j);
    } else {
      NotATarget(l, i, name, Originals(l, f));
    }
  }

  lemma NotATarget(l: Layout, i: nat, name: string, txs: seq<string>)
    requires Valid(l) && |txs| == |l.ids| && name !in AllGentxs(l, txs)
    ensures !IsTarget(l, GentxDir(l, i) + [name])
  {
    var p := GentxDir(l, i) + [name];
    forall a: nat, j: nat | a < |l.ids| && j < |l.ids| ensures p != Target(l, a, j) {
      AllGentxsHas(l, txs, j);
      var t := Target(l, a, j);
      assert t[|t| - 1] == GentxName(l.ids[j]) && p[|p| - 1] == name;
    }
  }

  lemma OverlayAgree(a: map<string, string>, b: map<string, string>, s: map<string, string>)
    ensures a + s == b + s <==> a - s.Keys == b - s.Keys
  {
    if a + s == b + s {
      forall k | k !in s
        ensures k in a <==> k in b
        ensures k in a ==> a[k] == b[k]
      {
        assert k in a + s <==> k in b + s;
        assert k in a ==> (a + s)[k] == (b + s)[k];
      }
    }
    if a - s.Keys == b - s.Keys {
      forall k
        ensures k in a + s <==> k in b + s
        ensures k in a + s ==> (a + s)[k] == (b + s)[k]
      {
        if k !in s {
          assert k in a - s.Keys <==> k in b - s.Keys;
          assert k in a ==> (a - s.Keys)[k] == (b - s.Keys)[k];
        }
      }
    }
  }

  // ----- collecting -----

  /** How a node's genesis file and gentx directory give its app state; None where that fails. */
  type Collector = (string, map<string, string>) -> Option<string>

  /** Where a node computes its app state from. */
  ghost function NodeState(gen: Collector, l: Layout, files: map<Path, string>, i: nat): Option<string> {
    if GenesisFile(l, i) in files then gen(files[GenesisFile(l, i)], Contents(files, GentxDir(l, i))) else None
  }

  lemma GenesisFilesDiffer(l: Layout, i: nat, j: nat)
    requires i != j
    ensures GenesisFile(l, i) != GenesisFile(l, j)
  {
    NodeNamesDiffer(l, i, j);
    assert GenesisFile(l, i)[|l.out|] == l.prefix + Decimal(i);
    assert GenesisFile(l, j)[|l.out|] == l.prefix + Decimal(j);
  }

  lemma GenesisNotInGentxDir(l: Layout, i: nat, j: nat, name: string)
    ensures GentxDir(l, j) + [name] != GenesisFile(l, i)
  {
    assert |GenesisFile(l, i)| == |l.out| + 3 && |GentxDir(l, j) + [name]| == |l.out| + 4;
  }

  lemma GenesisNotTarget(l: Layout, i: nat)
    ensures !IsTarget(l, GenesisFile(l, i))
  {
    forall a: nat, b: nat | a < |l.ids| && b < |l.ids| ensures GenesisFile(l, i) != Target(l, a, b) {
      GenesisNotInGentxDir(l, i, a, GentxName(l.ids[b]));
    }
  }

  lemma ContentsSame(f: map<Path, string>, g: map<Path, string>, dir: Path)
    requires forall name: string :: dir + [name] in f <==> dir + [name] in g
    requires forall name: string :: dir + [name] in f ==> f[dir + [name]] == g[dir + [name]]
    ensures Contents(f, dir) == Contents(g, dir)
  {
    forall name: string
      ensures name in Contents(f, dir) <==> name in Contents(g, dir)
      ensures name in Contents(f, dir) ==> Contents(f, dir)[name] == Contents(g, dir)[name]
    {
      ContentsHas(f, dir, name);
      ContentsHas(g, dir, name);
    }
  }

  /** Writing one node's genesis file does not change what another node computes. */
  lemma OtherNodeState(gen: Collector, l: Layout, files: map<Path, string>, i: nat, j: nat, text: string)
    requires i != j
    ensures NodeState(gen, l, files[GenesisFile(l, i) := text], j) == NodeState(gen, l, files, j)
  {
    GenesisFilesDiffer(l, i, j);
    forall name: string ensures GentxDir(l, j) + [name] != GenesisFile(l, i) {
      GenesisNotInGentxDir(l, i, j, name);
    }
    ContentsSame(files, files[GenesisFile(l, i) := text], GentxDir(l, j));
  }

  /** The names in a directory and what they hold, read from the file system. */
  method ReadDir(fs: FileSystem, dir: Path) returns (contents: map<string, string>)
    ensures contents == Contents(fs.files, dir)
  {
    contents := map[];
    var paths := Base.Keys(fs.files);
    for i := 0 to |paths|
      invariant forall name :: name in contents <==> dir + [name] in paths[..i]
      invariant forall name :: name in contents ==> contents[name] == fs.files[dir + [name]]
    {
      var p := paths[i];
      assert paths[..i + 1] == paths[..i] + [p];
      if p != [] && p[..|p| - 1] == dir {
        assert p == dir + [p[|p| - 1]];
        contents := contents[p[|p| - 1] := fs.files[p]];
      }
    }
    assert paths[..|paths|] == paths;
    forall name ensures name in contents <==> name in Contents(fs.files, dir)
      ensures name in contents ==> contents[name] == Contents(fs.files, dir)[name]
    {
      ContentsHas(fs.files, dir, name);
    }
  }

  /**
   Computes every node's app state and writes every genesis file with the first one, which is
   taken to be the canonical state.
  */
  method CollectGenFiles(fs: FileSystem, l: Layout, gen: Collector, render: string -> string) returns (ok: bool)
    requires forall i: nat :: i < |l.ids| ==> GenesisFile(l, i) in fs.files
    modifies fs`files
    ensures fs.files.Keys == old(fs.files).Keys
    ensures ok <==> forall i: nat :: i < |l.ids| ==> NodeState(gen, l, old(fs.files), i).Some?
    ensures ok ==> forall i: nat :: i < |l.ids| ==>
      fs.files[GenesisFile(l, i)] == render(NodeState(gen, l, old(fs.files), 0).value)
  {
    var canonical: Option<string> := None;
    for i := 0 to |l.ids|
      invariant fs.files.Keys == old(fs.files).Keys
      invariant i == 0 ==> canonical.None?
      invariant i > 0 ==> canonical.Some? && canonical == NodeState(gen, l, old(fs.files), 0)
      invariant forall j: nat :: j < i ==> NodeState(gen, l, old(fs.files), j).Some?
      invariant forall j: nat :: j < i ==> fs.files[GenesisFile(l, j)] == render(canonical.value)
      invariant forall j: nat :: i <= j < |l.ids| ==>
        NodeState(gen, l, fs.files, j) == NodeState(gen, l, old(fs.files), j)
    {
      var gentxs := ReadDir(fs, GentxDir(l, i));
      var nodeAppState := gen(fs.files[GenesisFile(l, i)], gentxs);
      assert nodeAppState == NodeState(gen, l, old(fs.files), i);
      if nodeAppState.None? {
        return false;
      }
      if canonical.None? {
        canonical := nodeAppState;
      }
      forall j: nat | j != i
        ensures NodeState(gen, l, fs.files[GenesisFile(l, i) := render(canonical.value)], j) ==
                NodeState(gen, l, fs.files, j)
        ensures GenesisFile(l, j) != GenesisFile(l, i)
      {
        OtherNodeState(gen, l, fs.files, i, j, render(canonical.value));
        GenesisFilesDiffer(l, i, j);
      }
      fs.files := fs.files[GenesisFile(l, i) := render(canonical.value)];
    }
    ok := true;
  }

  // ----- the whole builder -----

  /** The nodes' gentx directories are empty or do not exist yet. */
  ghost predicate FreshOutput(l: Layout, files: map<Path, string>) {
    forall i: nat, name: string :: i < |l.ids| ==> GentxDir(l, i) + [name] !in files
  }

  /** The path of the own gentx of one of the first i nodes. */
  ghost predicate IsOwn(l: Layout, p: Path, i: nat) {
    exists j: nat :: j < i && j < |l.ids| && p == Target(l, j, j)
  }

  /** The files once the first i nodes have written their own gentx. */
  ghost predicate OwnWritten(l: Layout, f: map<Path, string>, g: map<Path, string>, txs: seq<string>, i: nat)
    requires |txs| == |l.ids|
  {
    && (forall j: nat :: j < i && j < |l.ids| ==> Target(l, j, j) in g && g[Target(l, j, j)] == txs[j])
    && (forall p :: !IsOwn(l, p, i) ==> (p in g <==> p in f) && (p in f ==> g[p] == f[p]))
  }

  lemma OwnGives(l: Layout, f: map<Path, string>, g: map<Path, string>, txs: seq<string>)
    requires |txs| == |l.ids| && OwnWritten(l, f, g, txs, |l.ids|)
    ensures forall j: nat :: j < |l.ids| ==> Target(l, j, j) in g
  {
  }

  lemma OwnNone(l: Layout, f: map<Path, string>, txs: seq<string>)
    requires |txs| == |l.ids|
    ensures OwnWritten(l, f, f, txs, 0)
  {
  }

  lemma OwnStep(l: Layout, f: map<Path, string>, g: map<Path, string>, txs: seq<string>, i: nat)
    requires Valid(l) && |txs| == |l.ids| && i < |l.ids| && OwnWritten(l, f, g, txs, i)
    ensures OwnWritten(l, f, g[Target(l, i, i) := txs[i]], txs, i + 1)
  {
    var h := g[Target(l, i, i) := txs[i]];
    forall j: nat | j < i ensures Target(l, j, j) != Target(l, i, i) {
      TargetsDiffer(l, j, j, i, i);
    }
    forall p | !IsOwn(l, p, i + 1)
      ensures (p in h <==> p in f) && (p in f ==> h[p] == f[p])
    {
      assert !IsOwn(l, p, i) && p != Target(l, i, i);
    }
  }

  /** Every node writes its own gentx into its own directory. */
  method WriteGentxs(fs: FileSystem, l: Layout, txs: seq<string>) returns (gentxsFiles: seq<Path>)
    requires Valid(l) && |txs| == |l.ids|
    modifies fs
    ensures Written(l, fs) && OwnWritten(l, old(fs.files), fs.files, txs, |l.ids|)
    ensures |gentxsFiles| == |l.ids| && forall j: nat :: j < |l.ids| ==> gentxsFiles[j] == Target(l, j, j)
  {
    hide OwnWritten, Valid;
    gentxsFiles := [];
    OwnNone(l, fs.files, txs);
    for i := 0 to |l.ids|
      invariant OwnWritten(l, old(fs.files), fs.files, txs, i)
      invariant forall j: nat :: j < i ==> GentxDir(l, j) in fs.dirs
      invariant |gentxsFiles| == i && forall j: nat :: j < i ==> gentxsFiles[j] == Target(l, j, j)
    {
      var file, gentxsDir := Target(l, i, i), GentxDir(l, i);
      assert gentxsDir[..|gentxsDir|] == gentxsDir && file[..|file| - 1] == gentxsDir;
      OwnStep(l, old(fs.files), fs.files, txs, i);
      var ok := fs.WriteFile(file, gentxsDir, txs[i]);
      gentxsFiles := gentxsFiles + [file];
    }
    OwnGives(l, old(fs.files), fs.files, txs);
  }

  /** The files once the first i nodes have their genesis file. */
  ghost predicate GenesisWritten(l: Layout, f: map<Path, string>, g: map<Path, string>, genesis: string, i: nat) {
    && (forall j: nat :: j < i ==> GenesisFile(l, j) in g && g[GenesisFile(l, j)] == genesis)
    && (forall p :: (forall j: nat :: j < i ==> p != GenesisFile(l, j)) ==>
          (p in g <==> p in f) && (p in f ==> g[p] == f[p]))
  }

  /** Every node gets the same genesis file to start from. */
  method InitGenFiles(fs: FileSystem, l: Layout, genesis: string)
    modifies fs
    ensures old(fs.dirs) <= fs.dirs
    ensures GenesisWritten(l, old(fs.files), fs.files, genesis, |l.ids|)
  {
    for i := 0 to |l.ids|
      invariant old(fs.dirs) <= fs.dirs
      invariant GenesisWritten(l, old(fs.files), fs.files, genesis, i)
    {
      var file, configDir := GenesisFile(l, i), NodeDir(l, i) + ["config"];
      assert configDir[..|configDir|] == configDir && file[..|file| - 1] == configDir;
      forall j: nat | j < i ensures GenesisFile(l, j) != file {
        GenesisFilesDiffer(l, i, j);
      }
      var ok := fs.WriteFile(file, configDir, genesis);
    }
  }

  lemma OriginalsAre(l: Layout, f: map<Path, string>, g: map<Path, string>, h: map<Path, string>,
                     txs: seq<string>, genesis: string)
    requires Valid(l) && |txs| == |l.ids|
    requires OwnWritten(l, f, g, txs, |l.ids|) && GenesisWritten(l, g, h, genesis, |l.ids|)
    ensures forall j: nat :: j < |l.ids| ==> Target(l, j, j) in h && h[Target(l, j, j)] == txs[j]
    ensures Originals(l, h) == txs
  {
    forall j: nat | j < |l.ids|
      ensures Target(l, j, j) in h && h[Target(l, j, j)] == txs[j]
    {
      forall i: nat ensures GenesisFile(l, i) != Target(l, j, j) {
        GenesisNotInGentxDir(l, i, j, GentxName(l.ids[j]));
      }
    }
  }

  /** What a node will see: what its directory held at the start, overlaid with all gentxs. */
  ghost function Seen(l: Layout, f: map<Path, string>, txs: seq<string>, i: nat): map<string, string>
    requires |txs| == |l.ids|
  {
    Contents(f, GentxDir(l, i)) + AllGentxs(l, txs)
  }

  /** Two nodes see the same exactly when their directories agreed on all other names at the start. */
  lemma NodesAgreeIff(l: Layout, f: map<Path, string>, txs: seq<string>, i: nat, j: nat)
    requires |txs| == |l.ids|
    ensures var others := (d: Path) => Contents(f, d) - AllGentxs(l, txs).Keys;
      Seen(l, f, txs, i) == Seen(l, f, txs, j) <==> others(GentxDir(l, i)) == others(GentxDir(l, j))
  {
    OverlayAgree(Contents(f, GentxDir(l, i)), Contents(f, GentxDir(l, j)), AllGentxs(l, txs));
  }

  /** Writing the own gentxs and the genesis files leaves every other name in the directory alone. */
  lemma OthersKept(l: Layout, f: map<Path, string>, g: map<Path, string>, h: map<Path, string>,
                   txs: seq<string>, genesis: string, i: nat, name: string)
    requires Valid(l) && |txs| == |l.ids| && name !in AllGentxs(l, txs)
    requires OwnWritten(l, f, g, txs, |l.ids|) && GenesisWritten(l, g, h, genesis, |l.ids|)
    ensures name in Contents(h, GentxDir(l, i)) <==> name in Contents(f, GentxDir(l, i))
    ensures name in Contents(f, GentxDir(l, i)) ==>
      Contents(h, GentxDir(l, i))[name] == Contents(f, GentxDir(l, i))[name]
  {
    hide Contents, AllGentxs;
    var p := GentxDir(l, i) + [name];
    if IsOwn(l, p, |l.ids|) {
      OwnName(l, i, name, txs);
      assert false;
    }
    forall j: nat | j < |l.ids| ensures p != GenesisFile(l, j) {
      GenesisNotInGentxDir(l, j, i, name);
    }
    ContentsHas(f, GentxDir(l, i), name);
    ContentsHas(h, GentxDir(l, i), name);
  }

  /** Before spreading, all that can be new in a directory is among all gentxs. */
  lemma SeenBefore(l: Layout, f: map<Path, string>, g: map<Path, string>, h: map<Path, string>,
                   txs: seq<string>, genesis: string, i: nat)
    requires Valid(l) && |txs| == |l.ids|
    requires OwnWritten(l, f, g, txs, |l.ids|) && GenesisWritten(l, g, h, genesis, |l.ids|)
    ensures Seen(l, h, txs, i) == Seen(l, f, txs, i)
  {
    hide Contents, AllGentxs, OwnWritten, GenesisWritten;
    forall name: string | name !in AllGentxs(l, txs)
      ensures name in Contents(h, GentxDir(l, i)) <==> name in Contents(f, GentxDir(l, i))
      ensures name in Contents(f, GentxDir(l, i)) ==>
        Contents(h, GentxDir(l, i))[name] == Contents(f, GentxDir(l, i))[name]
    {
      OthersKept(l, f, g, h, txs, genesis, i, name);
    }
  }

  /** On fresh output a node sees all gentxs and nothing else. */
  lemma FreshSeen(l: Layout, f: map<Path, string>, txs: seq<string>, i: nat)
    requires FreshOutput(l, f) && |txs| == |l.ids| && i < |l.ids|
    ensures Seen(l, f, txs, i) == AllGentxs(l, txs)
  {
    forall name: string ensures name !in Contents(f, GentxDir(l, i)) {
      ContentsHas(f, GentxDir(l, i), name);
    }
  }

  lemma OwnName(l: Layout, i: nat, name: string, txs: seq<string>)
    requires Valid(l) && |txs| == |l.ids| && IsOwn(l, GentxDir(l, i) + [name], |l.ids|)
    ensures name in AllGentxs(l, txs)
  {
    var p := GentxDir(l, i) + [name];
    var j: nat :| j < |l.ids| && p == Target(l, j, j);
    var t := Target(l, j, j);
    assert p[|p| - 1] == name && t[|t| - 1] == GentxName(l.ids[j]);
    AllGentxsHas(l, txs, j);
  }

  lemma AfterSpread(l: Layout, f: map<Path, string>, g: map<Path, string>, h: map<Path, string>, s: map<Path, string>,
                    txs: seq<string>, genesis: string, i: nat)
    requires Valid(l) && |txs| == |l.ids| && i < |l.ids|
    requires OwnWritten(l, f, g, txs, |l.ids|) && GenesisWritten(l, g, h, genesis, |l.ids|)
    requires forall j: nat :: j < |l.ids| ==> Target(l, j, j) in h
    requires Spread(l, h, s, |l.ids|, 0)
    ensures GenesisFile(l, i) in s && s[GenesisFile(l, i)] == genesis
    ensures Contents(s, GentxDir(l, i)) == Seen(l, f, txs, i)
  {
    OriginalsAre(l, f, g, h, txs, genesis);
    SeenBefore(l, f, g, h, txs, genesis, i);
    DirectoryAfterSpread(l, h, s, i);
    GenesisNotTarget(l, i);
  }

  /** Writes the gentxs and the genesis files, and spreads the gentxs. */
  method WriteAndSpread(fs: FileSystem, l: Layout, txs: seq<string>, genesis: string) returns (ok: bool)
    requires Valid(l) && |txs| == |l.ids|
    modifies fs
    ensures ok
    ensures forall i: nat :: i < |l.ids| ==>
      && GenesisFile(l, i) in fs.files && fs.files[GenesisFile(l, i)] == genesis
      && Contents(fs.files, GentxDir(l, i)) == Seen(l, old(fs.files), txs, i)
  {
    hide OwnWritten, GenesisWritten, Contents, Seen, Spread;
    ghost var f := fs.files;
    var gentxsFiles := WriteGentxs(fs, l, txs);
    ghost var g := fs.files;
    InitGenFiles(fs, l, genesis);
    ghost var h := fs.files;
    OriginalsAre(l, f, g, h, txs, genesis);
    ok := SpreadGentxs(fs, l, gentxsFiles);
    forall i: nat | i < |l.ids|
      ensures GenesisFile(l, i) in fs.files && fs.files[GenesisFile(l, i)] == genesis
      ensures Contents(fs.files, GentxDir(l, i)) == Seen(l, f, txs, i)
    {
      AfterSpread(l, f, g, h, fs.files, txs, genesis, i);
    }
  }

  /**
   Every node ends with the same genesis, made from the app state that node 0 computes out of the
   common genesis and the gentxs it sees. The builder fails exactly when some node's computation
   does. On fresh output every node sees all n gentxs and nothing else, so that each would have
   computed the same state by itself.
  */
  method InitTestnetFiles(fs: FileSystem, l: Layout, txs: seq<string>, genesis: string,
                          gen: Collector, render: string -> string) returns (ok: bool)
    requires Valid(l) && |txs| == |l.ids|
    modifies fs
    ensures ok <==> forall i: nat :: i < |l.ids| ==> gen(genesis, Seen(l, old(fs.files), txs, i)).Some?
    ensures ok ==> forall i: nat :: i < |l.ids| ==>
      && GenesisFile(l, i) in fs.files
      && fs.files[GenesisFile(l, i)] == render(gen(genesis, Seen(l, old(fs.files), txs, 0)).value)
    ensures FreshOutput(l, old(fs.files)) ==>
      forall i: nat :: i < |l.ids| ==> Seen(l, old(fs.files), txs, i) == AllGentxs(l, txs)
  {
    hide Contents, Seen, FreshOutput, AllGentxs;
    ghost var f := fs.files;
    ok := WriteAndSpread(fs, l, txs, genesis);
    ghost var s := fs.files;
    forall i: nat | i < |l.ids|
      ensures NodeState(gen, l, s, i) == gen(genesis, Seen(l, f, txs, i))
      ensures FreshOutput(l, f) ==> Seen(l, f, txs, i) == AllGentxs(l, txs)
    {
      if FreshOutput(l, f) {
        FreshSeen(l, f, txs, i);
      }
    }
    ok := CollectGenFiles(fs, l, gen, render);
    assert l.ids != [] ==> 0 < |l.ids|;
  }
}
