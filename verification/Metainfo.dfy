// What a decoded .torrent must say before it is accepted, and the size and identity reported for it.
module Metainfo {
  import opened ByteStrings
  import opened Options
  import opened Numerals
  import opened Bencode

  type Path = seq<Bytes>

  datatype Leaf = Leaf(path: Path, length: nat)

  datatype Rejected = Rejected

  // `v1` and `v2` say which digests of `infoBytes` the magnet names.
  datatype Torrent = Torrent(infoBytes: Bytes, v1: bool, v2: bool, name: Bytes, size: nat)

  const MAX_TORRENT_BYTES: nat := 32 * 1024 * 1024

  function Ascii(s: string): Bytes {
    seq(|s|, i requires 0 <= i < |s| => if s[i] <= '~' then s[i] as int else 0)
  }

  // ---------- names, sizes and numbers ----------

  // A single safe path component.
  predicate Component(s: Bytes) {
    s != [] && s != [46] && s != [46, 46] && 47 !in s && 92 !in s && 0 !in s && !(|s| >= 2 && s[1] == COLON)
  }

  predicate IsComponent(v: Option<Value>) {
    v.Some? && v.value.Str? && Component(v.value.s)
  }

  // `_file_size`: symlink entries and missing or negative lengths are refused.
  function FileSize(entry: seq<Pair>): Option<nat> {
    var attributes := Get(entry, Ascii("attr"));
    var length := Get(entry, Ascii("length"));
    if attributes.Some? && (!attributes.value.Str? || 108 in attributes.value.s) then None
    else if Get(entry, Ascii("symlink path")).Some? then None
    else if length.Some? && length.value.Int? && length.value.n >= 0 then Some(length.value.n)
    else None
  }

  // Bitwise "and" of two naturals.
  function And(a: nat, b: nat): nat {
    if a == 0 || b == 0 then 0 else 2 * And(a / 2, b / 2) + (if a % 2 == 1 && b % 2 == 1 then 1 else 0)
  }

  function Pow2(k: nat): nat { if k == 0 then 1 else 2 * Pow2(k - 1) }

  lemma {:induction false} PowerHasNoLowerBits(k: nat)
    ensures Pow2(k) > 0 && And(Pow2(k), Pow2(k) - 1) == 0
  {
    if k > 0 {
      PowerHasNoLowerBits(k - 1);
      assert (Pow2(k) - 1) / 2 == Pow2(k - 1) - 1;
    }
  }

  lemma {:induction false} NoLowerBitsIsPower(n: nat) returns (k: nat)
    requires n > 0 && And(n, n - 1) == 0
    ensures n == Pow2(k)
  {
    if n == 1 {
      k := 0;
    } else {
      assert n - 1 > 0;
      if n % 2 == 1 { AndPositive(n / 2); }
      assert (n - 1) / 2 == n / 2 - 1;
      var h := NoLowerBitsIsPower(n / 2);
      k := h + 1;
    }
  }

  // n & (n - 1) vanishes exactly for powers of two.
  lemma PowersOfTwo(n: nat)
    requires n > 0
    ensures And(n, n - 1) == 0 <==> exists k: nat :: n == Pow2(k)
  {
    if And(n, n - 1) == 0 {
      var k := NoLowerBitsIsPower(n);
    }
    if k: nat :| n == Pow2(k) {
      PowerHasNoLowerBits(k);
    }
  }

  lemma {:induction false} AndPositive(n: nat)
    requires n > 0
    ensures And(n, n) > 0
  {
    if n > 1 { AndPositive(n / 2); }
  }

  function TotalLength(leaves: seq<Leaf>): nat {
    if leaves == [] then 0 else leaves[0].length + TotalLength(leaves[1..])
  }

  function PathsOf(leaves: seq<Leaf>): set<Path> { set leaf <- leaves :: leaf.path }

  // No path is another one or lies inside it.
  predicate PrefixFree(leaves: seq<Leaf>) {
    forall i, j :: 0 <= i < |leaves| && 0 <= j < |leaves| && i != j ==> !(leaves[i].path <= leaves[j].path)
  }

  predicate Distinct(leaves: seq<Leaf>) {
    forall i, j :: 0 <= i < j < |leaves| ==> leaves[i].path != leaves[j].path
  }

  predicate NoneInside(paths: set<Path>) {
    forall p <- paths, q <- paths :: !(q != [] && q < p)
  }

  lemma {:induction false} TotalSplit(a: seq<Leaf>, b: seq<Leaf>)
    ensures TotalLength(a + b) == TotalLength(a) + TotalLength(b)
  {
    if a == [] {
      assert a + b == b;
    } else {
      assert (a + b)[1..] == a[1..] + b;
      TotalSplit(a[1..], b);
    }
  }

  lemma PathsSplit(a: seq<Leaf>, b: seq<Leaf>)
    ensures PathsOf(a + b) == PathsOf(a) + PathsOf(b)
  {
    forall leaf <- a
      ensures leaf in a + b
    {}
    forall leaf <- b
      ensures leaf in a + b
    {}
  }

  // ---------- version 1: a list of files ----------

  predicate IsPath(v: Option<Value>) {
    v.Some? && v.value.List? && v.value.items != []
    && forall i :: 0 <= i < |v.value.items| ==> IsComponent(Some(v.value.items[i]))
  }

  function PathFrom(v: Value): Path
    requires IsPath(Some(v))
  {
    seq(|v.items|, i requires 0 <= i < |v.items| => v.items[i].s)
  }

  predicate ValidEntry(entry: Value) {
    entry.Dict? && FileSize(entry.pairs).Some? && IsPath(Get(entry.pairs, Ascii("path")))
    && (Get(entry.pairs, Ascii("path.utf-8")).Some? ==> IsPath(Get(entry.pairs, Ascii("path.utf-8"))))
  }

  function EntryLeaf(entry: Value): Leaf
    requires ValidEntry(entry)
  {
    Leaf(PathFrom(Get(entry.pairs, Ascii("path")).value), FileSize(entry.pairs).value)
  }

  predicate ValidEntries(files: seq<Value>) {
    forall i :: 0 <= i < |files| ==> ValidEntry(files[i])
  }

  function EntryLeaves(files: seq<Value>): seq<Leaf>
    requires ValidEntries(files)
  {
    seq(|files|, i requires 0 <= i < |files| => EntryLeaf(files[i]))
  }

  // ---------- version 2: a tree of files ----------

  // A nonempty file names one 32-byte hash.
  predicate ValidLeaf(file: seq<Pair>) {
    var root := Get(file, Ascii("pieces root"));
    FileSize(file).Some?
    && (FileSize(file).value > 0 ==> root.Some? && root.value.Str? && |root.value.s| == 32)
  }

  // The empty key marks a file and has no siblings; any other key names a nonempty directory.
  predicate ValidChild(p: Pair, siblings: nat, path: Path)
    decreases p
  {
    p.value.Dict? &&
    if p.key == [] then path != [] && siblings == 1 && ValidLeaf(p.value.pairs)
    else p.value.pairs != [] && Component(p.key) && ValidTree(p.value.pairs, path + [p.key])
  }

  predicate ValidTree(branch: seq<Pair>, path: Path)
    decreases branch
  {
    forall i :: 0 <= i < |branch| ==> ValidChild(branch[i], |branch|, path)
  }

  function LeavesOf(p: Pair, path: Path): seq<Leaf>
    decreases p
  {
    if !p.value.Dict? then []
    else if p.key == [] then
      match FileSize(p.value.pairs) case Some(n) => [Leaf(path, n)] case None => []
    else Leaves(p.value.pairs, path + [p.key])
  }

  function Leaves(branch: seq<Pair>, path: Path): seq<Leaf>
    decreases branch
  {
    if branch == [] then [] else LeavesOf(branch[0], path) + Leaves(branch[1..], path)
  }

  lemma {:induction false} LeavesSnoc(branch: seq<Pair>, p: Pair, path: Path)
    ensures Leaves(branch + [p], path) == Leaves(branch, path) + LeavesOf(p, path)
  {
    if branch == [] {
      assert branch + [p] == [p];
      assert Leaves([p], path) == LeavesOf(p, path) + Leaves([], path);
    } else {
      assert (branch + [p])[1..] == branch[1..] + [p];
      LeavesSnoc(branch[1..], p, path);
    }
  }

  lemma {:induction false} LeavesAreUnder(branch: seq<Pair>, path: Path, leaf: Leaf)
    requires leaf in Leaves(branch, path)
    ensures path <= leaf.path
    ensures exists i :: 0 <= i < |branch| && leaf in LeavesOf(branch[i], path)
    decreases branch
  {
    if leaf in LeavesOf(branch[0], path) {
      LeafIsUnder(branch[0], path, leaf);
    } else {
      LeavesAreUnder(branch[1..], path, leaf);
      var i :| 0 <= i < |branch[1..]| && leaf in LeavesOf(branch[1..][i], path);
      assert branch[i + 1] == branch[1..][i];
    }
  }

  lemma {:induction false} LeafIsUnder(p: Pair, path: Path, leaf: Leaf)
    requires leaf in LeavesOf(p, path)
    ensures path <= leaf.path && (p.key != [] ==> path + [p.key] <= leaf.path)
    decreases p
  {
    if p.key != [] {
      LeavesAreUnder(p.value.pairs, path + [p.key], leaf);
    }
  }

  predicate ValidSome(branch: seq<Pair>, siblings: nat, path: Path) {
    Ordered(branch) && |branch| <= siblings
    && forall i :: 0 <= i < |branch| ==> ValidChild(branch[i], siblings, path)
  }

  lemma OrderedKeysDiffer(branch: seq<Pair>, i: nat, j: nat)
    requires Ordered(branch) && i < j < |branch|
    ensures branch[i].key != branch[j].key
  {
    LessIsStrict(branch[j].key);
  }

  lemma PrefixFreeConcat(a: seq<Leaf>, b: seq<Leaf>)
    requires PrefixFree(a) && PrefixFree(b)
    requires forall x <- a, y <- b :: !(x.path <= y.path) && !(y.path <= x.path)
    ensures PrefixFree(a + b)
  {
    var c := a + b;
    forall i, j | 0 <= i < |c| && 0 <= j < |c| && i != j
      ensures !(c[i].path <= c[j].path)
    {
      assert (i < |a| ==> c[i] in a) && (i >= |a| ==> c[i] == b[i - |a|] && c[i] in b);
      assert (j < |a| ==> c[j] in a) && (j >= |a| ==> c[j] == b[j - |a|] && c[j] in b);
    }
  }

  // Files below different keys of one directory never meet.
  lemma DifferentKeys(p: Bytes, q: Bytes, path: Path, x: Path, y: Path)
    requires p != q && path + [p] <= x && path + [q] <= y
    ensures !(x <= y) && !(y <= x)
  {
    assert x[|path|] == (path + [p])[|path|] && y[|path|] == (path + [q])[|path|];
  }

  lemma {:induction false} SiblingsArePrefixFree(branch: seq<Pair>, siblings: nat, path: Path, depth: nat)
    requires ValidSome(branch, siblings, path) && Fits(Dict(branch), depth)
    ensures PrefixFree(Leaves(branch, path))
    decreases branch
  {
    if branch != [] {
      var p, rest := branch[0], branch[1..];
      assert forall i :: 0 <= i < |rest| ==> rest[i] == branch[i + 1];
      assert ValidChild(p, siblings, path) && FitsPair(p, depth + 1);
      SiblingsArePrefixFree(rest, siblings, path, depth);
      PairIsPrefixFree(p, siblings, path, depth);
      forall x <- LeavesOf(p, path), y <- Leaves(rest, path)
        ensures !(x.path <= y.path) && !(y.path <= x.path)
      {
        LeavesAreUnder(rest, path, y);
        var i :| 0 <= i < |rest| && y in LeavesOf(rest[i], path);
        assert ValidChild(branch[i + 1], siblings, path);
        OrderedKeysDiffer(branch, 0, i + 1);
        LeafIsUnder(p, path, x);
        LeafIsUnder(rest[i], path, y);
        DifferentKeys(p.key, rest[i].key, path, x.path, y.path);
      }
      PrefixFreeConcat(LeavesOf(p, path), Leaves(rest, path));
    }
  }

  lemma {:induction false} PairIsPrefixFree(p: Pair, siblings: nat, path: Path, depth: nat)
    requires ValidChild(p, siblings, path) && FitsPair(p, depth + 1)
    ensures PrefixFree(LeavesOf(p, path))
    decreases p
  {
    if p.key != [] {
      assert ValidSome(p.value.pairs, |p.value.pairs|, path + [p.key]);
      SiblingsArePrefixFree(p.value.pairs, |p.value.pairs|, path + [p.key], depth + 1);
    }
  }

  // An accepted tree names every file once and no file inside another.
  lemma TreeIsPrefixFree(tree: seq<Pair>, depth: nat)
    requires ValidTree(tree, []) && Fits(Dict(tree), depth)
    ensures PrefixFree(Leaves(tree, [])) && Distinct(Leaves(tree, [])) && NoneInside(PathsOf(Leaves(tree, [])))
  {
    assert ValidSome(tree, |tree|, []);
    SiblingsArePrefixFree(tree, |tree|, [], depth);
  }

  // Every directory of an accepted tree holds a file.
  lemma {:induction false} DirectoriesHoldFiles(branch: seq<Pair>, path: Path)
    requires ValidTree(branch, path) && branch != []
    ensures Leaves(branch, path) != []
    decreases branch
  {
    var p := branch[0];
    assert ValidChild(p, |branch|, path);
    if p.key != [] { DirectoriesHoldFiles(p.value.pairs, path + [p.key]); }
  }

  // ---------- a whole torrent ----------

  predicate SafeName(info: seq<Pair>) {
    IsComponent(Get(info, Ascii("name")))
    && (Get(info, Ascii("name.utf-8")).Some? ==> IsComponent(Get(info, Ascii("name.utf-8"))))
  }

  function PieceLength(info: seq<Pair>): Option<nat> {
    match Get(info, Ascii("piece length"))
    case Some(Int(n)) => if n > 0 then Some(n) else None
    case _ => None
  }

  predicate PrivateFlag(info: seq<Pair>) {
    match Get(info, Ascii("private"))
    case None => true
    case Some(v) => v == Int(0) || v == Int(1)
  }

  // `pieces` holds one 20-byte hash for each started piece.
  predicate PiecesCover(pieces: Value, size: nat, pieceLength: nat)
    requires pieceLength > 0
  {
    pieces.Str? && |pieces.s| == (size + pieceLength - 1) / pieceLength * 20
  }

  predicate HasPieces(info: seq<Pair>) { Get(info, Ascii("pieces")).Some? }

  predicate IsV2(info: seq<Pair>) { Get(info, Ascii("meta version")) == Some(Int(2)) }

  // The files a version-1 dictionary declares; a single file has no path of its own.
  predicate V1Files(info: seq<Pair>, leaves: seq<Leaf>) {
    var files, length := Get(info, Ascii("files")), Get(info, Ascii("length"));
    if length.Some? then
      files.None? && FileSize(info).Some? && leaves == [Leaf([], FileSize(info).value)]
    else
      files.Some? && files.value.List? && files.value.items != [] && ValidEntries(files.value.items)
      && leaves == EntryLeaves(files.value.items)
  }

  predicate ValidV1(info: seq<Pair>, leaves: seq<Leaf>) {
    V1Files(info, leaves) && Distinct(leaves) && NoneInside(PathsOf(leaves))
    && PieceLength(info).Some? && HasPieces(info)
    && PiecesCover(Get(info, Ascii("pieces")).value, TotalLength(leaves), PieceLength(info).value)
  }

  predicate ValidV2(info: seq<Pair>, leaves: seq<Leaf>) {
    var tree := Get(info, Ascii("file tree"));
    PieceLength(info).Some? && PieceLength(info).value >= 16384
    && And(PieceLength(info).value, PieceLength(info).value - 1) == 0
    && tree.Some? && tree.value.Dict? && tree.value.pairs != [] && ValidTree(tree.value.pairs, [])
    && leaves == Leaves(tree.value.pairs, [])
  }

  // What the metadata describes: its version-1 files, its version-2 files, or both for a hybrid.
  predicate Describes(info: seq<Pair>, v1: Option<seq<Leaf>>, v2: Option<seq<Leaf>>) {
    SafeName(info) && PieceLength(info).Some? && PrivateFlag(info)
    && (Get(info, Ascii("meta version")).Some? ==> IsV2(info))
    && v1.Some? == HasPieces(info) && v2.Some? == IsV2(info) && (v1.Some? || v2.Some?)
    && (v1.Some? ==> ValidV1(info, v1.value)) && (v2.Some? ==> ValidV2(info, v2.value))
    && ReportedSize(v1, v2) < 0x8000_0000_0000_0000
  }

  function ReportedSize(v1: Option<seq<Leaf>>, v2: Option<seq<Leaf>>): nat {
    match v1
    case Some(leaves) => TotalLength(leaves)
    case None => if v2.Some? then TotalLength(v2.value) else 0
  }

  function InfoOf(v: Value): Option<seq<Pair>> {
    if v.Dict? && Get(v.pairs, INFO).Some? && Get(v.pairs, INFO).value.Dict?
    then Some(Get(v.pairs, INFO).value.pairs) else None
  }

  function LeafLength(file: seq<Pair>): nat
    requires ValidLeaf(file)
  {
    FileSize(file).value
  }

  lemma EmptyTotal()
    ensures TotalLength([]) == 0
  {}

  lemma OneLeaf(path: Path, length: nat)
    ensures TotalLength([Leaf(path, length)]) == length && PathsOf([Leaf(path, length)]) == {path}
  {
    assert Leaf(path, length) in [Leaf(path, length)];
  }

  lemma LeafOfPair(p: Pair, path: Path)
    requires p.key == [] && p.value.Dict? && ValidLeaf(p.value.pairs)
    ensures LeavesOf(p, path) == [Leaf(path, LeafLength(p.value.pairs))]
    ensures PathsOf(LeavesOf(p, path)) == {path} && TotalLength(LeavesOf(p, path)) == LeafLength(p.value.pairs)
  {
    OneLeaf(path, LeafLength(p.value.pairs));
  }

  lemma DirectoryOfPair(p: Pair, path: Path)
    requires p.key != [] && p.value.Dict?
    ensures LeavesOf(p, path) == Leaves(p.value.pairs, path + [p.key])
  {}

  lemma EntriesSnoc(files: seq<Value>, entry: Value)
    requires ValidEntries(files) && ValidEntry(entry)
    ensures ValidEntries(files + [entry])
    ensures EntryLeaves(files + [entry]) == EntryLeaves(files) + [EntryLeaf(entry)]
    ensures TotalLength(EntryLeaves(files + [entry])) == TotalLength(EntryLeaves(files)) + EntryLeaf(entry).length
    ensures PathsOf(EntryLeaves(files + [entry])) == PathsOf(EntryLeaves(files)) + {EntryLeaf(entry).path}
  {
    var leaf := EntryLeaf(entry);
    OneLeaf(leaf.path, leaf.length);
    TotalSplit(EntryLeaves(files), [leaf]);
    PathsSplit(EntryLeaves(files), [leaf]);
  }

  lemma EntryTwice(files: seq<Value>, n: nat, leaf: Leaf)
    requires n < |files| && ValidEntries(files[..n]) && ValidEntry(files[n]) && leaf == EntryLeaf(files[n])
    requires leaf.path in PathsOf(EntryLeaves(files[..n]))
    ensures !(ValidEntries(files) && Distinct(EntryLeaves(files)))
  {
    var earlier :| earlier in EntryLeaves(files[..n]) && earlier.path == leaf.path;
    var i :| 0 <= i < n && EntryLeaves(files[..n])[i] == earlier;
    if ValidEntries(files) {
      assert EntryLeaves(files)[i].path == EntryLeaves(files)[n].path;
    }
  }

  // The files added for earlier siblings lie outside the next one.
  lemma NotUnderSibling(branch: seq<Pair>, n: nat, path: Path, depth: nat)
    requires n < |branch| && Fits(Dict(branch), depth) && branch[n].key != []
    requires forall i :: 0 <= i < n ==> ValidChild(branch[i], |branch|, path)
    ensures forall p <- PathsOf(Leaves(branch[..n], path)) :: !(path + [branch[n].key] <= p)
  {
    forall leaf <- Leaves(branch[..n], path)
      ensures !(path + [branch[n].key] <= leaf.path)
    {
      LeavesAreUnder(branch[..n], path, leaf);
      var i :| 0 <= i < n && leaf in LeavesOf(branch[..n][i], path);
      assert ValidChild(branch[i], |branch|, path);
      OrderedKeysDiffer(branch, i, n);
      LeafIsUnder(branch[i], path, leaf);
      DifferentKeys(branch[i].key, branch[n].key, path, leaf.path, path + [branch[n].key]);
    }
  }

  // A single file has the empty path, which the program does not record.
  lemma NoneInsideSingle(paths: set<Path>, leaves: seq<Leaf>)
    requires paths == PathsOf(leaves) || (paths == {} && |leaves| == 1)
    ensures NoneInside(paths) == NoneInside(PathsOf(leaves))
  {
    if |leaves| == 1 {
      assert forall leaf <- leaves :: leaf == leaves[0];
      assert forall p <- PathsOf(leaves) :: p == leaves[0].path;
    }
  }

  lemma {:induction false} GetFits(pairs: seq<Pair>, depth: nat, key: Bytes)
    requires forall i :: 0 <= i < |pairs| ==> FitsPair(pairs[i], depth + 1)
    ensures Get(pairs, key).Some? ==> Fits(Get(pairs, key).value, depth + 1)
  {
    if pairs != [] && pairs[0].key != key {
      assert forall i :: 0 <= i < |pairs[1..]| ==> pairs[1..][i] == pairs[i + 1];
      GetFits(pairs[1..], depth, key);
    }
  }

  // The identity digests cover exactly the encoded info dictionary.
  function Reported(v: Value, v1: Option<seq<Leaf>>, v2: Option<seq<Leaf>>): Torrent
    requires InfoOf(v).Some? && SafeName(InfoOf(v).value)
  {
    var info := InfoOf(v).value;
    Torrent(Encode(Dict(info)), v1.Some?, v2.Some?, Get(info, Ascii("name")).value.s, ReportedSize(v1, v2))
  }

  lemma InfoBytesOfDict(v: Value)
    requires v.Dict?
    ensures InfoOf(v).Some? ==> InfoBytes(v, 0, []) == Encode(Dict(InfoOf(v).value)) && InfoBytes(v, 0, []) != []
    ensures InfoOf(v).Some? <==> Get(v.pairs, INFO).Some? && Get(v.pairs, INFO).value.Dict?
  {
    if InfoOf(v).Some? { FirstByte(Dict(InfoOf(v).value)); }
  }

  lemma InfoFits(v: Value, info: seq<Pair>)
    requires Decodable(v) && InfoOf(v) == Some(info)
    ensures Fits(Dict(info), 1)
  {
    GetFits(v.pairs, 0, INFO);
  }

  lemma NameOf(info: seq<Pair>)
    requires SafeName(info)
    ensures Get(info, Ascii("name")).Some? && Get(info, Ascii("name")).value.Str?
  {}

  class Parser {
    var paths: set<Path>

    constructor ()
      ensures paths == {}
    {
      paths := {};
    }

    method AddPath(path: Path) returns (r: Result<(), Rejected>)
      modifies this
      ensures r.Ok? <==> path !in old(paths)
      ensures r.Ok? ==> paths == old(paths) + {path}
    {
      if path in paths { return Err(Rejected); }
      paths := paths + {path};
      return Ok(());
    }

    method CheckPaths() returns (r: Result<(), Rejected>)
      ensures r.Ok? <==> NoneInside(paths)
    {
      var todo := paths;
      while todo != {}
        invariant todo <= paths
        invariant forall p <- paths, q <- paths :: p !in todo ==> !(q != [] && q < p)
      {
        var p :| p in todo;
        todo := todo - {p};
        var index := 1;
        while index < |p|
          invariant index >= 1 && forall n :: 1 <= n < index && n < |p| ==> p[..n] !in paths
        {
          if p[..index] in paths { return Err(Rejected); }
          index := index + 1;
        }
        forall q <- paths
          ensures !(q != [] && q < p)
        {
          assert q < p ==> q == p[..|q|];
        }
      }
      return Ok(());
    }

    method ParseEntries(files: seq<Value>) returns (r: Result<nat, Rejected>)
      requires paths == {}
      modifies this
      ensures r.Ok? <==> ValidEntries(files) && Distinct(EntryLeaves(files))
      ensures r.Ok? ==> paths == PathsOf(EntryLeaves(files)) && r.value == TotalLength(EntryLeaves(files))
    {
      hide TotalLength, IsPath, FileSize;
      var size := 0;
      EmptyTotal();
      assert EntryLeaves(files[..0]) == [];
      for n := 0 to |files|
        invariant ValidEntries(files[..n]) && Distinct(EntryLeaves(files[..n]))
        invariant paths == PathsOf(EntryLeaves(files[..n])) && size == TotalLength(EntryLeaves(files[..n]))
      {
        ghost var done := files[..n];
        assert files[..n + 1] == done + [files[n]];
        if !ValidEntry(files[n]) {
          assert !ValidEntries(files);
          return Err(Rejected);
        }
        var leaf := EntryLeaf(files[n]);
        EntriesSnoc(done, files[n]);
        var added := AddPath(leaf.path);
        if added.Err? {
          EntryTwice(files, n, leaf);
          return Err(Rejected);
        }
        size := size + leaf.length;
      }
      assert files[..|files|] == files;
      r := Ok(size);
    }

    // Adds the files below one directory and returns their total length.
    method Visit(branch: seq<Pair>, path: Path, ghost depth: nat) returns (r: Result<nat, Rejected>)
      requires Fits(Dict(branch), depth)
      requires forall p <- paths :: !(path <= p)
      modifies this
      ensures r.Ok? <==> ValidTree(branch, path)
      ensures r.Ok? ==> paths == old(paths) + PathsOf(Leaves(branch, path)) && r.value == TotalLength(Leaves(branch,
          path))
      decreases branch
    {
      hide TotalLength, Component, ValidLeaf, FileSize, Get, LeavesOf, LeafLength;
      var total := 0;
      EmptyTotal();
      assert Leaves([], path) == [] && branch[..0] == [] && PathsOf([]) == {};
      for n := 0 to |branch|
        invariant forall i :: 0 <= i < n ==> ValidChild(branch[i], |branch|, path)
        invariant paths == old(paths) + PathsOf(Leaves(branch[..n], path))
            && total == TotalLength(Leaves(branch[..n], path))
      {
        var p := branch[n];
        assert FitsPair(p, depth + 1);
        if !p.value.Dict? {
          assert !ValidChild(p, |branch|, path);
          return Err(Rejected);
        }
        var child := p.value.pairs;
        LeavesSnoc(branch[..n], p, path);
        assert branch[..n + 1] == branch[..n] + [p];
        PathsSplit(Leaves(branch[..n], path), LeavesOf(p, path));
        TotalSplit(Leaves(branch[..n], path), LeavesOf(p, path));
        if p.key == [] {
          if path == [] || |branch| != 1 || !ValidLeaf(child) {
            assert !ValidChild(p, |branch|, path);
            return Err(Rejected);
          }
          var length := LeafLength(child);
          LeafOfPair(p, path);
          assert n == 0 && path <= path;
          var added := AddPath(path);
          assert added.Ok?;
          total := total + length;
        } else {
          if child == [] || !Component(p.key) {
            assert !ValidChild(p, |branch|, path);
            return Err(Rejected);
          }
          NotUnderSibling(branch, n, path, depth);
          DirectoryOfPair(p, path);
          var below := Visit(child, path + [p.key], depth + 1);
          if below.Err? {
            assert !ValidChild(p, |branch|, path);
            return Err(Rejected);
          }
          total := total + below.value;
        }
      }
      assert branch[..|branch|] == branch;
      r := Ok(total);
    }
  
    method ParseV1(info: seq<Pair>, pieceLength: nat) returns (r: Result<nat, Rejected>, ghost leaves: seq<Leaf>)
      requires PieceLength(info) == Some(pieceLength) && HasPieces(info) && paths == {}
      modifies this
      ensures r.Ok? ==> ValidV1(info, leaves) && r.value == TotalLength(leaves)
      ensures forall other :: ValidV1(info, other) ==> r.Ok? && other == leaves
    {
      hide FileSize, IsPath, TotalLength, Get;
      var files, length := Get(info, Ascii("files")), Get(info, Ascii("length"));
      var size := 0;
      leaves := [];
      if files.Some? == length.Some? { return Err(Rejected), []; }
      if length.Some? {
        var single := FileSize(info);
        if single.None? { return Err(Rejected), []; }
        size := single.value;
        leaves := [Leaf([], size)];
        OneLeaf([], size);
      } else {
        if !files.value.List? || files.value.items == [] { return Err(Rejected), []; }
        var entries := ParseEntries(files.value.items);
        if entries.Err? { return Err(Rejected), []; }
        size := entries.value;
        leaves := EntryLeaves(files.value.items);
      }
      assert V1Files(info, leaves);
      assert forall other | V1Files(info, other) :: other == leaves;
      if !PiecesCover(Get(info, Ascii("pieces")).value, size, pieceLength) { return Err(Rejected), []; }
      var checked := CheckPaths();
      NoneInsideSingle(paths, leaves);
      if checked.Err? { return Err(Rejected), []; }
      assert ValidV1(info, leaves);
      r := Ok(size);
    }

    method ParseV2(info: seq<Pair>, pieceLength: nat, ghost depth: nat)
      returns (r: Result<nat, Rejected>, ghost leaves: seq<Leaf>)
      requires Fits(Dict(info), depth) && PieceLength(info) == Some(pieceLength)
      modifies this
      ensures r.Ok? ==> ValidV2(info, leaves) && r.value == TotalLength(leaves)
      ensures forall other :: ValidV2(info, other) ==> r.Ok? && other == leaves
    {
      hide TotalLength, PieceLength, And;
      var tree := Get(info, Ascii("file tree"));
      if pieceLength < 16384 || And(pieceLength, pieceLength - 1) != 0 { return Err(Rejected), []; }
      if tree.None? || !tree.value.Dict? || tree.value.pairs == [] { return Err(Rejected), []; }
      GetFits(info, depth, Ascii("file tree"));
      leaves := Leaves(tree.value.pairs, []);
      paths := {};
      r := Visit(tree.value.pairs, [], depth + 1);
      if r.Ok? {
        assert ValidV2(info, leaves);
        TreeIsPrefixFree(tree.value.pairs, depth + 1);
        var checked := CheckPaths();
        assert checked.Ok?;
      }
    }
  }

  // The metadata tree of an accepted upload, and what is reported for it.
  predicate Accepts(v: Value, v1: Option<seq<Leaf>>, v2: Option<seq<Leaf>>) {
    Decodable(v) && InfoOf(v).Some? && Describes(InfoOf(v).value, v1, v2)
  }

  method ParseTorrent(data: Bytes) returns (r: Result<Torrent, Rejected>)
    ensures r.Ok? ==> exists v, v1, v2 :: Encode(v) == data && |data| <= MAX_TORRENT_BYTES && Accepts(v, v1, v2)
                        && r.value == Reported(v, v1, v2)
    ensures r.Err? ==> forall v, v1, v2 :: Encode(v) == data && |data| <= MAX_TORRENT_BYTES ==> !Accepts(v, v1, v2)
  {
    hide Encode, Decodable, Get, IsComponent, SafeName, PrivateFlag, ValidV1, ValidV2, TotalLength, InfoBytes;
    if !(0 < |data| <= MAX_TORRENT_BYTES) {
      assert forall v :: Encode(v) != [] by { forall v ensures Encode(v) != [] { FirstByte(v); } }
      return Err(Rejected);
    }
    var decoded := DecodeWhole(data);
    if decoded.Err? { return Err(Rejected); }
    var metadata := decoded.value.0;
    forall v | Encode(v) == data
      ensures v == metadata
    {
      EncodingIsInjective(v, metadata);
    }
    if !metadata.Dict? { return Err(Rejected); }
    var held := Get(metadata.pairs, INFO);
    if held.None? || !held.value.Dict? || decoded.value.1 == [] {
      InfoBytesOfDict(metadata);
      return Err(Rejected);
    }
    var info := held.value.pairs;
    assert InfoOf(metadata) == Some(info);
    var name := Get(info, Ascii("name"));
    if !SafeName(info) { return Err(Rejected); }
    var pieceLength := PieceLength(info);
    if pieceLength.None? { return Err(Rejected); }
    if !PrivateFlag(info) { return Err(Rejected); }
    var version := Get(info, Ascii("meta version"));
    if version.Some? && version.value != Int(2) { return Err(Rejected); }
    var parser := new Parser();
    var size := 0;
    ghost var v1: Option<seq<Leaf>>, v2: Option<seq<Leaf>> := None, None;
    if HasPieces(info) {
      var files, leaves := parser.ParseV1(info, pieceLength.value);
      if files.Err? { return Err(Rejected); }
      size, v1 := files.value, Some(leaves);
    } else if version.None? {
      return Err(Rejected);
    }
    if IsV2(info) {
      InfoFits(metadata, info);
      var tree, leaves := parser.ParseV2(info, pieceLength.value, 1);
      if tree.Err? { return Err(Rejected); }
      v2 := Some(leaves);
      if !HasPieces(info) { size := tree.value; }
    }
    assert size == ReportedSize(v1, v2);
    assert forall w1, w2 :: Describes(info, w1, w2) ==> w1 == v1 && w2 == v2;
    if size >= 0x8000_0000_0000_0000 { return Err(Rejected); }
    InfoBytesOfDict(metadata);
    NameOf(info);
    assert Accepts(metadata, v1, v2);
    r := Ok(Torrent(decoded.value.1, HasPieces(info), IsV2(info), name.value.s, size));
  }

  // ---------- what acceptance means ----------

  lemma CeilingPieces(size: nat, pieceLength: nat, n: nat)
    requires pieceLength > 0 && n == (size + pieceLength - 1) / pieceLength
    ensures size <= n * pieceLength && (n > 0 ==> (n - 1) * pieceLength < size)
  {
    assert n * pieceLength <= size + pieceLength - 1 < n * pieceLength + pieceLength;
    assert (n - 1) * pieceLength == n * pieceLength - pieceLength;
  }

  // A file's entry has its length under "length"; symbolic links are refused however they are marked.
  lemma LengthIsDeclared(entry: seq<Pair>, n: nat)
    ensures FileSize(entry) == Some(n)
       <==> Get(entry, Ascii("length")) == Some(Int(n)) && Get(entry, Ascii("symlink path")).None?
            && (Get(entry, Ascii("attr")).None?
                || (Get(entry, Ascii("attr")).value.Str?
                    && forall c <- Get(entry, Ascii("attr")).value.s :: c != 'l' as int))
  {
    hide Get;
  }

  // So the size that is reported for a version-1 torrent is the sum of the lengths its entries declare.
  lemma DeclaredLengths(info: seq<Pair>, leaves: seq<Leaf>)
    requires ValidV1(info, leaves)
    ensures match Get(info, Ascii("length"))
            case Some(_) => |leaves| == 1 && Get(info, Ascii("length")) == Some(Int(leaves[0].length))
            case None =>
              Get(info, Ascii("files")).Some? && Get(info, Ascii("files")).value.List?
              && var items := Get(info, Ascii("files")).value.items;
                 |leaves| == |items|
                 && forall i :: 0 <= i < |items| ==>
                      items[i].Dict? && Get(items[i].pairs, Ascii("length")) == Some(Int(leaves[i].length))
  {
    hide FileSize, Get, IsPath, PathFrom;
    if Get(info, Ascii("length")).Some? {
      LengthIsDeclared(info, leaves[0].length);
    } else {
      var items := Get(info, Ascii("files")).value.items;
      forall i | 0 <= i < |items|
        ensures items[i].Dict? && Get(items[i].pairs, Ascii("length")) == Some(Int(leaves[i].length))
      {
        assert ValidEntry(items[i]) && leaves[i] == EntryLeaf(items[i]);
        LengthIsDeclared(items[i].pairs, leaves[i].length);
      }
    }
  }

  // An accepted version-1 list names every file once, none inside another, with exactly the
  // hashes its pieces need: the last piece is started and nothing is left over.
  lemma AcceptedV1(info: seq<Pair>, leaves: seq<Leaf>) returns (hashes: nat)
    requires ValidV1(info, leaves)
    ensures PrefixFree(leaves)
    ensures |Get(info, Ascii("pieces")).value.s| == 20 * hashes
    ensures TotalLength(leaves) <= hashes * PieceLength(info).value
    ensures hashes > 0 ==> (hashes - 1) * PieceLength(info).value < TotalLength(leaves)
  {
    var pieceLength := PieceLength(info).value;
    hashes := (TotalLength(leaves) + pieceLength - 1) / pieceLength;
    CeilingPieces(TotalLength(leaves), pieceLength, hashes);
    forall i, j | 0 <= i < |leaves| && 0 <= j < |leaves| && i != j
      ensures !(leaves[i].path <= leaves[j].path)
    {
      assert leaves[i] in leaves && leaves[j] in leaves && leaves[i].path != leaves[j].path;
      assert leaves[i].path in PathsOf(leaves) && leaves[j].path in PathsOf(leaves);
      assert leaves[i].path != [] by {
        if Get(info, Ascii("length")).None? { assert ValidEntry(Get(info, Ascii("files")).value.items[i]); }
      }
    }
  }

  // So does an accepted version-2 tree, without any check of its own, and it declares a file.
  lemma AcceptedV2(info: seq<Pair>, leaves: seq<Leaf>, depth: nat) returns (k: nat)
    requires ValidV2(info, leaves) && Fits(Dict(info), depth)
    ensures PrefixFree(leaves) && Distinct(leaves) && leaves != []
    ensures PieceLength(info) == Some(Pow2(k)) && Pow2(k) >= 16384
  {
    var tree := Get(info, Ascii("file tree")).value.pairs;
    GetFits(info, depth, Ascii("file tree"));
    TreeIsPrefixFree(tree, depth + 1);
    DirectoriesHoldFiles(tree, []);
    k := NoLowerBitsIsPower(PieceLength(info).value);
  }

  // ---------- accepted paths stay inside ----------

  const SLASH: Byte := 47
  const BACKSLASH: Byte := 92

  // The path as text, and the way a file system reads it back, with either kind of slash.
  function JoinedPath(path: Path): Bytes {
    if path == [] then []
    else if |path| == 1 then path[0]
    else JoinedPath(path[..|path| - 1]) + [SLASH] + path[|path| - 1]
  }

  function SplitPath(s: Bytes): Path {
    if s == [] then [[]]
    else
      var front, last := SplitPath(s[..|s| - 1]), s[|s| - 1];
      if front == [] then []
      else if last == SLASH || last == BACKSLASH then front + [[]]
      else front[..|front| - 1] + [front[|front| - 1] + [last]]
  }

  predicate NoSlash(s: Bytes) { SLASH !in s && BACKSLASH !in s }

  lemma {:induction false} SplitOne(s: Bytes)
    requires NoSlash(s)
    ensures SplitPath(s) == [s]
  {
    if s != [] {
      var front, last := s[..|s| - 1], s[|s| - 1];
      assert last in s && s == front + [last];
      SplitOne(front);
      var one: Path := [front];
      assert one[..0] == [] && one[0] == front;
    }
  }

  lemma {:induction false} SplitLast(a: Bytes, s: Bytes)
    requires NoSlash(s)
    ensures SplitPath(a) != []
    ensures SplitPath(a + [SLASH] + s) == SplitPath(a) + [s]
  {
    SplitIsSome(a);
    var all := a + [SLASH] + s;
    if s == [] {
      assert all == a + [SLASH] && all[..|all| - 1] == a;
    } else {
      var front := s[..|s| - 1];
      assert all[..|all| - 1] == a + [SLASH] + front && s == front + [s[|s| - 1]];
      SplitLast(a, front);
      assert s[|s| - 1] in s;
      var split := SplitPath(a) + [front];
      assert split[..|split| - 1] == SplitPath(a);
    }
  }

  lemma {:induction false} SplitIsSome(s: Bytes)
    ensures SplitPath(s) != []
  {
    if s != [] { SplitIsSome(s[..|s| - 1]); }
  }

  lemma {:induction false} SplitOfJoined(path: Path)
    requires path != [] && forall c <- path :: NoSlash(c)
    ensures SplitPath(JoinedPath(path)) == path
  {
    var front, last := path[..|path| - 1], path[|path| - 1];
    assert last in path;
    if |path| == 1 {
      SplitOne(last);
    } else {
      SplitOfJoined(front);
      SplitLast(JoinedPath(front), last);
      assert path == front + [last];
    }
  }

  // Read back as text, the path has the same components; none is empty, the directory itself or its parent, none
  // holds a zero byte, and none begins like a drive.
  predicate StaysInside(path: Path) {
    SplitPath(JoinedPath(path)) == path
    && forall c <- path :: c != [] && c != Ascii(".") && c != Ascii("..") && 0 !in c && !(|c| > 1 && c[1] == ':' as int)
  }

  predicate AllComponents(path: Path) { forall c <- path :: Component(c) }

  lemma ComponentsStayInside(path: Path)
    requires path != [] && AllComponents(path)
    ensures StaysInside(path)
  {
    assert forall c <- path :: Component(c) && NoSlash(c);
    SplitOfJoined(path);
  }

  lemma EntryIsInside(entry: Value)
    requires ValidEntry(entry)
    ensures StaysInside(EntryLeaf(entry).path)
  {
    var v := Get(entry.pairs, Ascii("path")).value;
    forall c <- PathFrom(v)
      ensures Component(c)
    {
      var i :| 0 <= i < |v.items| && v.items[i].s == c;
      assert IsComponent(Some(v.items[i]));
    }
    ComponentsStayInside(PathFrom(v));
  }

  // The same for the name in UTF-8, if there is one.
  lemma Utf8PathIsInside(entry: Value)
    requires ValidEntry(entry) && Get(entry.pairs, Ascii("path.utf-8")).Some?
    ensures IsPath(Get(entry.pairs, Ascii("path.utf-8")))
            && StaysInside(PathFrom(Get(entry.pairs, Ascii("path.utf-8")).value))
  {
    var v := Get(entry.pairs, Ascii("path.utf-8")).value;
    forall c <- PathFrom(v)
      ensures Component(c)
    {
      var i :| 0 <= i < |v.items| && v.items[i].s == c;
      assert IsComponent(Some(v.items[i]));
    }
    ComponentsStayInside(PathFrom(v));
  }

  // Every file of an accepted tree has a description of its length, and of its root hash unless it is empty.
  lemma {:induction false} LeafHasRoot(branch: seq<Pair>, path: Path, leaf: Leaf) returns (file: seq<Pair>)
    requires ValidTree(branch, path) && leaf in Leaves(branch, path)
    ensures Get(file, Ascii("length")) == Some(Int(leaf.length))
    ensures leaf.length > 0 ==>
              Get(file, Ascii("pieces root")).Some? && Get(file, Ascii("pieces root")).value.Str?
              && |Get(file, Ascii("pieces root")).value.s| == 32
    decreases branch
  {
    LeavesAreUnder(branch, path, leaf);
    var i :| 0 <= i < |branch| && leaf in LeavesOf(branch[i], path);
    var p := branch[i];
    assert ValidChild(p, |branch|, path);
    hide Get;
    if p.key == [] {
      file := p.value.pairs;
      LengthIsDeclared(file, leaf.length);
    } else {
      file := LeafHasRoot(p.value.pairs, path + [p.key], leaf);
    }
  }

  lemma {:induction false} TreeHasComponents(branch: seq<Pair>, path: Path, leaf: Leaf)
    requires ValidTree(branch, path) && AllComponents(path) && leaf in Leaves(branch, path)
    ensures AllComponents(leaf.path) && leaf.path != []
    decreases branch
  {
    LeavesAreUnder(branch, path, leaf);
    var i :| 0 <= i < |branch| && leaf in LeavesOf(branch[i], path);
    var p := branch[i];
    assert ValidChild(p, |branch|, path);
    if p.key != [] {
      assert forall c <- path + [p.key] :: c in path || c == p.key;
      TreeHasComponents(p.value.pairs, path + [p.key], leaf);
    }
  }

  // Whatever the upload declares, the paths of its files lead to places inside the torrent's directory; a single
  // file of version 1 has no path of its own but the torrent's name, which is one safe component.
  lemma AcceptedPathsStayInside(info: seq<Pair>, v1: Option<seq<Leaf>>, v2: Option<seq<Leaf>>)
    requires Describes(info, v1, v2)
    ensures v1.Some? ==> forall leaf <- v1.value :: leaf.path == [] || StaysInside(leaf.path)
    ensures v2.Some? ==> forall leaf <- v2.value :: StaysInside(leaf.path)
    ensures Get(info, Ascii("name")).Some? && Get(info, Ascii("name")).value.Str?
            && StaysInside([Get(info, Ascii("name")).value.s])
    ensures Get(info, Ascii("name.utf-8")).Some? ==>
              Get(info, Ascii("name.utf-8")).value.Str? && StaysInside([Get(info, Ascii("name.utf-8")).value.s])
  {
    hide Get, StaysInside, Component, ReportedSize, PieceLength;
    var name := Get(info, Ascii("name")).value.s;
    ComponentsStayInside([name]);
    if Get(info, Ascii("name.utf-8")).Some? { ComponentsStayInside([Get(info, Ascii("name.utf-8")).value.s]); }
    if v1.Some? {
      forall leaf <- v1.value
        ensures leaf.path == [] || StaysInside(leaf.path)
      {
        if Get(info, Ascii("length")).None? {
          var items := Get(info, Ascii("files")).value.items;
          var i :| 0 <= i < |items| && leaf == EntryLeaf(items[i]);
          EntryIsInside(items[i]);
        }
      }
    }
    if v2.Some? {
      forall leaf <- v2.value
        ensures StaysInside(leaf.path)
      {
        TreeHasComponents(Get(info, Ascii("file tree")).value.pairs, [], leaf);
        ComponentsStayInside(leaf.path);
      }
    }
  }

  // The numbers of an accepted upload are what the specifications of both versions allow.
  lemma AcceptedNumbers(info: seq<Pair>, v1: Option<seq<Leaf>>, v2: Option<seq<Leaf>>)
    requires Describes(info, v1, v2)
    ensures exists n: nat :: n > 0 && Get(info, Ascii("piece length")) == Some(Int(n))
    ensures Get(info, Ascii("private")) in {None, Some(Int(0)), Some(Int(1))}
    ensures v1.Some? <==> Get(info, Ascii("pieces")).Some?
    ensures v2.Some? <==> Get(info, Ascii("meta version")) == Some(Int(2))
    ensures v2.None? ==> Get(info, Ascii("meta version")).None?
    ensures v1.Some? ==> TotalLength(v1.value) < 0x8000_0000_0000_0000
    ensures v1.None? && v2.Some? ==> TotalLength(v2.value) < 0x8000_0000_0000_0000
  {
    hide Get, ValidV1, ValidV2, SafeName, TotalLength;
    assert PieceLength(info).Some?;
  }
}
