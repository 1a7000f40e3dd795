// What a payload contains, and whether two files hold the same bytes.
module CopyComparison {
  import opened ByteStrings
  import opened Options

  // ---------- snapshots and comparison ----------

  type Path = seq<string>

  datatype Info = Info(directory: bool, size: nat, device: int, inode: int, mtime: int, ctime: int)

  // Anything but a directory or a regular file is `Special`.
  datatype Node = RegularFile(info: Info) | Folder(info: Info, children: seq<Child>) | Special
  datatype Child = Child(name: string, node: Node)

  function AsFile(info: Info): Info { info.(directory := false) }

  function AsDirectory(info: Info): Info { info.(directory := true, size := 0) }

  function Snapshots(node: Node, path: Path): set<(Path, Info)>
    decreases node
  {
    match node
    case RegularFile(info) => {(path, AsFile(info))}
    case Folder(info, children) => {(path, AsDirectory(info))} + SnapshotsOf(children, path)
    case Special => {}
  }

  function SnapshotsOf(children: seq<Child>, path: Path): set<(Path, Info)>
    decreases children
  {
    if children == [] then {}
    else SnapshotsOf(children[1..], path) + SnapshotsOfChild(children[0], path)
  }

  function SnapshotsOfChild(child: Child, path: Path): set<(Path, Info)>
    decreases child
  {
    Snapshots(child.node, path + [child.name])
  }

  predicate Copyable(node: Node)
    decreases node
  {
    match node
    case RegularFile(_) => true
    case Folder(_, children) => forall i :: 0 <= i < |children| ==> CopyableChild(children[i])
    case Special => false
  }

  predicate CopyableChild(child: Child)
    decreases child
  {
    Copyable(child.node)
  }

  function Size(node: Node): nat
    decreases node
  {
    match node case Folder(_, children) => 1 + SizeOf(children) case _ => 1
  }

  function SizeOf(children: seq<Child>): nat
    decreases children
  {
    if children == [] then 0 else SizeOf(children[1..]) + SizeOfChild(children[0])
  }

  function SizeOfChild(child: Child): nat
    decreases child
  {
    Size(child.node)
  }

  // No two children of a folder have the same name.
  predicate ProperNames(node: Node)
    decreases node
  {
    node.Folder? ==>
      (forall i, j :: 0 <= i < j < |node.children| ==> node.children[i].name != node.children[j].name)
      && forall i :: 0 <= i < |node.children| ==> ProperChild(node.children[i])
  }

  predicate ProperChild(child: Child)
    decreases child
  {
    ProperNames(child.node)
  }

  lemma {:induction false} InOneChild(children: seq<Child>, path: Path, s: (Path, Info)) returns (i: nat)
    requires s in SnapshotsOf(children, path)
    ensures i < |children| && s in Snapshots(children[i].node, path + [children[i].name])
    decreases children
  {
    if s in SnapshotsOfChild(children[0], path) {
      i := 0;
    } else {
      i := InOneChild(children[1..], path, s);
      i := i + 1;
    }
  }

  // Every entry lies at or below the path; a folder counts without the size of its own listing.
  lemma {:induction false} SnapshotIsBelow(node: Node, path: Path, s: (Path, Info))
    requires s in Snapshots(node, path)
    ensures path <= s.0 && (s.1.directory ==> s.1.size == 0)
    ensures s.0 == path ==> !node.Special? && s.1 == if node.Folder? then node.info.(directory := true, size := 0)
                                                     else node.info.(directory := false)
    decreases node
  {
    if node.Folder? && s in SnapshotsOf(node.children, path) {
      var i := InOneChild(node.children, path, s);
      SnapshotIsBelow(node.children[i].node, path + [node.children[i].name], s);
    }
  }

  // A snapshot says one thing of each path.
  lemma {:induction false} SnapshotIsFunction(node: Node, path: Path, a: (Path, Info), b: (Path, Info))
    requires ProperNames(node) && a in Snapshots(node, path) && b in Snapshots(node, path) && a.0 == b.0
    ensures a == b
    decreases node
  {
    SnapshotIsBelow(node, path, a);
    SnapshotIsBelow(node, path, b);
    if a.0 != path {
      var i := InOneChild(node.children, path, a);
      var j := InOneChild(node.children, path, b);
      var p, q := path + [node.children[i].name], path + [node.children[j].name];
      SnapshotIsBelow(node.children[i].node, p, a);
      SnapshotIsBelow(node.children[j].node, q, b);
      assert a.0[|path|] == p[|path|] == q[|path|];
      assert ProperChild(node.children[i]);
      SnapshotIsFunction(node.children[i].node, p, a, b);
    }
  }

  datatype Todo = Todo(path: Path, node: Node)

  function Pending(todo: seq<Todo>): set<(Path, Info)> {
    if todo == [] then {} else Pending(todo[..|todo| - 1]) + Snapshots(todo[|todo| - 1].node, todo[|todo| - 1].path)
  }

  function PendingSize(todo: seq<Todo>): nat {
    if todo == [] then 0 else PendingSize(todo[..|todo| - 1]) + Size(todo[|todo| - 1].node)
  }

  predicate PendingCopyable(todo: seq<Todo>) { forall t <- todo :: Copyable(t.node) }

  function Below(children: seq<Child>, path: Path): seq<Todo> {
    if children == [] then [] else [Todo(path + [children[0].name], children[0].node)] + Below(children[1..], path)
  }

  lemma {:induction false} PendingConcat(a: seq<Todo>, b: seq<Todo>)
    ensures Pending(a + b) == Pending(a) + Pending(b) && PendingSize(a + b) == PendingSize(a) + PendingSize(b)
  {
    if b == [] {
      assert a + b == a;
    } else {
      assert (a + b)[..|a + b| - 1] == a + b[..|b| - 1];
      PendingConcat(a, b[..|b| - 1]);
    }
  }

  lemma CopyableConcat(a: seq<Todo>, b: seq<Todo>)
    ensures PendingCopyable(a + b) <==> PendingCopyable(a) && PendingCopyable(b)
  {
    assert forall t :: t in a + b <==> t in a || t in b;
  }

  lemma {:induction false} PendingBelow(children: seq<Child>, path: Path)
    ensures Pending(Below(children, path)) == SnapshotsOf(children, path)
    ensures PendingSize(Below(children, path)) == SizeOf(children)
    ensures PendingCopyable(Below(children, path)) <==> forall i :: 0 <= i < |children| ==> CopyableChild(children[i])
    decreases children
  {
    if children != [] {
      var first, rest := [Todo(path + [children[0].name], children[0].node)], Below(children[1..], path);
      PendingBelow(children[1..], path);
      PendingConcat(first, rest);
      assert first[..0] == [];
      assert Pending(first) == Pending([]) + Snapshots(children[0].node, path + [children[0].name]);
      assert PendingSize(first) == PendingSize([]) + Size(children[0].node);
      assert forall i :: 0 <= i < |children[1..]| ==> children[1..][i] == children[i + 1];
      CopyableConcat(first, rest);
    }
  }

  datatype Refused = NotCopyable

  // The worklist: the last path is taken first, and a directory adds its entries.
  method Snapshot(root: Node) returns (r: Result<set<(Path, Info)>, Refused>)
    ensures r.Ok? <==> Copyable(root)
    ensures r.Ok? ==> r.value == Snapshots(root, [])
  {
    hide Snapshots, SnapshotsOf, Size;
    var result: set<(Path, Info)> := {};
    var todo := [Todo([], root)];
    OneTodo(root);
    while todo != []
      invariant result + Pending(todo) == Snapshots(root, [])
      invariant PendingCopyable(todo) <==> Copyable(root)
      decreases PendingSize(todo)
    {
      var next, rest := todo[|todo| - 1], todo[..|todo| - 1];
      assert todo == rest + [next];
      CopyableConcat(rest, [next]);
      SnapshotsUnfold(next.node, next.path);
      match next.node {
        case Special => return Err(NotCopyable);
        case RegularFile(info) =>
          result := result + {(next.path, AsFile(info))};
          todo := rest;
        case Folder(info, children) =>
          PendingBelow(children, next.path);
          PendingConcat(rest, Below(children, next.path));
          CopyableConcat(rest, Below(children, next.path));
          result := result + {(next.path, AsDirectory(info))};
          todo := rest + Below(children, next.path);
      }
    }
    return Ok(result);
  }

  lemma OneTodo(root: Node)
    ensures Pending([Todo([], root)]) == Snapshots(root, [])
  {
    assert [Todo([], root)][..0] == [];
  }

  lemma SnapshotsUnfold(node: Node, path: Path)
    ensures node.RegularFile? ==> Snapshots(node, path) == {(path, AsFile(node.info))} && Size(node) == 1
    ensures node.Folder? ==>
              Snapshots(node, path) == {(path, AsDirectory(node.info))} + SnapshotsOf(node.children, path)
              && Size(node) == 1 + SizeOf(node.children)
    ensures node.Special? ==> Snapshots(node, path) == {}
  {}

  const CHUNK: nat := 1024 * 1024

  function Shorter(a: nat, b: nat): nat { if a < b then a else b }

  // Both files are read to the end in equal chunks.
  method SameFileBytes(left: Bytes, right: Bytes) returns (same: bool)
    ensures same <==> left == right
  {
    var at := 0;
    while true
      invariant at <= |left| && at <= |right| && left[..at] == right[..at]
      decreases |left| - at
    {
      var chunk := left[at..Shorter(at + CHUNK, |left|)];
      var other := right[at..Shorter(at + CHUNK, |right|)];
      if chunk != other {
        assert left == right ==> chunk == other;
        return false;
      }
      if chunk == [] {
        assert at == |left| && at == |right|;
        assert left[..at] == left && right[..at] == right;
        return true;
      }
      assert left[..at + |chunk|] == left[..at] + chunk && right[..at + |chunk|] == right[..at] + other;
      at := at + |chunk|;
    }
  }
}
