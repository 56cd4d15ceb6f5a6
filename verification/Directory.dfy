/** Directories as maps (dirlookup, dirlink of fs.c), and the link counts that create,
    link and unlink of sysfile.c keep. Inodes and records are numbered; inum 0 is a free record. */
module Directory {
  import opened Common
  import opened Names

  datatype Dirent = Dirent(inum: nat, name: seq<char>)

  datatype Kind = Free | Dir | File | Dev

  datatype Node = Node(kind: Kind, nlink: nat, ents: seq<Dirent>)

  // ---- one directory ----

  predicate Entry(e: Dirent, key: string) { e.inum != 0 && NameKey(e.name) == key }

  /** The directory as a map: where key leads. */
  function Find(ents: seq<Dirent>, key: string): Option<nat>
  {
    if ents == [] then None
    else if Entry(ents[0], key) then Some(ents[0].inum)
    else Find(ents[1..], key)
  }

  lemma {:induction false} FindAt(ents: seq<Dirent>, key: string, k: nat)
    requires k < |ents| && Entry(ents[k], key) && forall j | 0 <= j < k :: !Entry(ents[j], key)
    ensures Find(ents, key) == Some(ents[k].inum)
  {
    if k > 0 {
      assert !Entry(ents[0], key);
      FindAt(ents[1..], key, k - 1);
    }
  }

  lemma {:induction false} FindNone(ents: seq<Dirent>, key: string)
    ensures Find(ents, key) == None <==> forall j | 0 <= j < |ents| :: !Entry(ents[j], key)
  {
    if ents != [] {
      FindNone(ents[1..], key);
      assert forall j | 1 <= j < |ents| :: ents[j] == ents[1..][j - 1];
    }
  }

  /** No name twice. */
  ghost predicate Distinct(ents: seq<Dirent>)
  {
    forall j, k {:trigger ents[j], ents[k]} | 0 <= j < k < |ents| && ents[j].inum != 0 && ents[k].inum != 0 ::
      NameKey(ents[j].name) != NameKey(ents[k].name)
  }

  function Put(ents: seq<Dirent>, k: nat, e: Dirent): seq<Dirent>
    requires k <= |ents|
  {
    if k < |ents| then ents[k := e] else ents + [e]
  }

  /** Where dirlink puts a new record. */
  predicate FreeSlot(ents: seq<Dirent>, k: nat)
  {
    k <= |ents| && (k < |ents| ==> ents[k].inum == 0)
  }

  /** A new record is found under its name, every other name leads where it did, and no
      name is there twice. */
  lemma PutFind(ents: seq<Dirent>, k: nat, e: Dirent, key: string)
    requires Distinct(ents) && FreeSlot(ents, k) && e.inum != 0 && Find(ents, NameKey(e.name)) == None
    ensures Distinct(Put(ents, k, e))
    ensures Find(Put(ents, k, e), key) == if key == NameKey(e.name) then Some(e.inum) else Find(ents, key)
  {
    var ents' := Put(ents, k, e);
    FindNone(ents, NameKey(e.name));
    FindNone(ents, key);
    FindNone(ents', key);
    if key == NameKey(e.name) {
      FindAt(ents', key, k);
    } else if Find(ents, key) != None {
      var j := FirstEntry(ents, key);
      assert forall m | 0 <= m < j :: ents'[m] == ents[m] || m == k;
      FindAt(ents', key, j);
      FindAt(ents, key, j);
    }
  }

  lemma {:induction false} FirstEntry(ents: seq<Dirent>, key: string) returns (k: nat)
    requires Find(ents, key) != None
    ensures k < |ents| && Entry(ents[k], key) && forall j | 0 <= j < k :: !Entry(ents[j], key)
  {
    if Entry(ents[0], key) {
      k := 0;
    } else {
      var m := FirstEntry(ents[1..], key);
      k := m + 1;
      assert forall j | 0 < j < k :: ents[j] == ents[1..][j - 1];
    }
  }

  // ---- link counts ----

  predicate Live(n: Node) { n.kind == Dir && n.nlink > 0 }

  /** Record k of live directory d names an inode, other than as ".". */
  predicate Ref(nodes: seq<Node>, d: nat, k: nat)
  {
    && d < |nodes| && Live(nodes[d]) && k < |nodes[d].ents|
    && nodes[d].ents[k].inum != 0 && NameKey(nodes[d].ents[k].name) != "."
  }

  function Target(nodes: seq<Node>, d: nat, k: nat): nat
    requires Ref(nodes, d, k)
  {
    nodes[d].ents[k].inum
  }

  /** The records that name inode i. */
  ghost function Refs(nodes: seq<Node>, i: nat): set<(nat, nat)>
  {
    set d, k | 0 <= d < |nodes| && 0 <= k < |nodes[d].ents| && Ref(nodes, d, k) && Target(nodes, d, k) == i :: (d, k)
  }

  ghost predicate NodeOk(nodes: seq<Node>, d: nat)
    requires d < |nodes|
  {
    var n := nodes[d];
    && n.nlink == |Refs(nodes, d)|
    && (n.kind == Free ==> n.nlink == 0)
    && (n.kind != Dir ==> n.ents == [])
    && (Live(n) ==> DirOk(nodes, d))
  }

  /** "." and ".." come first; the records name inodes that exist. */
  ghost predicate DirOk(nodes: seq<Node>, d: nat)
    requires d < |nodes|
  {
    var ents := nodes[d].ents;
    && 0 < d && |ents| >= 2 && Entry(ents[0], ".") && ents[0].inum == d && Entry(ents[1], "..")
    && ents[1].inum < |nodes| && Live(nodes[ents[1].inum])
    && Distinct(ents) && forall k | 0 <= k < |ents| :: ents[k].inum < |nodes|
  }

  function Parent(nodes: seq<Node>, d: nat): nat
    requires d < |nodes| && |nodes[d].ents| >= 2
  {
    nodes[d].ents[1].inum
  }

  /** A record, not "." or "..", that names a directory is in that directory's parent. */
  ghost predicate ChildOk(nodes: seq<Node>, root: nat, d: nat, k: nat)
  {
    Ref(nodes, d, k) && k >= 2 && Target(nodes, d, k) < |nodes| && nodes[Target(nodes, d, k)].kind == Dir ==>
      var s := Target(nodes, d, k);
      s != root && |nodes[s].ents| >= 2 && Parent(nodes, s) == d
      && forall l | 2 <= l < |nodes[d].ents| && l != k :: nodes[d].ents[l].inum != s
  }

  /** Every directory but the root has such a record. */
  ghost predicate HasParent(nodes: seq<Node>, root: nat, d: nat)
    requires d < |nodes|
  {
    Live(nodes[d]) && |nodes[d].ents| >= 2 && d != root ==>
      exists k | 2 <= k :: Ref(nodes, Parent(nodes, d), k) && Target(nodes, Parent(nodes, d), k) == d
  }

  /** Every link count is the number of records that name the inode. */
  ghost predicate Inv(nodes: seq<Node>, root: nat)
  {
    && root < |nodes| && Live(nodes[root]) && |nodes[root].ents| >= 2 && Parent(nodes, root) == root
    && (forall d | 0 <= d < |nodes| :: NodeOk(nodes, d))
    && (forall d: nat, k: nat {:trigger Ref(nodes, d, k)} :: ChildOk(nodes, root, d, k))
    && (forall d | 0 <= d < |nodes| :: HasParent(nodes, root, d))
  }

  /** A record appears in live directory d. */
  lemma AddRef(nodes: seq<Node>, d: nat, k: nat, e: Dirent, i: nat)
    requires d < |nodes| && Live(nodes[d]) && FreeSlot(nodes[d].ents, k) && e.inum != 0 && NameKey(e.name) != "."
    ensures var nodes' := nodes[d := nodes[d].(ents := Put(nodes[d].ents, k, e))];
            && (d, k) !in Refs(nodes, i)
            && Refs(nodes', i) == Refs(nodes, i) + (if e.inum == i then {(d, k)} else {})
  {
    var nodes' := nodes[d := nodes[d].(ents := Put(nodes[d].ents, k, e))];
    forall c: nat, m: nat
      ensures (c, m) in Refs(nodes', i) <==> (c, m) in Refs(nodes, i) || (e.inum == i && c == d && m == k) {
      assert c != d ==> Ref(nodes', c, m) == Ref(nodes, c, m);
      assert c == d && m != k ==> Ref(nodes', c, m) == Ref(nodes, c, m);
    }
  }

  /** The record goes. */
  lemma DropRef(nodes: seq<Node>, d: nat, k: nat, e: Dirent, i: nat)
    requires Ref(nodes, d, k) && e.inum == 0
    ensures var nodes' := nodes[d := nodes[d].(ents := nodes[d].ents[k := e])];
            Refs(nodes', i) == Refs(nodes, i) - {(d, k)}
  {
    var nodes' := nodes[d := nodes[d].(ents := nodes[d].ents[k := e])];
    forall c: nat, m: nat ensures (c, m) in Refs(nodes', i) <==> (c, m) in Refs(nodes, i) && !(c == d && m == k) {
      assert c != d ==> Ref(nodes', c, m) == Ref(nodes, c, m);
      assert c == d && m != k ==> Ref(nodes', c, m) == Ref(nodes, c, m);
    }
  }

  /** Counts change, but no directory dies. */
  lemma SameRefs(nodes: seq<Node>, d: nat, n: Node, i: nat)
    requires d < |nodes| && n.ents == nodes[d].ents && (Live(n) <==> Live(nodes[d]))
    ensures Refs(nodes[d := n], i) == Refs(nodes, i)
  {
    var nodes' := nodes[d := n];
    forall c: nat, m: nat ensures (c, m) in Refs(nodes', i) <==> (c, m) in Refs(nodes, i) {
      assert Ref(nodes', c, m) == Ref(nodes, c, m);
    }
  }

  // ---- what an operation does to the inodes ----

  /** link, and create of a file or device: inode i gets record k of d, and a link more. */
  function Linked(nodes: seq<Node>, d: nat, k: nat, name: seq<char>, i: nat, kind: Kind): (r: seq<Node>)
    requires d < |nodes| && i < |nodes| && k <= |nodes[d].ents|
    ensures |r| == |nodes|
  {
    nodes[d := nodes[d].(ents := Put(nodes[d].ents, k, Dirent(i, name)))][i := Node(kind, nodes[i].nlink + 1,
        nodes[i].ents)]
  }

  predicate IsPlain(kind: Kind) { kind == File || kind == Dev }

  /** create of a directory. */
  function Made(nodes: seq<Node>, d: nat, k: nat, name: seq<char>, i: nat, dots: seq<Dirent>): (r: seq<Node>)
    requires d < |nodes| && i < |nodes| && k <= |nodes[d].ents|
    ensures |r| == |nodes|
  {
    nodes[d := Node(Dir, nodes[d].nlink + 1, Put(nodes[d].ents, k, Dirent(i, name)))][i := Node(Dir, 1, dots)]
  }

  /** unlink of record k of d. */
  function Unlinked(nodes: seq<Node>, d: nat, k: nat, e: Dirent): (r: seq<Node>)
    requires d < |nodes| && k < |nodes[d].ents| && nodes[d].ents[k].inum < |nodes|
    requires nodes[nodes[d].ents[k].inum].nlink > 0 && nodes[d].nlink > 0
    ensures |r| == |nodes|
  {
    var i := nodes[d].ents[k].inum;
    var n := nodes[d].(ents := nodes[d].ents[k := e], nlink := nodes[d].nlink - if nodes[i].kind == Dir then 1 else 0);
    var nodes1 := nodes[d := n];
    nodes1[i := nodes1[i].(nlink := nodes[i].nlink - 1)]
  }

  /** In directory d the name leads to inode i, which has a link more. Every other name leads
      where it did, and nothing else changes. */
  ghost predicate GainsLink(nodes: seq<Node>, nodes': seq<Node>, d: nat, key: string, i: nat)
  {
    && |nodes'| == |nodes| && d < |nodes| && i < |nodes| && d != i
    && nodes'[i] == nodes[i].(nlink := nodes[i].nlink + 1)
    && nodes'[d].kind == nodes[d].kind && nodes'[d].nlink == nodes[d].nlink
    && Find(nodes'[d].ents, key) == Some(i)
    && (forall other | other != key :: Find(nodes'[d].ents, other) == Find(nodes[d].ents, other))
    && forall x | 0 <= x < |nodes| && x != d && x != i :: nodes'[x] == nodes[x]
  }

  lemma LinkedGains(nodes: seq<Node>, root: nat, d: nat, k: nat, name: seq<char>, i: nat)
    requires Inv(nodes, root) && d < |nodes| && Live(nodes[d]) && FreeSlot(nodes[d].ents, k)
    requires 0 < i < |nodes| && nodes[i].kind != Dir && Find(nodes[d].ents, NameKey(name)) == None
    ensures GainsLink(nodes, Linked(nodes, d, k, name, i, nodes[i].kind), d, NameKey(name), i)
  {
    hide Inv, Find;
    LiveShape(nodes, root, d);
    forall key ensures Find(Put(nodes[d].ents, k, Dirent(i, name)), key)
                       == if key == NameKey(name) then Some(i) else Find(nodes[d].ents, key)
    {
      PutFind(nodes[d].ents, k, Dirent(i, name), key);
    }
  }

  /** In directory d the name is gone, and the inode i it led to has a link less; so has d if
      i is a directory. Every other name leads where it did, and nothing else changes. */
  ghost predicate LosesLink(nodes: seq<Node>, nodes': seq<Node>, d: nat, key: string, i: nat)
  {
    && |nodes'| == |nodes| && d < |nodes| && i < |nodes| && d != i && Find(nodes[d].ents, key) == Some(i)
    && nodes[i].nlink > 0 && nodes'[i] == nodes[i].(nlink := nodes[i].nlink - 1)
    && nodes'[d].kind == nodes[d].kind
    && nodes'[d].nlink == nodes[d].nlink - (if nodes[i].kind == Dir then 1 else 0)
    && Find(nodes'[d].ents, key) == None
    && (forall other | other != key :: Find(nodes'[d].ents, other) == Find(nodes[d].ents, other))
    && forall x | 0 <= x < |nodes| && x != d && x != i :: nodes'[x] == nodes[x]
  }

  lemma UnlinkedLoses(nodes: seq<Node>, d: nat, k: nat, e: Dirent, key: string)
    requires d < |nodes| && Live(nodes[d]) && Distinct(nodes[d].ents) && k < |nodes[d].ents| && e.inum == 0
    requires Entry(nodes[d].ents[k], key) && nodes[d].ents[k].inum < |nodes| && nodes[d].ents[k].inum != d
    requires nodes[nodes[d].ents[k].inum].nlink > 0
    ensures LosesLink(nodes, Unlinked(nodes, d, k, e), d, key, nodes[d].ents[k].inum)
  {
    hide Find;
    var ents := nodes[d].ents;
    FindAt(ents, key, k);
    forall other ensures Find(ents[k := e], other) == if other == key then None else Find(ents, other) {
      DropFind(ents, k, e, other);
    }
  }

  /** A record goes, and with it its name. */
  lemma DropFind(ents: seq<Dirent>, k: nat, e: Dirent, key: string)
    requires Distinct(ents) && k < |ents| && ents[k].inum != 0 && e.inum == 0
    ensures Find(ents[k := e], key) == if Entry(ents[k], key) then None else Find(ents, key)
  {
    var ents' := ents[k := e];
    FindNone(ents, key);
    FindNone(ents', key);
    if !Entry(ents[k], key) && Find(ents, key) != None {
      var j := FirstEntry(ents, key);
      FindAt(ents, key, j);
      FindAt(ents', key, j);
    }
  }

  lemma SlotPastDots(nodes: seq<Node>, d: nat, k: nat)
    requires d < |nodes| && Live(nodes[d]) && DirOk(nodes, d) && FreeSlot(nodes[d].ents, k)
    ensures k >= 2
  {
  }

  lemma LinkedInv(nodes: seq<Node>, root: nat, d: nat, k: nat, name: seq<char>, i: nat, kind: Kind)
    requires Inv(nodes, root) && d < |nodes| && Live(nodes[d]) && FreeSlot(nodes[d].ents, k)
    requires 0 < i < |nodes| && nodes[i].kind != Dir && Find(nodes[d].ents, NameKey(name)) == None && IsPlain(kind)
    ensures Inv(Linked(nodes, d, k, name, i, kind), root)
  {
    hide DirOk, Refs, Find, Distinct;
    var nodes' := Linked(nodes, d, k, name, i, kind);
    assert NodeOk(nodes, d) && NodeOk(nodes, i) && NodeOk(nodes, root);
    SlotPastDots(nodes, d, k);
    forall x | 0 <= x < |nodes| ensures NodeOk(nodes', x) {
      assert NodeOk(nodes, x);
      LinkedNode(nodes, d, k, name, i, kind, x);
    }
    forall c: nat, m: nat ensures ChildOk(nodes', root, c, m) {
      assert ChildOk(nodes, root, c, m);
      LinkedChild(nodes, root, d, k, name, i, kind, c, m);
    }
    ParentsKept(nodes, nodes', root);
  }

  lemma LinkedNode(nodes: seq<Node>, d: nat, k: nat, name: seq<char>, i: nat, kind: Kind, x: nat)
    requires d < |nodes| && 0 < i < |nodes| && x < |nodes| && NodeOk(nodes, d) && NodeOk(nodes, i) && NodeOk(nodes, x)
    requires Live(nodes[d]) && FreeSlot(nodes[d].ents, k) && nodes[i].kind != Dir && IsPlain(kind) &&
             Find(nodes[d].ents, NameKey(name)) == None
    ensures NodeOk(Linked(nodes, d, k, name, i, kind), x)
  {
    hide Refs, Find, Distinct;
    var e := Dirent(i, name);
    var nodes1 := nodes[d := nodes[d].(ents := Put(nodes[d].ents, k, e))];
    var nodes' := Linked(nodes, d, k, name, i, kind);
    SlotPastDots(nodes, d, k);
    NotDots(nodes, d, name);
    AddRef(nodes, d, k, e, x);
    SameRefs(nodes1, i, nodes'[i], x);
    PutFind(nodes[d].ents, k, e, NameKey(name));
  }

  /** A name that is not in a directory is neither "." nor "..". */
  lemma NotDots(nodes: seq<Node>, d: nat, name: seq<char>)
    requires d < |nodes| && DirOk(nodes, d) && Find(nodes[d].ents, NameKey(name)) == None
    ensures NameKey(name) != "." && NameKey(name) != ".."
  {
    FindNone(nodes[d].ents, NameKey(name));
  }

  lemma LinkedChild(nodes: seq<Node>, root: nat, d: nat, k: nat, name: seq<char>, i: nat, kind: Kind, c: nat, m: nat)
    requires d < |nodes| && 0 < i < |nodes| && Live(nodes[d]) && FreeSlot(nodes[d].ents, k) && nodes[i].kind != Dir
    requires ChildOk(nodes, root, c, m) && k >= 2 && IsPlain(kind)
    ensures ChildOk(Linked(nodes, d, k, name, i, kind), root, c, m)
  {
    var nodes' := Linked(nodes, d, k, name, i, kind);
    assert Ref(nodes', c, m) ==> (c == d && m == k) || Ref(nodes, c, m);
  }

  /** Records that were there are there. */
  lemma ParentsKept(nodes: seq<Node>, nodes': seq<Node>, root: nat)
    requires Inv(nodes, root) && |nodes'| == |nodes|
    requires forall d | 0 <= d < |nodes| :: Live(nodes'[d]) <==> Live(nodes[d])
    requires forall d | 0 <= d < |nodes| && Live(nodes[d]) ::
               |nodes'[d].ents| >= |nodes[d].ents| && forall k | 0 <= k < |nodes[d].ents| &&
                   nodes[d].ents[k].inum != 0 ::
                 nodes'[d].ents[k] == nodes[d].ents[k]
    ensures forall d | 0 <= d < |nodes| :: HasParent(nodes', root, d)
  {
    forall d | 0 <= d < |nodes| ensures HasParent(nodes', root, d) {
      assert HasParent(nodes, root, d) && NodeOk(nodes, d);
      if Live(nodes[d]) && d != root {
        var k :| 2 <= k && Ref(nodes, Parent(nodes, d), k) && Target(nodes, Parent(nodes, d), k) == d;
        assert Parent(nodes', d) == Parent(nodes, d);
        assert Ref(nodes', Parent(nodes', d), k) && Target(nodes', Parent(nodes', d), k) == d;
      }
    }
  }

  lemma MadeInv(nodes: seq<Node>, root: nat, d: nat, k: nat, name: seq<char>, i: nat, dots: seq<Dirent>)
    requires Inv(nodes, root) && d < |nodes| && Live(nodes[d]) && FreeSlot(nodes[d].ents, k)
    requires 0 < i < |nodes| && nodes[i].kind == Free && Find(nodes[d].ents, NameKey(name)) == None
    requires IsDots(dots, i, d)
    ensures Inv(Made(nodes, d, k, name, i, dots), root)
  {
    hide DirOk, Refs, Find, Distinct, IsDots;
    var nodes' := Made(nodes, d, k, name, i, dots);
    assert NodeOk(nodes, d) && NodeOk(nodes, i) && NodeOk(nodes, root);
    SlotPastDots(nodes, d, k);
    DotsShape(dots, i, d);
    forall x | 0 <= x < |nodes| ensures NodeOk(nodes', x) {
      assert NodeOk(nodes, x);
      MadeNode(nodes, d, k, name, i, dots, x);
    }
    forall c: nat, m: nat ensures ChildOk(nodes', root, c, m) {
      assert ChildOk(nodes, root, c, m);
      MadeChild(nodes, root, d, k, name, i, dots, c, m);
    }
    forall x | 0 <= x < |nodes| ensures HasParent(nodes', root, x) {
      assert HasParent(nodes, root, x) && NodeOk(nodes, x);
      MadeParent(nodes, root, d, k, name, i, dots, x);
    }
  }

  predicate IsDots(dots: seq<Dirent>, i: nat, d: nat)
  {
    |dots| == 2 && dots[0].inum == i && dots[1].inum == d && NameKey(dots[0].name) == "." &&
        NameKey(dots[1].name) == ".."
  }

  lemma DotsShape(dots: seq<Dirent>, i: nat, d: nat)
    requires IsDots(dots, i, d)
    ensures |dots| == 2 && dots[1].inum == d
  {
  }

  lemma MadeNode(nodes: seq<Node>, d: nat, k: nat, name: seq<char>, i: nat, dots: seq<Dirent>, x: nat)
    requires d < |nodes| && 0 < i < |nodes| && x < |nodes| && NodeOk(nodes, d) && NodeOk(nodes, i) && NodeOk(nodes, x)
    requires Live(nodes[d]) && FreeSlot(nodes[d].ents, k) && nodes[i].kind == Free &&
             Find(nodes[d].ents, NameKey(name)) == None
    requires IsDots(dots, i, d)
    ensures NodeOk(Made(nodes, d, k, name, i, dots), x)
  {
    hide Refs, Find, Distinct;
    var e := Dirent(i, name);
    var nodes1 := nodes[d := nodes[d].(ents := Put(nodes[d].ents, k, e))];
    var nodes2 := nodes1[d := Node(Dir, nodes[d].nlink + 1, nodes1[d].ents)];
    var nodes' := Made(nodes, d, k, name, i, dots);
    assert nodes' == nodes2[i := Node(Dir, 1, dots)];
    SlotPastDots(nodes, d, k);
    NotDots(nodes, d, name);
    AddRef(nodes, d, k, e, x);
    SameRefs(nodes1, d, nodes2[d], x);
    DotsRefs(nodes2, i, dots, d, x);
    PutFind(nodes[d].ents, k, e, NameKey(name));
    DotsDistinct(dots, i, d);
  }

  lemma DotsDistinct(dots: seq<Dirent>, i: nat, d: nat)
    requires IsDots(dots, i, d)
    ensures Distinct(dots)
  {
  }

  lemma MadeChild(nodes: seq<Node>, root: nat, d: nat, k: nat, name: seq<char>, i: nat, dots: seq<Dirent>, c: nat,
      m: nat)
    requires Inv(nodes, root) && d < |nodes| && 0 < i < |nodes| && Live(nodes[d]) && FreeSlot(nodes[d].ents, k) &&
             k >= 2
    requires nodes[i].kind == Free && i != root && IsDots(dots, i, d) && ChildOk(nodes, root, c, m)
    ensures ChildOk(Made(nodes, d, k, name, i, dots), root, c, m)
  {
    hide Inv;
    var nodes' := Made(nodes, d, k, name, i, dots);
    Unnamed(nodes, root, i);
    assert Ref(nodes', c, m) ==> (c == d && m == k) || (c == i && m < 2) || Ref(nodes, c, m);
    NotListed(nodes, root, i, d);
  }

  lemma NotListed(nodes: seq<Node>, root: nat, i: nat, d: nat)
    requires Inv(nodes, root) && d < |nodes| && Live(nodes[d]) && 0 < i < |nodes| && nodes[i].kind == Free
    ensures forall l | 2 <= l < |nodes[d].ents| :: nodes[d].ents[l].inum != i
  {
    Unnamed(nodes, root, i);
    assert NodeOk(nodes, d);
    assert forall l | 2 <= l < |nodes[d].ents| && nodes[d].ents[l].inum != 0 :: Ref(nodes, d, l);
  }

  lemma MadeParent(nodes: seq<Node>, root: nat, d: nat, k: nat, name: seq<char>, i: nat, dots: seq<Dirent>, x: nat)
    requires d < |nodes| && 0 < i < |nodes| && x < |nodes| && NodeOk(nodes, d) && NodeOk(nodes, x) &&
             HasParent(nodes, root, x)
    requires Live(nodes[d]) && FreeSlot(nodes[d].ents, k) && nodes[i].kind == Free &&
             Find(nodes[d].ents, NameKey(name)) == None
    requires |dots| == 2 && dots[1].inum == d && k >= 2
    ensures HasParent(Made(nodes, d, k, name, i, dots), root, x)
  {
    var nodes' := Made(nodes, d, k, name, i, dots);
    NotDots(nodes, d, name);
    if x == i {
      assert Parent(nodes', x) == d;
      assert Ref(nodes', Parent(nodes', x), k) && Target(nodes', Parent(nodes', x), k) == x;
    } else if Live(nodes[x]) && x != root {
      var m :| 2 <= m && Ref(nodes, Parent(nodes, x), m) && Target(nodes, Parent(nodes, x), m) == x;
      assert Parent(nodes', x) == Parent(nodes, x) != i;
      assert Ref(nodes', Parent(nodes', x), m) && Target(nodes', Parent(nodes', x), m) == x;
    }
  }

  /** No record names an inode without links. */
  lemma Unnamed(nodes: seq<Node>, root: nat, i: nat)
    requires Inv(nodes, root) && i < |nodes| && (nodes[i].nlink == 0 || nodes[i].kind == Free)
    ensures forall c: nat, m: nat {:trigger Ref(nodes, c, m)} :: Ref(nodes, c, m) ==> Target(nodes, c, m) != i
  {
    assert NodeOk(nodes, i);
    assert Refs(nodes, i) == {};
    assert forall c: nat, m: nat {:trigger Ref(nodes, c, m)} ::
        Ref(nodes, c, m) && Target(nodes, c, m) == i ==> (c, m) in Refs(nodes, i);
  }

  /** A new directory's ".." is a link to its parent; its "." counts for nothing. */
  lemma DotsRefs(nodes: seq<Node>, i: nat, dots: seq<Dirent>, d: nat, x: nat)
    requires i < |nodes| && !Live(nodes[i]) && |dots| == 2 && dots[0].inum == i && dots[1].inum == d && d > 0
    requires NameKey(dots[0].name) == "." && NameKey(dots[1].name) == ".."
    ensures (i, 1) !in Refs(nodes, x)
    ensures Refs(nodes[i := Node(Dir, 1, dots)], x) == Refs(nodes, x) + (if x == d then {(i, 1)} else {})
  {
    var nodes' := nodes[i := Node(Dir, 1, dots)];
    forall c: nat, m: nat
      ensures (c, m) in Refs(nodes', x) <==> (c, m) in Refs(nodes, x) || (x == d && c == i && m == 1) {
      assert c != i ==> Ref(nodes', c, m) == Ref(nodes, c, m);
    }
  }

  // unlink

  /** A directory is named by one record besides the ".." of its subdirectories, so an
      empty one by this record alone. */
  lemma EmptyDir(nodes: seq<Node>, root: nat, d: nat, k: nat)
    requires Inv(nodes, root) && Ref(nodes, d, k) && k >= 2 && Target(nodes, d, k) < |nodes|
    requires var s := Target(nodes, d, k); nodes[s].kind == Dir && IsEmpty(nodes[s].ents)
    ensures var s := Target(nodes, d, k);
            s != root && s != d && Live(nodes[s]) && Refs(nodes, s) == {(d, k)} && nodes[s].nlink == 1 &&
                Parent(nodes, s) == d
  {
    var s := Target(nodes, d, k);
    assert ChildOk(nodes, root, d, k) && NodeOk(nodes, s) && NodeOk(nodes, d);
    assert (d, k) in Refs(nodes, s);
    assert Live(nodes[s]);
    forall c: nat, m: nat | (c, m) in Refs(nodes, s) ensures c == d && m == k {
      OnlyRecord(nodes, root, d, k, c, m);
    }
    assert Refs(nodes, s) == {(d, k)};
  }

  predicate IsEmpty(ents: seq<Dirent>) { forall k | 2 <= k < |ents| :: ents[k].inum == 0 }

  lemma OnlyRecord(nodes: seq<Node>, root: nat, d: nat, k: nat, c: nat, m: nat)
    requires Inv(nodes, root) && Ref(nodes, d, k) && k >= 2 && Target(nodes, d, k) < |nodes|
    requires var s := Target(nodes, d, k); nodes[s].kind == Dir && Live(nodes[s]) && IsEmpty(nodes[s].ents)
    requires Ref(nodes, c, m) && Target(nodes, c, m) == Target(nodes, d, k)
    ensures c == d && m == k
  {
    var s := Target(nodes, d, k);
    assert ChildOk(nodes, root, d, k) && ChildOk(nodes, root, c, m) && NodeOk(nodes, c) && NodeOk(nodes, s);
    if c != root { ParentNotEmpty(nodes, root, c); }
  }

  lemma ParentNotEmpty(nodes: seq<Node>, root: nat, c: nat)
    requires Inv(nodes, root) && c < |nodes| && Live(nodes[c]) && c != root
    ensures |nodes[c].ents| >= 2 && Parent(nodes, c) < |nodes| && !IsEmpty(nodes[Parent(nodes, c)].ents)
  {
    assert NodeOk(nodes, c) && HasParent(nodes, root, c);
    var l :| 2 <= l && Ref(nodes, Parent(nodes, c), l) && Target(nodes, Parent(nodes, c), l) == c;
    assert nodes[Parent(nodes, c)].ents[l].inum != 0;
  }

  lemma UnlinkedFileInv(nodes: seq<Node>, root: nat, d: nat, k: nat, e: Dirent)
    requires Inv(nodes, root) && Ref(nodes, d, k) && k >= 2 && e.inum == 0
    requires Target(nodes, d, k) < |nodes| && nodes[Target(nodes, d, k)].kind != Dir
    ensures nodes[Target(nodes, d, k)].nlink > 0 && Inv(Unlinked(nodes, d, k, e), root)
  {
    hide DirOk, Refs, Distinct;
    var i := Target(nodes, d, k);
    Named(nodes, root, d, k);
    var nodes' := Unlinked(nodes, d, k, e);
    assert NodeOk(nodes, d) && NodeOk(nodes, i) && NodeOk(nodes, root);
    DirShape(nodes, root);
    forall x | 0 <= x < |nodes| ensures NodeOk(nodes', x) {
      assert NodeOk(nodes, x);
      UnlinkedFileNode(nodes, d, k, e, x);
    }
    forall c: nat, m: nat ensures ChildOk(nodes', root, c, m) {
      assert ChildOk(nodes, root, c, m);
      assert Ref(nodes', c, m) ==> Ref(nodes, c, m) && Target(nodes', c, m) == Target(nodes, c, m);
      UnlinkedFileChild(nodes, root, d, k, e, c, m);
    }
    forall x | 0 <= x < |nodes| ensures HasParent(nodes', root, x) {
      assert HasParent(nodes, root, x) && NodeOk(nodes, x);
      if Live(nodes[x]) { DirShape(nodes, x); }
      forall c: nat, m: nat {:trigger Ref(nodes', c, m)} | Ref(nodes, c, m) && !(c == d && m == k)
        ensures Ref(nodes', c, m) && Target(nodes', c, m) == Target(nodes, c, m)
      {
      }
      UnlinkedParent(nodes, nodes', root, d, k, x);
    }
  }

  lemma DirShape(nodes: seq<Node>, d: nat)
    requires d < |nodes| && Live(nodes[d]) && NodeOk(nodes, d)
    ensures |nodes[d].ents| >= 2
  {
  }

  /** An inode that a record names has links. */
  lemma Named(nodes: seq<Node>, root: nat, d: nat, k: nat)
    requires Inv(nodes, root) && Ref(nodes, d, k) && Target(nodes, d, k) < |nodes|
    ensures nodes[Target(nodes, d, k)].nlink > 0 && nodes[Target(nodes, d, k)].kind != Free
  {
    assert NodeOk(nodes, Target(nodes, d, k));
    assert (d, k) in Refs(nodes, Target(nodes, d, k));
  }

  lemma UnlinkedFileNode(nodes: seq<Node>, d: nat, k: nat, e: Dirent, x: nat)
    requires d < |nodes| && x < |nodes| && Ref(nodes, d, k) && k >= 2 && e.inum == 0 && Target(nodes, d, k) < |nodes|
    requires NodeOk(nodes, d) && NodeOk(nodes, Target(nodes, d, k)) && NodeOk(nodes, x)
    requires nodes[Target(nodes, d, k)].kind != Dir && nodes[Target(nodes, d, k)].nlink > 0
    ensures NodeOk(Unlinked(nodes, d, k, e), x)
  {
    hide Refs, Distinct;
    var nodes' := Unlinked(nodes, d, k, e);
    UnlinkedFileRefs(nodes, d, k, e, x);
    DropDistinct(nodes[d].ents, k, e);
    assert |Refs(nodes', x)| == nodes'[x].nlink;
  }

  lemma UnlinkedFileRefs(nodes: seq<Node>, d: nat, k: nat, e: Dirent, x: nat)
    requires d < |nodes| && Ref(nodes, d, k) && k >= 2 && e.inum == 0 && Target(nodes, d, k) < |nodes|
    requires nodes[Target(nodes, d, k)].kind != Dir && nodes[Target(nodes, d, k)].nlink > 0
    ensures Refs(Unlinked(nodes, d, k, e), x) == Refs(nodes, x) - {(d, k)}
    ensures (d, k) in Refs(nodes, x) <==> x == Target(nodes, d, k)
  {
    hide Refs;
    var i := Target(nodes, d, k);
    var nodes1 := nodes[d := nodes[d].(ents := nodes[d].ents[k := e])];
    assert Unlinked(nodes, d, k, e) == nodes1[i := nodes1[i].(nlink := nodes[i].nlink - 1)];
    RefIn(nodes, d, k, x);
    DropRef(nodes, d, k, e, x);
    SameRefs(nodes1, i, nodes1[i].(nlink := nodes[i].nlink - 1), x);
  }

  lemma RefIn(nodes: seq<Node>, d: nat, k: nat, x: nat)
    requires Ref(nodes, d, k)
    ensures (d, k) in Refs(nodes, x) <==> x == Target(nodes, d, k)
  {
  }

  lemma DropDistinct(ents: seq<Dirent>, k: nat, e: Dirent)
    requires k < |ents| && e.inum == 0
    ensures Distinct(ents) ==> Distinct(ents[k := e])
  {
  }

  lemma UnlinkedFileChild(nodes: seq<Node>, root: nat, d: nat, k: nat, e: Dirent, c: nat, m: nat)
    requires Ref(nodes, d, k) && k >= 2 && e.inum == 0 && Target(nodes, d, k) < |nodes|
    requires nodes[Target(nodes, d, k)].kind != Dir && nodes[Target(nodes, d, k)].nlink > 0 &&
             ChildOk(nodes, root, c, m)
    ensures ChildOk(Unlinked(nodes, d, k, e), root, c, m)
  {
    var nodes' := Unlinked(nodes, d, k, e);
    assert Ref(nodes', c, m) ==> Ref(nodes, c, m) && Target(nodes', c, m) == Target(nodes, c, m);
  }

  /** The other directories keep the record in their parents. */
  lemma UnlinkedParent(nodes: seq<Node>, nodes': seq<Node>, root: nat, d: nat, k: nat, x: nat)
    requires |nodes'| == |nodes| && x < |nodes| && HasParent(nodes, root, x) && Ref(nodes, d, k)
    requires Live(nodes'[x]) ==> Live(nodes[x]) && |nodes[x].ents| >= 2 && |nodes'[x].ents| >= 2
                                 && Parent(nodes', x) == Parent(nodes, x) && x != Target(nodes, d, k)
    requires forall c: nat, m: nat {:trigger Ref(nodes', c, m)} :: Ref(nodes, c, m) && !(c == d && m == k) && m >= 2 ==>
               Ref(nodes', c, m) && Target(nodes', c, m) == Target(nodes, c, m)
    ensures HasParent(nodes', root, x)
  {
    if Live(nodes'[x]) && x != root {
      var m :| 2 <= m && Ref(nodes, Parent(nodes, x), m) && Target(nodes, Parent(nodes, x), m) == x;
      assert Ref(nodes', Parent(nodes', x), m) && Target(nodes', Parent(nodes', x), m) == x;
    }
  }

  /** An emptied directory takes its ".." along. */
  lemma DieRefs(nodes: seq<Node>, s: nat, x: nat)
    requires s < |nodes| && Live(nodes[s]) && DirOk(nodes, s) && IsEmpty(nodes[s].ents)
    ensures Refs(nodes[s := nodes[s].(nlink := 0)], x) == Refs(nodes, x) - {(s, 1)}
    ensures (s, 1) in Refs(nodes, x) <==> x == Parent(nodes, s)
  {
    var nodes' := nodes[s := nodes[s].(nlink := 0)];
    assert Ref(nodes, s, 1);
    forall c: nat, m: nat ensures (c, m) in Refs(nodes', x) <==> (c, m) in Refs(nodes, x) && !(c == s && m == 1) {
      assert c != s ==> Ref(nodes', c, m) == Ref(nodes, c, m);
      assert Ref(nodes, s, m) ==> m == 1;
    }
  }

  /** A directory with a subdirectory has two links. */
  lemma TwoLinks(nodes: seq<Node>, root: nat, s: nat)
    requires Inv(nodes, root) && s < |nodes| && Live(nodes[s]) && s != root
    ensures |nodes[s].ents| >= 2 && Parent(nodes, s) < |nodes| && nodes[Parent(nodes, s)].nlink >= 2
  {
    assert NodeOk(nodes, s) && NodeOk(nodes, root);
    var d := Parent(nodes, s);
    assert NodeOk(nodes, d) && HasParent(nodes, root, d);
    assert Ref(nodes, s, 1) && (s, 1) in Refs(nodes, d);
    var w: (nat, nat);
    if d == root {
      w := (root, 1);
      assert Ref(nodes, root, 1);
    } else {
      var m :| 2 <= m && Ref(nodes, Parent(nodes, d), m) && Target(nodes, Parent(nodes, d), m) == d;
      w := (Parent(nodes, d), m);
    }
    assert w in Refs(nodes, d) && w != (s, 1);
    assert {w, (s, 1)} <= Refs(nodes, d) && |{w, (s, 1)}| == 2;
    PairCard({w, (s, 1)}, Refs(nodes, d));
  }

  lemma {:induction false} PairCard(a: set<(nat, nat)>, b: set<(nat, nat)>)
    requires a <= b
    ensures |a| <= |b|
  {
    if a != {} {
      var e :| e in a;
      PairCard(a - {e}, b - {e});
    }
  }

  lemma UnlinkedDirInv(nodes: seq<Node>, root: nat, d: nat, k: nat, e: Dirent)
    requires Inv(nodes, root) && Ref(nodes, d, k) && k >= 2 && e.inum == 0 && Target(nodes, d, k) < |nodes|
    requires nodes[Target(nodes, d, k)].kind == Dir && IsEmpty(nodes[Target(nodes, d, k)].ents)
    ensures nodes[Target(nodes, d, k)].nlink > 0 && Inv(Unlinked(nodes, d, k, e), root)
  {
    hide DirOk, Refs, Distinct, IsEmpty;
    var s := Target(nodes, d, k);
    EmptyDir(nodes, root, d, k);
    TwoLinks(nodes, root, s);
    var nodes' := Unlinked(nodes, d, k, e);
    assert NodeOk(nodes, d) && NodeOk(nodes, s) && NodeOk(nodes, root);
    DirShape(nodes, root);
    forall x | 0 <= x < |nodes| ensures NodeOk(nodes', x) {
      assert NodeOk(nodes, x);
      if Live(nodes[x]) && x != root { ParentNotEmpty(nodes, root, x); }
      if Live(nodes[x]) { DirShape(nodes, x); }
      UnlinkedDirNode(nodes, d, k, e, x);
    }
    forall c: nat, m: nat ensures ChildOk(nodes', root, c, m) {
      assert ChildOk(nodes, root, c, m);
      UnlinkedDirChild(nodes, root, d, k, e, c, m);
    }
    forall x | 0 <= x < |nodes| ensures HasParent(nodes', root, x) {
      assert HasParent(nodes, root, x) && NodeOk(nodes, x);
      if Live(nodes[x]) { DirShape(nodes, x); }
      EmptyNoRef(nodes, s);
      forall c: nat, m: nat {:trigger Ref(nodes', c, m)} | Ref(nodes, c, m) && !(c == d && m == k) && m >= 2
        ensures Ref(nodes', c, m) && Target(nodes', c, m) == Target(nodes, c, m)
      {
      }
      UnlinkedParent(nodes, nodes', root, d, k, x);
    }
  }

  lemma EmptyNoRef(nodes: seq<Node>, s: nat)
    requires s < |nodes| && IsEmpty(nodes[s].ents)
    ensures forall m: nat {:trigger Ref(nodes, s, m)} | m >= 2 :: !Ref(nodes, s, m)
  {
  }

  lemma UnlinkedDirNode(nodes: seq<Node>, d: nat, k: nat, e: Dirent, x: nat)
    requires d < |nodes| && x < |nodes| && Ref(nodes, d, k) && k >= 2 && e.inum == 0 && Target(nodes, d, k) < |nodes|
    requires NodeOk(nodes, d) && NodeOk(nodes, Target(nodes, d, k)) && NodeOk(nodes, x) && nodes[d].nlink >= 2
    requires var s := Target(nodes, d, k);
             && s != d && Live(nodes[s]) && IsEmpty(nodes[s].ents) && Refs(nodes, s) == {(d, k)} && nodes[s].nlink == 1
             && |nodes[s].ents| >= 2 && Parent(nodes, s) == d
             && (Live(nodes[x]) ==> |nodes[x].ents| >= 2 && Parent(nodes, x) != s)
    ensures NodeOk(Unlinked(nodes, d, k, e), x)
  {
    hide Refs, Distinct, IsEmpty;
    var s := Target(nodes, d, k);
    var nodes' := Unlinked(nodes, d, k, e);
    UnlinkedDirRefs(nodes, d, k, e, x);
    DropDistinct(nodes[d].ents, k, e);
    assert |Refs(nodes', x)| == nodes'[x].nlink;
  }

  lemma UnlinkedDirRefs(nodes: seq<Node>, d: nat, k: nat, e: Dirent, x: nat)
    requires d < |nodes| && Ref(nodes, d, k) && k >= 2 && e.inum == 0 && Target(nodes, d, k) < |nodes| &&
             nodes[d].nlink >= 2
    requires var s := Target(nodes, d, k);
             s != d && Live(nodes[s]) && nodes[s].nlink == 1 && DirOk(nodes, s) && IsEmpty(nodes[s].ents) &&
                 Parent(nodes, s) == d
    ensures var s := Target(nodes, d, k);
            && Refs(Unlinked(nodes, d, k, e), x) == Refs(nodes, x) - {(d, k)} - {(s, 1)}
            && ((d, k) in Refs(nodes, x) <==> x == s) && ((s, 1) in Refs(nodes, x) <==> x == d)
  {
    hide Refs, Distinct, IsEmpty;
    var s := Target(nodes, d, k);
    var nodes1 := nodes[d := nodes[d].(ents := nodes[d].ents[k := e])];
    var nodes2 := nodes1[d := nodes1[d].(nlink := nodes[d].nlink - 1)];
    assert Unlinked(nodes, d, k, e) == nodes2[s := nodes2[s].(nlink := 0)];
    RefIn(nodes, d, k, x);
    RefIn(nodes, s, 1, x);
    DropRef(nodes, d, k, e, x);
    SameRefs(nodes1, d, nodes2[d], x);
    DieRefs(nodes2, s, x);
  }

  lemma UnlinkedDirChild(nodes: seq<Node>, root: nat, d: nat, k: nat, e: Dirent, c: nat, m: nat)
    requires Ref(nodes, d, k) && k >= 2 && e.inum == 0 && Target(nodes, d, k) < |nodes| && nodes[d].nlink >= 2
    requires var s := Target(nodes, d, k); s != d && nodes[s].kind == Dir && nodes[s].nlink == 1
    requires ChildOk(nodes, root, c, m)
    ensures ChildOk(Unlinked(nodes, d, k, e), root, c, m)
  {
    var nodes' := Unlinked(nodes, d, k, e);
    assert Ref(nodes', c, m) ==> Ref(nodes, c, m) && Target(nodes', c, m) == Target(nodes, c, m);
  }

  // ---- the operations ----

  lemma DotKeys()
    ensures NameKey(".") == "." && NameKey("..") == ".."
  {
    assert Key(".", 14) == "." + Key("", 13);
    assert Key("..", 14) == "." + Key(".", 13) && Key(".", 13) == "." + Key("", 12);
  }

  class Inodes {
    const root: nat
    var nodes: seq<Node>

    constructor (r: nat, n: seq<Node>)
      ensures root == r && nodes == n
    {
      root, nodes := r, n;
    }

    /** dirlookup: where the first record with the name is. */
    method Dirlookup(d: nat, name: seq<char>) returns (off: Option<nat>)
      requires d < |nodes|
      ensures off.None? <==> forall j | 0 <= j < |nodes[d].ents| :: !Entry(nodes[d].ents[j], NameKey(name))
      ensures off.None? <==> Find(nodes[d].ents, NameKey(name)) == None
      ensures off.Some? ==> && off.value < |nodes[d].ents| && Entry(nodes[d].ents[off.value], NameKey(name))
                            && (forall j | 0 <= j < off.value :: !Entry(nodes[d].ents[j], NameKey(name)))
                            && Find(nodes[d].ents, NameKey(name)) == Some(nodes[d].ents[off.value].inum)
    {
      ghost var ents := nodes[d].ents;
      var k := 0;
      while k < |nodes[d].ents|
        invariant k <= |ents| && forall j | 0 <= j < k :: !Entry(ents[j], NameKey(name))
      {
        var de := nodes[d].ents[k];
        if de.inum != 0 {
          var c := Strncmp(name, de.name, DIRSIZ);
          if c == 0 {
            FindAt(ents, NameKey(name), k);
            return Some(k);
          }
        }
        k := k + 1;
      }
      FindNone(ents, NameKey(name));
      return None;
    }

    /** dirlink: a record for a name that is not there yet, in the first free place. */
    method Dirlink(d: nat, name: seq<char>, inum: nat) returns (r: int, ghost k: nat, ghost field: seq<char>)
      requires d < |nodes|
      modifies `nodes
      ensures d < |old(nodes)| && r == if Find(old(nodes)[d].ents, NameKey(name)) == None then 0 else -1
      ensures r < 0 ==> nodes == old(nodes)
      ensures r == 0 ==> && FreeSlot(old(nodes)[d].ents, k)
                         && (forall j | 0 <= j < k :: old(nodes)[d].ents[j].inum != 0)
                         && NameKey(field) == NameKey(name)
                         && nodes == old(nodes)[d := old(nodes)[d].(ents :=
                                                      Put(old(nodes)[d].ents, k, Dirent(inum, field)))]
    {
      var found := Dirlookup(d, name);
      if found.Some? { return -1, 0, []; }
      var off := 0;
      while off < |nodes[d].ents| && nodes[d].ents[off].inum != 0
        invariant off <= |nodes[d].ents| && forall j | 0 <= j < off :: nodes[d].ents[j].inum != 0
      {
        off := off + 1;
      }
      var buf := new char[DIRSIZ];
      Strncpy(buf, name);
      k, field := off, buf[..];
      nodes := nodes[d := nodes[d].(ents := Put(nodes[d].ents, off, Dirent(inum, buf[..])))];
      return 0, k, field;
    }

    /** sys_link, once old has led to inode i and new to its parent and name; without a
        parent, or if the name is there, the count goes back. */
    method Link(i: nat, parent: Option<nat>, name: seq<char>) returns (r: int)
      requires Inv(nodes, root) && 0 < i < |nodes| && nodes[i].kind != Free
      requires parent.Some? ==> parent.value < |nodes| && Live(nodes[parent.value])
      modifies `nodes
      ensures Inv(nodes, root) && (parent.Some? ==> parent.value < |old(nodes)|)
      ensures r == if old(nodes)[i].kind == Dir || parent.None? || Find(old(nodes)[parent.value].ents,
              NameKey(name)) != None
                   then -1 else 0
      ensures r < 0 ==> nodes == old(nodes)
      ensures r == 0 ==>
                exists k: nat, field {:trigger Linked(old(nodes), parent.value, k, field, i, old(nodes)[i].kind)} ::
                           && NameKey(field) == NameKey(name) && k <= |old(nodes)[parent.value].ents|
                           && nodes == Linked(old(nodes), parent.value, k, field, i, old(nodes)[i].kind)
      ensures r == 0 ==> GainsLink(old(nodes), nodes, parent.value, NameKey(name), i)
    {
      hide Inv, Find, GainsLink;
      ghost var n0 := nodes;
      if nodes[i].kind == Dir { return -1; }
      nodes := nodes[i := nodes[i].(nlink := nodes[i].nlink + 1)];
      if parent.Some? {
        var d := parent.value;
        ghost var k, field;
        r, k, field := Dirlink(d, name, i);
        if r == 0 {
          LinkedInv(n0, root, d, k, field, i, n0[i].kind);
          assert nodes == Linked(n0, d, k, field, i, n0[i].kind);
          LinkedGains(n0, root, d, k, field, i);
          return 0;
        }
      }
      nodes := nodes[i := nodes[i].(nlink := nodes[i].nlink - 1)];
      assert nodes == n0;
      return -1;
    }

    /** isdirempty */
    method Isdirempty(s: nat) returns (r: bool)
      requires s < |nodes|
      ensures r <==> forall k | 2 <= k < |nodes[s].ents| :: nodes[s].ents[k].inum == 0
    {
      var off := 2;
      while off < |nodes[s].ents|
        invariant 2 <= off && forall k | 2 <= k < off && k < |nodes[s].ents| :: nodes[s].ents[k].inum == 0
      {
        if nodes[s].ents[off].inum != 0 { return false; }
        off := off + 1;
      }
      return true;
    }

    /** sys_unlink in directory d; ok is false on the panic. */
    method Unlink(d: nat, name: seq<char>) returns (r: int, ok: bool)
      requires Inv(nodes, root) && d < |nodes| && Live(nodes[d])
      modifies `nodes
      ensures ok && Inv(nodes, root) && d < |old(nodes)|
      ensures r == 0 <==> Removable(old(nodes), d, NameKey(name))
      ensures r != 0 ==> r == -1 && nodes == old(nodes)
      ensures r == 0 ==> exists k {:trigger old(nodes)[d].ents[k]} ::
                           && 0 <= k < |old(nodes)[d].ents| && Entry(old(nodes)[d].ents[k], NameKey(name))
                           && Ref(old(nodes), d, k) && Target(old(nodes), d, k) < |old(nodes)|
                           && old(nodes)[Target(old(nodes), d, k)].nlink > 0
                           && nodes == Unlinked(old(nodes), d, k, NoEntry())
      ensures r == 0 ==>
                var f := Find(old(nodes)[d].ents, NameKey(name));
                f.Some? && LosesLink(old(nodes), nodes, d, NameKey(name), f.value)
      ensures r == 0 <==>
                && NameKey(name) != "." && NameKey(name) != ".."
                && exists k | 0 <= k < |old(nodes)[d].ents| ::
                     Entry(old(nodes)[d].ents[k], NameKey(name)) && MayGo(old(nodes), old(nodes)[d].ents[k].inum)
    {
      hide Inv, LosesLink;
      ghost var n0 := nodes;
      DotKeys();
      LiveShape(nodes, root, d);
      RemovableExactly(nodes, d, NameKey(name));
      var c := Strncmp(name, ".", DIRSIZ);
      if c == 0 { return -1, true; }
      c := Strncmp(name, "..", DIRSIZ);
      if c == 0 { return -1, true; }
      var off := Dirlookup(d, name);
      if off.None? { return -1, true; }
      var k := off.value;
      var s := nodes[d].ents[k].inum;
      RecordOk(nodes, root, d, k);
      if nodes[s].nlink < 1 { return 0, false; }
      if nodes[s].kind == Dir {
        var empty := Isdirempty(s);
        if !empty { return -1, true; }
        UnlinkedDirInv(nodes, root, d, k, NoEntry());
        EmptyDir(nodes, root, d, k);
        TwoLinks(nodes, root, s);
      } else {
        UnlinkedFileInv(nodes, root, d, k, NoEntry());
      }
      nodes := nodes[d := nodes[d].(ents := nodes[d].ents[k := NoEntry()])];
      if nodes[s].kind == Dir {
        nodes := nodes[d := nodes[d].(nlink := nodes[d].nlink - 1)];
      }
      nodes := nodes[s := nodes[s].(nlink := nodes[s].nlink - 1)];
      assert nodes == Unlinked(n0, d, k, NoEntry());
      UnlinkedLoses(n0, d, k, NoEntry(), NameKey(name));
      return 0, true;
    }

    /** create in directory d; ok is false when no inode is free. */
    method Create(d: nat, name: seq<char>, kind: Kind) returns (r: Option<nat>, ok: bool)
      requires Inv(nodes, root) && d < |nodes| && Live(nodes[d]) && kind != Free
      modifies `nodes
      ensures Inv(nodes, root) && d < |old(nodes)| && |nodes| == |old(nodes)|
      ensures ok <==> Find(old(nodes)[d].ents,
              NameKey(name)) != None || exists i | 0 < i < |old(nodes)| :: old(nodes)[i].kind == Free
      ensures !ok ==> nodes == old(nodes)
      ensures ok && Find(old(nodes)[d].ents, NameKey(name)) != None ==>
                var i := Find(old(nodes)[d].ents, NameKey(name)).value;
                && nodes == old(nodes) && i < |nodes|
                && r == if kind == File && nodes[i].kind == File then Some(i) else None
      ensures ok && Find(old(nodes)[d].ents, NameKey(name)) == None ==>
                && r.Some? && 0 < r.value < |nodes| && old(nodes)[r.value].kind == Free
                && nodes[r.value].kind == kind && nodes[r.value].nlink == 1
                && Find(nodes[d].ents, NameKey(name)) == Some(r.value)
                && (forall key | key != NameKey(name) :: Find(nodes[d].ents, key) == Find(old(nodes)[d].ents, key))
                && forall x | 0 <= x < |nodes| && x != d && x != r.value :: nodes[x] == old(nodes)[x]
    {
      hide Inv, Find, IsDots, Distinct;
      ghost var n0 := nodes;
      var found := Dirlookup(d, name);
      if found.Some? {
        var i := nodes[d].ents[found.value].inum;
        InumOk(nodes, root, d, found.value);
        return if kind == File && nodes[i].kind == File then Some(i) else None, true;
      }
      var i := 1;                            // ialloc
      while i < |nodes| && nodes[i].kind != Free
        invariant 1 <= i && forall j | 0 < j < i && j < |nodes| :: nodes[j].kind != Free
      {
        i := i + 1;
      }
      if i >= |nodes| { return None, false; }
      FreeShape(nodes, root, i);
      LiveShape(nodes, root, d);
      ghost var k, field;
      var l;
      if kind == Dir {
        ghost var dots := MakeDots(d, i);
        l, k, field := Dirlink(d, name, i);
        MadeInv(n0, root, d, k, field, i, dots);
        assert nodes == Made(n0, d, k, field, i, dots);
      } else {
        nodes := nodes[i := Node(kind, 1, [])];
        l, k, field := Dirlink(d, name, i);
        LinkedInv(n0, root, d, k, field, i, kind);
        assert nodes == Linked(n0, d, k, field, i, kind);
      }
      forall key ensures Find(nodes[d].ents, key) == if key == NameKey(name) then Some(i) else Find(n0[d].ents, key) {
        PutFind(n0[d].ents, k, Dirent(i, field), key);
      }
      return Some(i), true;
    }

    /** iput's freeing of an inode without links: the next create can have it. */
    method Reclaim(i: nat)
      requires Inv(nodes, root) && i < |nodes| && nodes[i].nlink == 0
      modifies `nodes
      ensures Inv(nodes, root) && nodes == old(nodes)[i := Node(Free, 0, [])]
    {
      hide Inv;
      ReclaimInv(nodes, root, i);
      nodes := nodes[i := Node(Free, 0, [])];
    }

    /** The part of create that only a directory needs: its dots, and the parent's link. */
    method MakeDots(d: nat, i: nat) returns (ghost dots: seq<Dirent>)
      requires 0 < i < |nodes| && 0 < d < |nodes| && d != i
      modifies `nodes
      ensures IsDots(dots, i, d) && i < |old(nodes)| && d < |old(nodes)|
      ensures nodes == old(nodes)[i := Node(Dir, 1, dots)]
                                 [d := old(nodes)[d].(nlink := old(nodes)[d].nlink + 1)]
    {
      hide Find;
      DotKeys();
      nodes := nodes[i := Node(Dir, 1, [])];
      nodes := nodes[d := nodes[d].(nlink := nodes[d].nlink + 1)];
      ghost var k0, k1, dot, dotdot;
      var l;
      EmptyFind(".");
      l, k0, dot := Dirlink(i, ".", i);
      assert nodes[i].ents == [Dirent(i, dot)];
      OneFind(Dirent(i, dot), "..");
      l, k1, dotdot := Dirlink(i, "..", d);
      dots := [Dirent(i, dot), Dirent(d, dotdot)];
      assert nodes[i].ents == dots;
    }
  }

  // ---- a directory that has been removed ----

  /** link, and create of a file or device, look only at the directory's type. They keep the
      link counts exactly when the directory has a link itself. */
  lemma LinkedExactly(nodes: seq<Node>, root: nat, d: nat, k: nat, name: seq<char>, i: nat, kind: Kind)
    requires Inv(nodes, root) && d < |nodes| && nodes[d].kind == Dir && FreeSlot(nodes[d].ents, k)
    requires 0 < i < |nodes| && nodes[i].kind != Dir && Find(nodes[d].ents, NameKey(name)) == None && IsPlain(kind)
    ensures Inv(Linked(nodes, d, k, name, i, kind), root) <==> Live(nodes[d])
  {
    hide Find;
    if Live(nodes[d]) {
      LinkedInv(nodes, root, d, k, name, i, kind);
    } else {
      assert NodeOk(nodes, i);
      DeadLinked(nodes, d, k, name, i, kind);
    }
  }

  lemma DeadLinked(nodes: seq<Node>, d: nat, k: nat, name: seq<char>, i: nat, kind: Kind)
    requires d < |nodes| && i < |nodes| && k <= |nodes[d].ents| && nodes[d].kind == Dir && !Live(nodes[d])
    requires nodes[i].kind != Dir && IsPlain(kind) && NodeOk(nodes, i)
    ensures !NodeOk(Linked(nodes, d, k, name, i, kind), i)
  {
    var nodes' := Linked(nodes, d, k, name, i, kind);
    forall c: nat, m: nat ensures (c, m) in Refs(nodes', i) <==> (c, m) in Refs(nodes, i) {
      assert Ref(nodes', c, m) <==> Ref(nodes, c, m);
    }
    assert Refs(nodes', i) == Refs(nodes, i);
  }

  /** So does create of a directory: the new ".." is a link to a directory that no record names. */
  lemma MadeExactly(nodes: seq<Node>, root: nat, d: nat, k: nat, name: seq<char>, i: nat, dots: seq<Dirent>)
    requires Inv(nodes, root) && d < |nodes| && nodes[d].kind == Dir && FreeSlot(nodes[d].ents, k)
    requires 0 < i < |nodes| && nodes[i].kind == Free && Find(nodes[d].ents, NameKey(name)) == None
    requires IsDots(dots, i, d)
    ensures Inv(Made(nodes, d, k, name, i, dots), root) <==> Live(nodes[d])
  {
    hide Find, IsDots;
    if Live(nodes[d]) {
      MadeInv(nodes, root, d, k, name, i, dots);
    } else {
      DeadMade(nodes, root, d, k, name, i, dots);
    }
  }

  lemma DeadMade(nodes: seq<Node>, root: nat, d: nat, k: nat, name: seq<char>, i: nat, dots: seq<Dirent>)
    requires root < |nodes| && Live(nodes[root]) && d < |nodes| && nodes[d].kind == Dir && !Live(nodes[d])
    requires k <= |nodes[d].ents| && i < |nodes| && nodes[i].kind == Free && IsDots(dots, i, d)
    ensures !NodeOk(Made(nodes, d, k, name, i, dots), d) || !HasParent(Made(nodes, d, k, name, i, dots), root, d)
  {
    hide DirOk;
    var nodes' := Made(nodes, d, k, name, i, dots);
    if NodeOk(nodes', d) && HasParent(nodes', root, d) {
      assert Live(nodes'[d]) && DirOk(nodes', d);
      DirParts(nodes', d);
      var m :| 2 <= m && Ref(nodes', Parent(nodes', d), m) && Target(nodes', Parent(nodes', d), m) == d;
      var p := Parent(nodes', d);
      assert Ref(nodes', i, 1) && (i, 1) in Refs(nodes', d) && (p, m) in Refs(nodes', d);
      assert {(i, 1), (p, m)} <= Refs(nodes', d);
      TwoIn(Refs(nodes', d), (i, 1), (p, m));
    }
  }

  lemma DirParts(nodes: seq<Node>, d: nat)
    requires d < |nodes| && DirOk(nodes, d)
    ensures |nodes[d].ents| >= 2
  {
  }

  lemma TwoIn<T>(a: set<T>, x: T, y: T)
    requires x in a && y in a && x != y
    ensures |a| >= 2
  {
    assert y in a - {x};
    assert |a - {x}| >= 1;
  }

  // ---- freeing an inode, and the first state ----

  lemma ReclaimRefs(nodes: seq<Node>, i: nat, x: nat)
    requires i < |nodes| && !Live(nodes[i])
    ensures Refs(nodes[i := Node(Free, 0, [])], x) == Refs(nodes, x)
    ensures forall d: nat, k: nat {:trigger Ref(nodes[i := Node(Free, 0, [])], d, k)} ::
              Ref(nodes[i := Node(Free, 0, [])], d, k) <==> Ref(nodes, d, k)
  {
    var nodes' := nodes[i := Node(Free, 0, [])];
    forall d: nat, k: nat ensures Ref(nodes', d, k) <==> Ref(nodes, d, k) { }
    forall d: nat, k: nat ensures (d, k) in Refs(nodes', x) <==> (d, k) in Refs(nodes, x) {
      assert Ref(nodes', d, k) <==> Ref(nodes, d, k);
    }
  }

  lemma ReclaimNode(nodes: seq<Node>, root: nat, i: nat, x: nat)
    requires Inv(nodes, root) && i < |nodes| && nodes[i].nlink == 0 && x < |nodes|
    ensures NodeOk(nodes[i := Node(Free, 0, [])], x) && HasParent(nodes[i := Node(Free, 0, [])], root, x)
  {
    hide Refs, Distinct;
    var nodes' := nodes[i := Node(Free, 0, [])];
    ReclaimRefs(nodes, i, x);
    assert NodeOk(nodes, x) && NodeOk(nodes, i) && HasParent(nodes, root, x);
    if Live(nodes'[x]) && x != root {
      var k :| 2 <= k && Ref(nodes, Parent(nodes, x), k) && Target(nodes, Parent(nodes, x), k) == x;
      assert Ref(nodes', Parent(nodes', x), k);
    }
  }

  lemma ReclaimInv(nodes: seq<Node>, root: nat, i: nat)
    requires Inv(nodes, root) && i < |nodes| && nodes[i].nlink == 0
    ensures Inv(nodes[i := Node(Free, 0, [])], root)
  {
    hide NodeOk, HasParent, Refs;
    var nodes' := nodes[i := Node(Free, 0, [])];
    ReclaimRefs(nodes, i, root);
    Unnamed(nodes, root, i);
    forall x | 0 <= x < |nodes'|
      ensures NodeOk(nodes', x) && HasParent(nodes', root, x) { ReclaimNode(nodes, root, i, x); }
    forall d: nat, k: nat ensures ChildOk(nodes', root, d, k) {
      assert ChildOk(nodes, root, d, k) && (Ref(nodes', d, k) <==> Ref(nodes, d, k));
      if Ref(nodes, d, k) { assert Target(nodes, d, k) != i; }
    }
  }

  /** A new file system: the root with its dots and some free records, and free inodes. */
  function NewRoot(dots: seq<Dirent>, free: nat): Node
  {
    Node(Dir, 1, dots + seq(free, _ => NoEntry()))
  }

  lemma NewInv(nodes: seq<Node>, root: nat, dots: seq<Dirent>, free: nat)
    requires 0 < root < |nodes| && IsDots(dots, root, root) && nodes[root] == NewRoot(dots, free)
    requires forall x | 0 <= x < |nodes| && x != root :: nodes[x] == Node(Free, 0, [])
    ensures Inv(nodes, root)
  {
    hide Refs;
    NewRefs(nodes, root, dots, free, root);
    forall x | 0 <= x < |nodes| ensures NodeOk(nodes, x) && HasParent(nodes, root, x) {
      NewRefs(nodes, root, dots, free, x);
      assert |{(root, 1)}| == 1;
    }
    forall d: nat, k: nat ensures ChildOk(nodes, root, d, k) { assert Ref(nodes, d, k) ==> k == 1; }
  }

  lemma NewRefs(nodes: seq<Node>, root: nat, dots: seq<Dirent>, free: nat, x: nat)
    requires 0 < root < |nodes| && IsDots(dots, root, root) && nodes[root] == NewRoot(dots, free)
    requires forall x | 0 <= x < |nodes| && x != root :: nodes[x] == Node(Free, 0, [])
    ensures Refs(nodes, x) == if x == root then {(root, 1)} else {}
    ensures forall d: nat, k: nat {:trigger Ref(nodes, d, k)} :: Ref(nodes, d, k) <==> d == root && k == 1
  {
    forall d: nat, k: nat ensures Ref(nodes, d, k) <==> d == root && k == 1 {
      if d == root && 2 <= k < |nodes[d].ents| { assert nodes[d].ents[k] == NoEntry(); }
    }
    forall d: nat, k: nat ensures (d, k) in Refs(nodes, x) <==> d == root && k == 1 && x == root {
      assert Ref(nodes, d, k) <==> d == root && k == 1;
    }
  }

  function NoEntry(): Dirent { Dirent(0, seq(DIRSIZ, _ => '\0')) }

  /** What unlink agrees to remove: not "." or "..", there, and not a directory in use. */
  predicate Removable(nodes: seq<Node>, d: nat, key: string)
    requires d < |nodes|
  {
    var f := Find(nodes[d].ents, key);
    key != "." && key != ".." && f.Some? &&
      (f.value < |nodes| && nodes[f.value].kind == Dir ==> IsEmpty(nodes[f.value].ents))
  }

  /** An inode that unlink may take out of its directory: a directory only if it has but its dots. */
  predicate MayGo(nodes: seq<Node>, i: nat)
  {
    i < |nodes| && nodes[i].kind == Dir ==> forall k | 2 <= k < |nodes[i].ents| :: nodes[i].ents[k].inum == 0
  }

  lemma RemovableExactly(nodes: seq<Node>, d: nat, key: string)
    requires d < |nodes| && Distinct(nodes[d].ents)
    ensures Removable(nodes, d, key) <==>
              && key != "." && key != ".."
              && exists k | 0 <= k < |nodes[d].ents| ::
                   Entry(nodes[d].ents[k], key) && MayGo(nodes, nodes[d].ents[k].inum)
  {
    hide Find;
    var ents := nodes[d].ents;
    FindNone(ents, key);
    if Find(ents, key) != None {
      var k := FirstEntry(ents, key);
      FindAt(ents, key, k);
      assert forall j | 0 <= j < |ents| && j != k :: !Entry(ents[j], key);
    }
  }

  lemma RecordOk(nodes: seq<Node>, root: nat, d: nat, k: nat)
    requires Inv(nodes, root) && d < |nodes| && Live(nodes[d]) && k < |nodes[d].ents| && nodes[d].ents[k].inum != 0
    requires NameKey(nodes[d].ents[k].name) != "." && NameKey(nodes[d].ents[k].name) != ".."
    ensures k >= 2 && Ref(nodes, d, k) && Target(nodes, d, k) < |nodes| && nodes[Target(nodes, d, k)].nlink > 0
  {
    assert NodeOk(nodes, d);
    Named(nodes, root, d, k);
  }

  lemma InumOk(nodes: seq<Node>, root: nat, d: nat, k: nat)
    requires Inv(nodes, root) && d < |nodes| && Live(nodes[d]) && k < |nodes[d].ents|
    ensures nodes[d].ents[k].inum < |nodes|
  {
    assert NodeOk(nodes, d);
  }

  lemma FreeShape(nodes: seq<Node>, root: nat, i: nat)
    requires Inv(nodes, root) && i < |nodes| && nodes[i].kind == Free
    ensures nodes[i] == Node(Free, 0, [])
  {
    assert NodeOk(nodes, i);
  }

  lemma LiveShape(nodes: seq<Node>, root: nat, d: nat)
    requires Inv(nodes, root) && d < |nodes| && Live(nodes[d])
    ensures Distinct(nodes[d].ents) && d > 0
  {
    assert NodeOk(nodes, d);
  }

  lemma EmptyFind(key: string)
    ensures Find([], key) == None
  {
  }

  lemma OneFind(e: Dirent, key: string)
    requires NameKey(e.name) != key
    ensures Find([e], key) == None
  {
  }
}
