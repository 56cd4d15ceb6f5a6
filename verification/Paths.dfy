/** namex of fs.c: a path name is looked up element by element. */
module Paths {
  import opened Common
  import opened Names
  import opened Directory

  /** Where the elements lead from inode i. */
  function Resolve(nodes: seq<Node>, i: nat, elems: seq<string>): Option<nat>
    decreases |elems|
  {
    if elems == [] then Some(i)
    else if i >= |nodes| || nodes[i].kind != Dir then None
    else
      match Find(nodes[i].ents, NameKey(elems[0]))
      case None => None
      case Some(j) => Resolve(nodes, j, elems[1..])
  }

  /** The directory that holds, or would hold, the last element. */
  function Holder(nodes: seq<Node>, i: nat, elems: seq<string>): Option<nat>
    decreases |elems|
  {
    if elems == [] || i >= |nodes| || nodes[i].kind != Dir then None
    else if |elems| == 1 then Some(i)
    else
      match Find(nodes[i].ents, NameKey(elems[0]))
      case None => None
      case Some(j) => Holder(nodes, j, elems[1..])
  }

  /** Looking up the last element in the holder is looking up the path. */
  lemma {:induction false} HolderResolves(nodes: seq<Node>, i: nat, elems: seq<string>)
    requires elems != []
    ensures Resolve(nodes, i, elems) ==
              match Holder(nodes, i, elems)
              case None => None
              case Some(d) => Resolve(nodes, d, [elems[|elems| - 1]])
    decreases |elems|
  {
    if |elems| > 1 && i < |nodes| && nodes[i].kind == Dir {
      match Find(nodes[i].ents, NameKey(elems[0]))
      case None =>
      case Some(j) => HolderResolves(nodes, j, elems[1..]);
    } else if |elems| == 1 {
      assert elems == [elems[0]];
    }
  }

  // ----- what they compute -----

  /** A record of the directory, the first of that name, leads to j. */
  ghost predicate Named(ents: seq<Dirent>, name: string, j: nat)
  {
    exists m | 0 <= m < |ents| ::
      && ents[m].inum == j != 0 && NameKey(ents[m].name) == NameKey(name)
      && forall l | 0 <= l < m && ents[l].inum != 0 :: NameKey(ents[l].name) != NameKey(name)
  }

  /** The inodes w lie along the elements: each but the last is a directory that names the next. */
  ghost predicate IsChain(nodes: seq<Node>, w: seq<nat>, elems: seq<string>)
  {
    && |w| == |elems| + 1
    && forall k | 0 <= k < |elems| ::
         w[k] < |nodes| && nodes[w[k]].kind == Dir && Named(nodes[w[k]].ents, elems[k], w[k + 1])
  }

  ghost predicate LeadsTo(nodes: seq<Node>, i: nat, elems: seq<string>, j: nat)
  {
    exists w: seq<nat> :: IsChain(nodes, w, elems) && w[0] == i && w[|elems|] == j
  }

  /** All but the last element lead to d, a directory. */
  ghost predicate Holds(nodes: seq<Node>, i: nat, elems: seq<string>, d: nat)
  {
    elems != [] && LeadsTo(nodes, i, elems[..|elems| - 1], d) && d < |nodes| && nodes[d].kind == Dir
  }

  lemma FindNamed(ents: seq<Dirent>, name: string, j: nat)
    ensures Find(ents, NameKey(name)) == Some(j) <==> Named(ents, name, j)
  {
    var key := NameKey(name);
    if Find(ents, key) != None {
      var m := FirstEntry(ents, key);
      FindAt(ents, key, m);
    }
    if Named(ents, name, j) {
      var m :| 0 <= m < |ents| && ents[m].inum == j != 0 && NameKey(ents[m].name) == key
               && forall l | 0 <= l < m && ents[l].inum != 0 :: NameKey(ents[l].name) != key;
      FindAt(ents, key, m);
    }
  }

  /** The first inode of a chain is a directory that names the second, where the rest of the chain begins. */
  lemma ChainHead(nodes: seq<Node>, w: seq<nat>, elems: seq<string>)
    requires elems != [] && |w| == |elems| + 1
    ensures IsChain(nodes, w, elems) <==>
              && w[0] < |nodes| && nodes[w[0]].kind == Dir && Named(nodes[w[0]].ents, elems[0], w[1])
              && IsChain(nodes, w[1..], elems[1..])
  {
    hide Named;
    var v, es := w[1..], elems[1..];
    if IsChain(nodes, w, elems) {
      forall k | 0 <= k < |es|
        ensures v[k] < |nodes| && nodes[v[k]].kind == Dir && Named(nodes[v[k]].ents, es[k], v[k + 1])
      {
        assert v[k] == w[k + 1] && es[k] == elems[k + 1] && v[k + 1] == w[k + 2];
      }
    } else if w[0] < |nodes| && nodes[w[0]].kind == Dir && Named(nodes[w[0]].ents, elems[0], w[1])
              && IsChain(nodes, v, es) {
      forall k | 0 <= k < |elems|
        ensures w[k] < |nodes| && nodes[w[k]].kind == Dir && Named(nodes[w[k]].ents, elems[k], w[k + 1])
      {
        if k > 0 { assert v[k - 1] == w[k] && es[k - 1] == elems[k] && v[k] == w[k + 1]; }
      }
    }
  }

  lemma {:induction false} ResolveChain(nodes: seq<Node>, i: nat, elems: seq<string>, j: nat) returns (w: seq<nat>)
    requires Resolve(nodes, i, elems) == Some(j)
    ensures IsChain(nodes, w, elems) && w[0] == i && w[|elems|] == j
    decreases |elems|
  {
    hide Named, Find, IsChain;
    if elems == [] {
      w := [i];
      NoChain(nodes, i);
    } else {
      var x := Find(nodes[i].ents, NameKey(elems[0])).value;
      FindNamed(nodes[i].ents, elems[0], x);
      var v := ResolveChain(nodes, x, elems[1..], j);
      ChainLength(nodes, v, elems[1..]);
      w := [i] + v;
      assert w[1..] == v;
      ChainHead(nodes, w, elems);
    }
  }

  lemma NoChain(nodes: seq<Node>, i: nat)
    ensures IsChain(nodes, [i], [])
  {
  }

  lemma ChainLength(nodes: seq<Node>, w: seq<nat>, elems: seq<string>)
    requires IsChain(nodes, w, elems)
    ensures |w| == |elems| + 1
  {
  }

  lemma {:induction false} ChainResolve(nodes: seq<Node>, w: seq<nat>, elems: seq<string>)
    requires IsChain(nodes, w, elems)
    ensures |w| == |elems| + 1 && Resolve(nodes, w[0], elems) == Some(w[|elems|])
    decreases |elems|
  {
    hide Named, Find, IsChain;
    ChainLength(nodes, w, elems);
    if elems != [] {
      ChainHead(nodes, w, elems);
      FindNamed(nodes[w[0]].ents, elems[0], w[1]);
      ChainResolve(nodes, w[1..], elems[1..]);
    }
  }

  /** A chain to j, and no other way, makes Resolve j. */
  lemma ResolveExactly(nodes: seq<Node>, i: nat, elems: seq<string>, j: nat)
    ensures Resolve(nodes, i, elems) == Some(j) <==> LeadsTo(nodes, i, elems, j)
  {
    hide Named, Find, IsChain, Resolve;
    if Resolve(nodes, i, elems) == Some(j) { var w := ResolveChain(nodes, i, elems, j); }
    if LeadsTo(nodes, i, elems, j) {
      var w := ChainTo(nodes, i, elems, j);
      ChainResolve(nodes, w, elems);
    }
  }

  lemma ChainTo(nodes: seq<Node>, i: nat, elems: seq<string>, j: nat) returns (w: seq<nat>)
    requires LeadsTo(nodes, i, elems, j)
    ensures IsChain(nodes, w, elems) && w[0] == i && w[|elems|] == j
  {
    hide Named;
    w :| IsChain(nodes, w, elems) && w[0] == i && w[|elems|] == j;
  }

  /** The holder is where all but the last element lead, if that is a directory. */
  lemma {:induction false} HolderExactly(nodes: seq<Node>, i: nat, elems: seq<string>, d: nat)
    ensures Holder(nodes, i, elems) == Some(d) <==> Holds(nodes, i, elems, d)
    decreases |elems|
  {
    hide LeadsTo, Resolve, Find;
    if elems != [] {
      ResolveExactly(nodes, i, elems[..|elems| - 1], d);
      HolderWalks(nodes, i, elems);
    }
  }

  lemma {:induction false} HolderWalks(nodes: seq<Node>, i: nat, elems: seq<string>)
    requires elems != []
    ensures var r := Resolve(nodes, i, elems[..|elems| - 1]);
            Holder(nodes, i, elems) == if r.Some? && r.value < |nodes| && nodes[r.value].kind == Dir then r else None
    decreases |elems|
  {
    if |elems| > 1 && i < |nodes| && nodes[i].kind == Dir {
      var r := Find(nodes[i].ents, NameKey(elems[0]));
      assert elems[..|elems| - 1][1..] == elems[1..][..|elems| - 2];
      if r.Some? { HolderWalks(nodes, r.value, elems[1..]); }
    }
  }

  lemma NamexExactly(nodes: seq<Node>, i: nat, elems: seq<string>)
    ensures forall j: nat :: Resolve(nodes, i, elems) == Some(j) <==> LeadsTo(nodes, i, elems, j)
    ensures forall j: nat :: Holder(nodes, i, elems) == Some(j) <==> Holds(nodes, i, elems, j)
  {
    hide *;
    forall j: nat ensures Resolve(nodes, i, elems) == Some(j) <==> LeadsTo(nodes, i, elems, j) {
      ResolveExactly(nodes, i, elems, j);
    }
    forall j: nat ensures Holder(nodes, i, elems) == Some(j) <==> Holds(nodes, i, elems, j) {
      HolderExactly(nodes, i, elems, j);
    }
  }

  /** namex: the inode of the path, or with `parent` its holder and the last name. */
  method Namex(t: Inodes, path: string, cwd: nat, parent: bool) returns (r: Option<nat>, name: seq<char>)
    requires t.root < |t.nodes| && cwd < |t.nodes| && forall k | 0 <= k < |path| :: path[k] != '\0'
    requires forall d, k | 0 <= d < |t.nodes| && 0 <= k < |t.nodes[d].ents| :: t.nodes[d].ents[k].inum < |t.nodes|
    ensures var start := if path != "" && path[0] == '/' then t.root else cwd;
            forall j: nat :: r == Some(j) <==>
              if parent then Holds(t.nodes, start, Elements(path), j) else LeadsTo(t.nodes, start, Elements(path), j)
    ensures parent && r.Some? ==> Elements(path) != [] && NameKey(name) == NameKey(Elements(path)[|Elements(path)| - 1])
  {
    hide LeadsTo, Holds;
    ghost var elems := Elements(path);
    var ip: nat := if path != "" && path[0] == '/' then t.root else cwd;
    ghost var start := ip;
    NamexExactly(t.nodes, start, elems);
    var buf := new char[DIRSIZ];
    var p := path;
    while true
      invariant ip < |t.nodes| && (forall k | 0 <= k < |p| :: p[k] != '\0')
      invariant Resolve(t.nodes, ip, Elements(p)) == Resolve(t.nodes, start, elems)
      invariant Holder(t.nodes, ip, Elements(p)) == Holder(t.nodes, start, elems) || (elems != [] && Elements(p) == [])
      invariant Elements(p) != [] ==> elems != [] && elems[|elems| - 1] == Elements(p)[|Elements(p)| - 1]
      invariant elems != [] && Elements(p) == [] ==> !parent
      decreases |p|
    {
      ghost var before := Elements(p);
      var rest, found := Skipelem(p, buf);
      if !found { break; }
      if t.nodes[ip].kind != Dir { return None, []; }
      RestEmpty(rest);
      if parent && rest == "" { return Some(ip), buf[..]; }
      var off := t.Dirlookup(ip, buf[..]);
      if off.None? { return None, []; }
      ip := t.nodes[ip].ents[off.value].inum;
      p := rest;
    }
    if parent { return None, []; }
    return Some(ip), [];
  }

  lemma RestEmpty(rest: string)
    requires rest != "" ==> rest[0] != '/'
    ensures rest == "" <==> Elements(rest) == []
  {
  }
}
