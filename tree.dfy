/** The coordination store's data tree, as connection.go relies on it: a map
    from path to node, closed under parents, with the primitive operations of
    the store (create, versioned set, versioned delete). */
module Tree {
  import opened Common
  import opened ZPath
  import opened Records

  datatype Node = Node(data: Payload, version: nat)

  /** The store's shape invariant: the root exists, every path is valid, and
      every node but the root has its parent. */
  ghost predicate WellFormed(nodes: map<string, Node>) {
    "/" in nodes &&
    forall k :: k in nodes ==> ValidPath(k) && (k != "/" ==> Dir(k) in nodes)
  }

  /** The names of the children of `p`. */
  function ChildNames(nodes: map<string, Node>, p: string): set<string> {
    set k | k in nodes.Keys && ValidPath(k) && k != "/" && Dir(k) == p :: Name(k)
  }

  /** A listing of the children: each child once, in some order. */
  ghost predicate ChildListing(nodes: map<string, Node>, p: string, cs: seq<string>) {
    (forall i, j :: 0 <= i < j < |cs| ==> cs[i] != cs[j]) &&
    (forall c :: c in cs <==> c in ChildNames(nodes, p))
  }

  /** The version a read of `p` reports: the node's, or the zero stat the
      client library hands back for a missing node. */
  function StatVersion(nodes: map<string, Node>, p: string): nat {
    if p in nodes then nodes[p].version else 0
  }

  /** `p` and every node below it. */
  ghost function Subtree(nodes: map<string, Node>, q: string): set<string> {
    set k | k in nodes && (k == q || q + "/" <= k)
  }

  lemma ChildNamesMeaning(nodes: map<string, Node>, p: string, c: string)
    requires ValidPath(p)
    ensures c in ChildNames(nodes, p) <==> IsSegment(c) && Child(p, c) in nodes
  {
    if c in ChildNames(nodes, p) {
      var k :| k in nodes && ValidPath(k) && k != "/" && Dir(k) == p && Name(k) == c;
      assert k == Child(p, c);
    }
    if IsSegment(c) && Child(p, c) in nodes {
      ChildParts(p, c);
    }
  }

  /** Every node strictly below `q` lies in the subtree of one of `q`'s
      children. */
  lemma {:induction false} BelowSomeChild(nodes: map<string, Node>, q: string, k: string)
    requires WellFormed(nodes) && ValidPath(q) && q != "/" && k in nodes && q + "/" <= k
    ensures exists c :: IsSegment(c) && Child(q, c) in nodes && (k == Child(q, c) || Child(q, c) + "/" <= k)
    decreases |k|
  {
    DirOfDescendant(q, k);
    var d := Dir(k);
    if d == q {
      var c := Name(k);
      assert k == Child(q, c);
    } else {
      BelowSomeChild(nodes, q, d);
      var c :| IsSegment(c) && Child(q, c) in nodes && (d == Child(q, c) || Child(q, c) + "/" <= d);
      DirPrefix(k);
      var ch := Child(q, c);
      assert ch + "/" <= d + "/";
      assert ch + "/" <= k;
    }
  }

  /** Nothing lies below a missing node. */
  lemma {:induction false} NothingBelowMissing(nodes: map<string, Node>, q: string, k: string)
    requires WellFormed(nodes) && ValidPath(q) && q != "/" && q !in nodes && q + "/" <= k
    ensures k !in nodes
    decreases |k|
  {
    if k in nodes {
      DirOfDescendant(q, k);
      if Dir(k) != q {
        NothingBelowMissing(nodes, q, Dir(k));
      }
    }
  }

  /** A node's ancestors are all present. */
  lemma {:induction false} AncestryPresent(nodes: map<string, Node>, p: string)
    requires WellFormed(nodes) && p in nodes
    ensures Ancestry(p) <= nodes.Keys
    decreases |p|
  {
    if p != "/" {
      AncestryPresent(nodes, Dir(p));
    }
  }

  /** A node without children can be removed without breaking the shape. */
  lemma RemoveLeaf(nodes: map<string, Node>, p: string)
    requires WellFormed(nodes) && p in nodes && p != "/" && ChildNames(nodes, p) == {}
    ensures WellFormed(nodes - {p})
  {
    forall k | k in nodes - {p} && k != "/" ensures Dir(k) in nodes - {p} {
      ChildNamesMeaning(nodes, Dir(k), Name(k));
    }
  }

  /** Removing a whole subtree keeps the shape. */
  lemma RemoveSubtree(nodes: map<string, Node>, q: string)
    requires WellFormed(nodes) && ValidPath(q) && q != "/"
    ensures WellFormed(nodes - Subtree(nodes, q))
  {
    ValidShape(q);
    forall k | k in nodes && k != "/" && Dir(k) in Subtree(nodes, q) ensures q + "/" <= k {
      if Dir(k) != "/" {
        DirPrefix(k);
      }
    }
  }

  // ---- the store's own error rules (the usual ZooKeeper contract) ----

  function CreateError(nodes: map<string, Node>, path: string): Option<Error> {
    if !ValidPath(path) then Some(BadArguments)
    else if path in nodes then Some(NodeExists)
    else if Dir(path) !in nodes then Some(NoNode)
    else None
  }

  /** Version -1 matches any version. */
  function SetError(nodes: map<string, Node>, path: string, version: int): Option<Error> {
    if !ValidPath(path) then Some(BadArguments)
    else if path !in nodes then Some(NoNode)
    else if version != -1 && version != nodes[path].version then Some(BadVersion)
    else None
  }

  /** The root cannot be deleted; a node with children cannot be deleted. */
  function DeleteError(nodes: map<string, Node>, path: string, version: int): Option<Error> {
    if !ValidPath(path) || path == "/" then Some(BadArguments)
    else if path !in nodes then Some(NoNode)
    else if version != -1 && version != nodes[path].version then Some(BadVersion)
    else if ChildNames(nodes, path) != {} then Some(NotEmpty)
    else None
  }

  /** The store itself (one ZooKeeper namespace). */
  class Store {
    var nodes: map<string, Node>

    ghost predicate Valid()
      reads this
    {
      WellFormed(nodes)
    }

    /** A fresh namespace holds only the root. */
    constructor ()
      ensures Valid() && nodes == map["/" := Node(Empty, 0)]
    {
      nodes := map["/" := Node(Empty, 0)];
    }

    /** A new node starts at version 0. */
    method Create(path: string, data: Payload) returns (err: Option<Error>)
      requires Valid()
      modifies this
      ensures Valid()
      ensures err == CreateError(old(nodes), path)
      ensures nodes == if err.None? then old(nodes)[path := Node(data, 0)] else old(nodes)
    {
      err := CreateError(nodes, path);
      if err.None? {
        nodes := nodes[path := Node(data, 0)];
      }
    }

    /** A successful set replaces the payload and bumps the version. */
    method Set(path: string, data: Payload, version: int) returns (err: Option<Error>)
      requires Valid()
      modifies this
      ensures Valid()
      ensures err == SetError(old(nodes), path, version)
      ensures nodes == if err.None? then old(nodes)[path := Node(data, old(nodes)[path].version + 1)]
                       else old(nodes)
    {
      err := SetError(nodes, path, version);
      if err.None? {
        nodes := nodes[path := Node(data, nodes[path].version + 1)];
      }
    }

    method Delete(path: string, version: int) returns (err: Option<Error>)
      requires Valid()
      modifies this
      ensures Valid()
      ensures err == DeleteError(old(nodes), path, version)
      ensures nodes == if err.None? then old(nodes) - {path} else old(nodes)
    {
      err := DeleteError(nodes, path, version);
      if err.None? {
        RemoveLeaf(nodes, path);
        nodes := nodes - {path};
      }
    }
  }
}
