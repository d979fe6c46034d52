/** connection.go: the store access layer.  A connection remembers the stat
    of its last successful read, and its `Set` is conditional on that stat's
    version.  Retried reads (`Exists`, `Get`, `Children`) are one eventually
    successful call of the store primitive; their error is always nil, so it
    is not returned. */
module Conn {
  import opened Common
  import opened ZPath
  import opened Keys
  import opened Records
  import opened Tree
  import opened Text

  /** The payload `[]byte(data)` writes: no bytes for "", the text otherwise. */
  function StringPayload(s: string): (p: Payload)
    ensures p.Empty? <==> s == ""
    ensures p.Raw? <==> s != ""
    ensures p.Raw? ==> p.text == s
  {
    if s == "" then Empty else Raw(s)
  }

  /** `strings.ToUpper(v) == "TRUE"`. */
  function TrueFlag(v: string): (b: bool)
    ensures b <==> |v| == 4 && v[0] in "tT" && v[1] in "rR" && v[2] in "uU" && v[3] in "eE"
  {
    UpperIsTrue(v);
    ToUpper(v) == "TRUE"
  }

  /** The store after `ensurePathExists(p)`: `p` and its missing ancestors
      added as empty nodes at version 0. */
  ghost function WithPath(nodes: map<string, Node>, p: string): (r: map<string, Node>)
    requires WellFormed(nodes) && ValidPath(p)
    ensures WellFormed(r)
    ensures r.Keys == nodes.Keys + Ancestry(p)
    ensures forall k :: k in nodes ==> r[k] == nodes[k]
    ensures forall k :: k in r && k !in nodes ==> r[k] == Node(Empty, 0)
    decreases |p|
  {
    if p in nodes then
      AncestryPresent(nodes, p);
      nodes
    else
      WithPath(nodes, Dir(p))[p := Node(Empty, 0)]
  }

  /** The nearest present path among `p` and its ancestors. */
  ghost function Nearest(nodes: map<string, Node>, p: string): (r: string)
    requires WellFormed(nodes) && ValidPath(p)
    ensures r in nodes && r in Ancestry(p)
    ensures p in nodes ==> r == p
    ensures forall a :: a in Ancestry(p) && a in nodes ==> |a| <= |r|
    decreases |p|
  {
    if p in nodes then p else Nearest(nodes, Dir(p))
  }

  /** The stat `IsClusterSetup` leaves behind: that of the first missing
      cluster path, or of the last one when all are present. */
  function SetupStat(nodes: map<string, Node>, c: string): nat {
    var paths := ClusterPaths(c);
    StatVersion(nodes, paths[Checked(nodes, paths)])
  }

  /** The index of the path whose stat `ExistsAll` leaves behind: the first
      missing one, or the last one when all are present. */
  function Checked(nodes: map<string, Node>, paths: seq<string>): (i: nat)
    requires |paths| > 0
    ensures i < |paths|
    ensures forall j :: 0 <= j < i ==> paths[j] in nodes
    ensures paths[i] !in nodes || i == |paths| - 1
  {
    if paths[0] !in nodes || |paths| == 1 then 0 else 1 + Checked(nodes, paths[1..])
  }

  /** `IsClusterSetup`'s condition: every one of the cluster's thirteen
      fixed paths is present. */
  ghost predicate ClusterIsSetup(nodes: map<string, Node>, c: string) {
    forall i :: 0 <= i < |ClusterPaths(c)| ==> ClusterPaths(c)[i] in nodes
  }

  /** The collections the admin operations write under are among those a
      set-up cluster has. */
  lemma SetUpCollections(nodes: map<string, Node>, c: string)
    requires ClusterIsSetup(nodes, c)
    ensures Cluster(c) in nodes && IdealStates(c) in nodes && ParticipantConfigs(c) in nodes && Instances(c) in nodes
  {
    var p := ClusterPaths(c);
    assert p[0] == Cluster(c) && p[1] == IdealStates(c) && p[2] == ParticipantConfigs(c) && p[5] == Instances(c);
    assert p[0] in nodes && p[1] in nodes && p[2] in nodes && p[5] in nodes;
  }

  /** Read-modify-write helpers only ever hand a present path to `Set`, with
      the version just read: such a set always succeeds. */
  lemma SetAfterGet(nodes: map<string, Node>, path: string)
    requires WellFormed(nodes) && path in nodes
    ensures SetError(nodes, path, nodes[path].version) == None
  {
  }

  class Connection {
    const store: Store
    /** The version of `conn.stat`; `None` while it is still nil. */
    var lastStat: Option<nat>

    /** `newConnection`: no stat yet. */
    constructor (store: Store)
      ensures this.store == store && lastStat == None
    {
      this.store := store;
      lastStat := None;
    }

    method Exists(path: string) returns (found: bool)
      requires store.Valid() && ValidPath(path)
      modifies this
      ensures found <==> path in store.nodes
      ensures lastStat == Some(StatVersion(store.nodes, path))
    {
      found := path in store.nodes;
      lastStat := Some(StatVersion(store.nodes, path));
    }

    /** True iff every path exists; stops at the first missing one. */
    method ExistsAll(paths: seq<string>) returns (all: bool)
      requires store.Valid()
      requires forall i :: 0 <= i < |paths| ==> ValidPath(paths[i])
      modifies this
      ensures all <==> forall i :: 0 <= i < |paths| ==> paths[i] in store.nodes
      ensures |paths| == 0 ==> lastStat == old(lastStat)
      ensures |paths| > 0 ==> lastStat == Some(StatVersion(store.nodes, paths[Checked(store.nodes, paths)]))
    {
      var i := 0;
      while i < |paths|
        invariant 0 <= i <= |paths|
        invariant store.nodes == old(store.nodes)
        invariant forall j :: 0 <= j < i ==> paths[j] in store.nodes
        invariant i == 0 ==> lastStat == old(lastStat)
        invariant i > 0 ==> lastStat == Some(StatVersion(store.nodes, paths[i - 1]))
      {
        var found := Exists(paths[i]);
        if !found {
          CheckedAt(store.nodes, paths, i);
          assert paths[Checked(store.nodes, paths)] == paths[i];
          return false;
        }
        i := i + 1;
      }
      if |paths| > 0 {
        CheckedAt(store.nodes, paths, |paths| - 1);
        assert paths[Checked(store.nodes, paths)] == paths[|paths| - 1];
      }
      return true;
    }

    /** A read of a present node; a read of a missing one is retried forever. */
    method Get(path: string) returns (data: Payload)
      requires store.Valid() && path in store.nodes
      modifies this
      ensures data == store.nodes[path].data
      ensures lastStat == Some(store.nodes[path].version)
    {
      data := store.nodes[path].data;
      lastStat := Some(store.nodes[path].version);
    }

    /** Conditional on the last read's version; a nil stat is dereferenced,
        which panics. */
    method Set(path: string, data: Payload) returns (err: Option<Error>)
      requires store.Valid()
      modifies store
      ensures store.Valid()
      ensures lastStat.None? ==> err == Some(Panic) && store.nodes == old(store.nodes)
      ensures lastStat.Some? ==> err == SetError(old(store.nodes), path, lastStat.value)
      ensures lastStat.Some? && err.None? ==>
        store.nodes == old(store.nodes)[path := Node(data, old(store.nodes)[path].version + 1)]
      ensures lastStat.Some? && err.Some? ==> store.nodes == old(store.nodes)
    {
      if lastStat.None? {
        return Some(Panic);
      }
      err := store.Set(path, data, lastStat.value);
    }

    method Create(path: string, data: Payload) returns (err: Option<Error>)
      requires store.Valid()
      modifies store
      ensures store.Valid()
      ensures err == CreateError(old(store.nodes), path)
      ensures store.nodes == if err.None? then old(store.nodes)[path := Node(data, 0)] else old(store.nodes)
    {
      err := store.Create(path, data);
    }

    method CreateRecordWithData(path: string, data: string) returns (err: Option<Error>)
      requires store.Valid()
      modifies store
      ensures store.Valid()
      ensures err == CreateError(old(store.nodes), path)
      ensures store.nodes == if err.None? then old(store.nodes)[path := Node(StringPayload(data), 0)]
                             else old(store.nodes)
    {
      err := Create(path, StringPayload(data));
    }

    method CreateEmptyNode(path: string) returns (err: Option<Error>)
      requires store.Valid()
      modifies store
      ensures store.Valid()
      ensures err == CreateError(old(store.nodes), path)
      ensures store.nodes == if err.None? then old(store.nodes)[path := Node(Empty, 0)] else old(store.nodes)
    {
      err := CreateRecordWithData(path, "");
    }

    /** The children of a present node, in the order the store lists them. */
    method Children(path: string) returns (children: seq<string>)
      requires store.Valid() && path in store.nodes
      modifies this
      ensures ChildListing(store.nodes, path, children)
      ensures lastStat == Some(store.nodes[path].version)
    {
      children := Enumerate(ChildNames(store.nodes, path));
      lastStat := Some(store.nodes[path].version);
    }

    /** An unconditional delete (version -1). */
    method Delete(path: string) returns (err: Option<Error>)
      requires store.Valid()
      modifies store
      ensures store.Valid()
      ensures err == DeleteError(old(store.nodes), path, -1)
      ensures store.nodes == if err.None? then old(store.nodes) - {path} else old(store.nodes)
    {
      err := store.Delete(path, -1);
    }

    /** `ensurePathExists`: afterwards `p` and all its ancestors exist and no
        node that existed has changed; it always reports success.  The last
        stat read is that of the nearest ancestor that was present. */
    method EnsurePathExists(p: string) returns (err: Option<Error>)
      requires store.Valid() && ValidPath(p)
      modifies this, store
      ensures store.Valid()
      ensures err == None
      ensures store.nodes == WithPath(old(store.nodes), p)
      ensures lastStat == Some(old(store.nodes)[Nearest(old(store.nodes), p)].version)
      decreases |p|
    {
      var found := Exists(p);
      if found {
        return None;
      }
      var parent := Dir(p);
      var up := Exists(parent);
      if !up {
        var _ := EnsurePathExists(parent);
      }
      var _ := CreateEmptyNode(p);
      return None;
    }

    /** `CreateRecordWithPath`: ensures the parent chain, then creates `p`
        holding the record; an existing `p` makes the create fail and is
        left as it was. */
    method CreateRecordWithPath(p: string, r: Record) returns (err: Option<Error>)
      requires store.Valid() && ValidPath(p)
      modifies this, store
      ensures store.Valid()
      ensures err == if p in old(store.nodes) then Some(NodeExists) else None
      ensures p in old(store.nodes) ==> store.nodes == old(store.nodes)
      ensures p !in old(store.nodes) ==>
        store.nodes == WithPath(old(store.nodes), Dir(p))[p := Node(Marshal(r), 0)]
      ensures lastStat == Some(old(store.nodes)[Nearest(old(store.nodes), Dir(p))].version)
    {
      var parent := Dir(p);
      var _ := EnsurePathExists(parent);
      if p != "/" {
        ValidShape(p);
        assert p !in Ancestry(parent);
      }
      err := Create(p, Marshal(r));
    }

    /** `UpdateMapField`: read, decode, set one property of one map field,
        write back with the version just read. */
    method UpdateMapField(path: string, key: string, property: string, value: string) returns (err: Option<Error>)
      requires store.Valid() && path in store.nodes
      modifies this, store
      ensures store.Valid()
      ensures lastStat == Some(old(store.nodes)[path].version)
      ensures !old(store.nodes)[path].data.Rec? ==> err == Some(Malformed) && store.nodes == old(store.nodes)
      ensures old(store.nodes)[path].data.Rec? ==> err == None
      ensures old(store.nodes)[path].data.Rec? ==>
        store.nodes == old(store.nodes)[path := Node(
          Rec(SetMapField(old(store.nodes)[path].data.record, key, property, value)),
          old(store.nodes)[path].version + 1)]
    {
      var data := Get(path);
      var node := Decode(data);
      if node.Err? {
        return Some(node.error);
      }
      SetAfterGet(store.nodes, path);
      err := Set(path, Marshal(SetMapField(node.value, key, property, value)));
    }

    /** `UpdateSimpleField`: as `UpdateMapField` for one simple field; a
        payload that does not decode makes `must` panic. */
    method UpdateSimpleField(path: string, key: string, value: string) returns (err: Option<Error>)
      requires store.Valid() && path in store.nodes
      modifies this, store
      ensures store.Valid()
      ensures lastStat == Some(old(store.nodes)[path].version)
      ensures !old(store.nodes)[path].data.Rec? ==> err == Some(Panic) && store.nodes == old(store.nodes)
      ensures old(store.nodes)[path].data.Rec? ==> err == None
      ensures old(store.nodes)[path].data.Rec? ==>
        store.nodes == old(store.nodes)[path := Node(
          Rec(SetSimpleField(old(store.nodes)[path].data.record, key, value)),
          old(store.nodes)[path].version + 1)]
    {
      var data := Get(path);
      var node := Decode(data);
      if node.Err? {
        return Some(Panic);
      }
      SetAfterGet(store.nodes, path);
      err := Set(path, Marshal(SetSimpleField(node.value, key, value)));
    }

    /** `RemoveMapFieldKey`: as `UpdateMapField`, dropping one map field. */
    method RemoveMapFieldKey(path: string, key: string) returns (err: Option<Error>)
      requires store.Valid() && path in store.nodes
      modifies this, store
      ensures store.Valid()
      ensures lastStat == Some(old(store.nodes)[path].version)
      ensures !old(store.nodes)[path].data.Rec? ==> err == Some(Malformed) && store.nodes == old(store.nodes)
      ensures old(store.nodes)[path].data.Rec? ==> err == None
      ensures old(store.nodes)[path].data.Rec? ==>
        store.nodes == old(store.nodes)[path := Node(
          Rec(RemoveMapField(old(store.nodes)[path].data.record, key)),
          old(store.nodes)[path].version + 1)]
    {
      var data := Get(path);
      var node := Decode(data);
      if node.Err? {
        return Some(node.error);
      }
      SetAfterGet(store.nodes, path);
      err := Set(path, Marshal(RemoveMapField(node.value, key)));
    }

    /** `GetSimpleFieldValueByKey`: "" for a missing field; a payload that
        does not decode makes `must` panic. */
    method GetSimpleFieldValueByKey(path: string, key: string) returns (v: Result<string>)
      requires store.Valid() && path in store.nodes
      modifies this
      ensures lastStat == Some(store.nodes[path].version)
      ensures v.Err? <==> !store.nodes[path].data.Rec?
      ensures v.Err? ==> v.error == Panic
      ensures v.Ok? ==> v.value == SimpleValue(store.nodes[path].data.record, key)
    {
      var data := Get(path);
      var node := Decode(data);
      if node.Err? {
        return Err(Panic);
      }
      var field := GetSimpleField(node.value, key);
      if field.None? {
        return Ok("");
      }
      return Ok(field.value);
    }

    /** `GetSimpleFieldBool`: whether the field's value upper-cases to "TRUE". */
    method GetSimpleFieldBool(path: string, key: string) returns (b: Result<bool>)
      requires store.Valid() && path in store.nodes
      modifies this
      ensures b.Err? <==> !store.nodes[path].data.Rec?
      ensures b.Err? ==> b.error == Panic
      ensures b.Ok? ==> b.value == TrueFlag(SimpleValue(store.nodes[path].data.record, key))
      ensures lastStat == Some(store.nodes[path].version)
    {
      var v := GetSimpleFieldValueByKey(path, key);
      if v.Err? {
        return Err(v.error);
      }
      return Ok(ToUpper(v.value) == "TRUE");
    }

    /** `IsClusterSetup`: `ExistsAll` over the cluster's thirteen paths. */
    method IsClusterSetup(cluster: string) returns (ok: bool)
      requires store.Valid() && IsSegment(cluster)
      modifies this
      ensures ok <==> ClusterIsSetup(store.nodes, cluster)
      ensures lastStat == Some(SetupStat(store.nodes, cluster))
    {
      ClusterPathsValid(cluster);
      ok := ExistsAll(ClusterPaths(cluster));
    }

    method GetRecordFromPath(path: string) returns (r: Result<Record>)
      requires store.Valid() && path in store.nodes
      modifies this
      ensures r.Ok? <==> store.nodes[path].data.Rec?
      ensures r.Ok? ==> Marshal(r.value) == store.nodes[path].data
      ensures r.Err? ==> r.error == Malformed
      ensures lastStat == Some(store.nodes[path].version)
    {
      var data := Get(path);
      r := Decode(data);
    }

    /** `SetRecordForPath`: creates the path (and its ancestors) when it is
        missing, then overwrites it with the record, using the version just
        read. */
    method SetRecordForPath(path: string, r: Record) returns (err: Option<Error>)
      requires store.Valid() && ValidPath(path)
      modifies this, store
      ensures store.Valid()
      ensures err == None
      ensures store.nodes == WithPath(old(store.nodes), path)[path :=
        Node(Marshal(r), WithPath(old(store.nodes), path)[path].version + 1)]
      ensures lastStat == Some(WithPath(old(store.nodes), path)[path].version)
    {
      var found := Exists(path);
      if !found {
        var _ := EnsurePathExists(path);
      }
      var _ := Get(path);
      SetAfterGet(store.nodes, path);
      err := Set(path, Marshal(r));
    }

  /** `k` is the child `Child(q, c)` or lies below it. */
  ghost predicate InBranch(q: string, c: string, k: string) {
    k == Child(q, c) || Child(q, c) + "/" <= k
  }

  lemma BelowChild(q: string, c: string, k: string)
    requires q != "/"
    ensures InBranch(q, c, k) ==> q + "/" <= k && |k| > |q|
  {
    var ch := Child(q, c);
    assert ch == q + "/" + c;
    assert (q + "/") <= ch;
    if ch + "/" <= k {
      assert k[..|q| + 1] == ch[..|q| + 1];
    }
  }

  /** A child's subtree, in any store that only lost nodes, lies strictly
      inside the parent's subtree. */
  lemma ChildSubtree(nodes: map<string, Node>, cur: map<string, Node>, q: string, c: string)
    requires q != "/" && q in nodes && cur.Keys <= nodes.Keys
    ensures Subtree(cur, Child(q, c)) < Subtree(nodes, q)
  {
    forall k | k in Subtree(cur, Child(q, c)) ensures k in Subtree(nodes, q) {
      assert InBranch(q, c, k);
      BelowChild(q, c, k);
    }
    BelowChild(q, c, q);
    assert q in Subtree(nodes, q);
  }

  lemma BranchDeleted(nodes: map<string, Node>, q: string, c: string)
    ensures forall k :: k in nodes - Subtree(nodes, Child(q, c)) ==> !InBranch(q, c, k)
  {
  }

  lemma MissingSubtree(nodes: map<string, Node>, q: string)
    requires WellFormed(nodes) && ValidPath(q) && q !in nodes
    ensures q != "/" && Subtree(nodes, q) == {}
  {
    forall k | q + "/" <= k ensures k !in nodes {
      NothingBelowMissing(nodes, q, k);
    }
  }

  /** The elements of a finite set, each once, in an order the set does not
      fix. */
  method Enumerate(names: set<string>) returns (cs: seq<string>)
    ensures forall i, j :: 0 <= i < j < |cs| ==> cs[i] != cs[j]
    ensures forall c :: c in cs <==> c in names
  {
    var rest := names;
    cs := [];
    while rest != {}
      invariant forall c :: c in cs || c in rest <==> c in names
      invariant forall c :: c in cs ==> c !in rest
      invariant forall i, j :: 0 <= i < j < |cs| ==> cs[i] != cs[j]
      decreases |rest|
    {
      var c :| c in rest;
      cs := cs + [c];
      rest := rest - {c};
    }
  }

  lemma LeafSubtree(nodes: map<string, Node>, q: string)
    requires WellFormed(nodes) && ValidPath(q) && q != "/" && q in nodes && ChildNames(nodes, q) == {}
    ensures Subtree(nodes, q) == {q}
  {
    forall k | k in nodes && q + "/" <= k ensures false {
      BelowSomeChild(nodes, q, k);
      var c :| IsSegment(c) && Child(q, c) in nodes && (k == Child(q, c) || Child(q, c) + "/" <= k);
      ChildNamesMeaning(nodes, q, c);
    }
  }

  /** Every listed name is a segment whose child path is present. */
  lemma ListedChildren(nodes: map<string, Node>, q: string, children: seq<string>)
    requires ValidPath(q) && ChildListing(nodes, q, children)
    ensures forall j :: 0 <= j < |children| ==> IsSegment(children[j]) && Child(q, children[j]) in nodes
  {
    forall j | 0 <= j < |children| ensures IsSegment(children[j]) && Child(q, children[j]) in nodes {
      ChildNamesMeaning(nodes, q, children[j]);
    }
  }

  /** Once every listed child's branch is gone, nothing is left below `q`. */
  lemma ChildrenCleared(nodes: map<string, Node>, cur: map<string, Node>, q: string, children: seq<string>)
    requires WellFormed(cur) && ValidPath(q) && q != "/" && cur.Keys <= nodes.Keys
    requires ChildListing(nodes, q, children)
    requires forall j, k :: 0 <= j < |children| && k in cur ==> !InBranch(q, children[j], k)
    ensures forall k :: k in cur ==> !(q + "/" <= k)
    ensures ChildNames(cur, q) == {}
  {
    forall k | k in cur ensures !(q + "/" <= k) {
      if q + "/" <= k {
        BelowSomeChild(cur, q, k);
        var c :| IsSegment(c) && Child(q, c) in cur && (k == Child(q, c) || Child(q, c) + "/" <= k);
        ChildNamesMeaning(nodes, q, c);
      }
    }
    forall c ensures c !in ChildNames(cur, q) {
      ChildNamesMeaning(cur, q, c);
      BelowChild(q, c, Child(q, c));
    }
  }

  lemma DeletedTree(nodes: map<string, Node>, cur: map<string, Node>, q: string)
    requires q in cur && cur.Keys <= nodes.Keys
    requires forall k :: k in cur ==> cur[k] == nodes[k]
    requires forall k :: k in nodes && k !in Subtree(nodes, q) ==> k in cur
    requires forall k :: k in cur ==> !(q + "/" <= k)
    ensures cur - {q} == nodes - Subtree(nodes, q)
  {
  }

    /** `DeleteTree`: a missing path is a successful no-op; otherwise the
        children's subtrees go first, then the path itself.  Afterwards the
        path and everything below it are gone and nothing else changed.  For
        the root (only reachable without children: a child path of "/" built
        as path + "/" + c is not a valid path, and reading it would be
        retried forever) the final delete is refused. */
    method DeleteTree(path: string) returns (err: Option<Error>)
      requires store.Valid() && ValidPath(path)
      requires path == "/" ==> ChildNames(store.nodes, "/") == {}
      modifies this, store
      ensures store.Valid()
      ensures path == "/" ==> err == Some(BadArguments) && store.nodes == old(store.nodes)
      ensures path != "/" ==> err == None && store.nodes == old(store.nodes) - Subtree(old(store.nodes), path)
      decreases Subtree(store.nodes, path), 0
    {
      ghost var nodes0 := store.nodes;
      var found := Exists(path);
      if !found {
        MissingSubtree(nodes0, path);
        return None;
      }
      var children := Children(path);
      if |children| == 0 {
        if path != "/" {
          LeafSubtree(nodes0, path);
        }
        err := Delete(path);
        return err;
      }
      ListedChildren(nodes0, path, children);
      assert children[0] in ChildNames(nodes0, path);
      var i := 0;
      while i < |children|
        invariant store.Valid()
        invariant 0 <= i <= |children|
        invariant path in store.nodes
        invariant store.nodes.Keys <= nodes0.Keys
        invariant forall k :: k in store.nodes ==> store.nodes[k] == nodes0[k]
        invariant forall k :: k in nodes0 && k !in Subtree(nodes0, path) ==> k in store.nodes
        invariant forall j, k :: 0 <= j < i && k in store.nodes ==> !InBranch(path, children[j], k)
      {
        ChildSubtree(nodes0, store.nodes, path, children[i]);
        ghost var prev := store.nodes;
        DeleteBranch(path, children[i]);
        BranchDeleted(prev, path, children[i]);
        forall j, k | 0 <= j < i + 1 && k in store.nodes ensures !InBranch(path, children[j], k) {
          assert k in prev;
          if j == i {
            assert k in prev - Subtree(prev, Child(path, children[i]));
          }
        }
        forall k | k in nodes0 && k !in Subtree(nodes0, path) ensures !InBranch(path, children[i], k) {
          BelowChild(path, children[i], k);
        }
        BelowChild(path, children[i], path);
        i := i + 1;
      }
      ChildrenCleared(nodes0, store.nodes, path, children);
      DeletedTree(nodes0, store.nodes, path);
      err := Delete(path);
    }

    /** One step of `DeleteTree`: the subtree of the child `c` of `path`
        goes, and `path` itself stays. */
    method DeleteBranch(path: string, c: string)
      requires store.Valid() && ValidPath(path) && path != "/" && path in store.nodes && IsSegment(c)
      modifies this, store
      ensures store.Valid()
      ensures store.nodes == old(store.nodes) - Subtree(old(store.nodes), Child(path, c))
      ensures path in store.nodes
      decreases Subtree(store.nodes, Child(path, c)), 1
    {
      var child := path + "/" + c;
      assert child == Child(path, c);
      ChildParts(path, c);
      var _ := DeleteTree(child);
      BelowChild(path, c, path);
    }
  }

  lemma CheckedAt(nodes: map<string, Node>, paths: seq<string>, i: nat)
    requires i < |paths|
    requires forall j :: 0 <= j < i ==> paths[j] in nodes
    requires paths[i] !in nodes || i == |paths| - 1
    ensures Checked(nodes, paths) == i
  {
    if i > 0 && paths[0] in nodes && |paths| > 1 {
      CheckedAt(nodes, paths[1..], i - 1);
    }
  }
}
