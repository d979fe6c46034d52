/** admin.go: cluster provisioning and queries.  Every operation opens its
    own connection to the store (`newConnection`), so the only state an
    operation leaves behind is the store's. */
module Admin {
  import opened Common
  import opened ZPath
  import opened Keys
  import opened Records
  import opened Tree
  import opened Text
  import opened Conn

  /** The record `AddNode` writes for a participant "host_port". */
  function ParticipantRecord(node: string): (r: Record)
    requires '_' in node
    ensures r.id == node && r.mapFields == map[] && r.listFields == map[]
    ensures r.simpleFields.Keys == {"HELIX_HOST", "HELIX_PORT"}
  {
    var parts := Split(node, '_');
    SetSimpleField(SetSimpleField(NewRecord(node), "HELIX_HOST", parts[0]), "HELIX_PORT", parts[1])
  }

  /** A participant named host + "_" + port (neither holding '_') gets
      exactly that host and port; a longer name keeps only the first two
      pieces. */
  lemma ParticipantHostPort(host: string, port: string, rest: string)
    requires '_' !in host && '_' !in port
    ensures ParticipantRecord(host + "_" + port).simpleFields == map["HELIX_HOST" := host, "HELIX_PORT" := port]
    ensures ParticipantRecord(host + "_" + port + "_" + rest).simpleFields == map["HELIX_HOST" := host, "HELIX_PORT" := port]
  {
    SplitHead(host, '_', port);
    SplitNone(port, '_');
    assert host + "_" + port + "_" + rest == host + ['_'] + (port + ['_'] + rest);
    SplitHead(host, '_', port + "_" + rest);
    SplitHead(port, '_', rest);
  }

  /** The ideal-state record `AddResource` writes. */
  function IdealStateRecord(resource: string, partitions: int, stateModel: string): (r: Record)
    ensures r.id == resource && r.mapFields == map[] && r.listFields == map[]
    ensures r.simpleFields.Keys == {"NUM_PARTITIONS", "REPLICAS", "REBALANCE_MODE", "STATE_MODEL_DEF_REF"}
  {
    var r := SetSimpleField(NewRecord(resource), "NUM_PARTITIONS", Itoa(partitions));
    var r := SetSimpleField(r, "REPLICAS", Itoa(0));
    var r := SetSimpleField(r, "REBALANCE_MODE", ToUpper("SEMI_AUTO"));
    SetSimpleField(r, "STATE_MODEL_DEF_REF", stateModel)
  }

  /** The partition count is recorded losslessly, whatever its sign, and the
      fixed fields read as intended. */
  lemma IdealStateFields(resource: string, partitions: int, stateModel: string)
    ensures Atoi(IdealStateRecord(resource, partitions, stateModel).simpleFields["NUM_PARTITIONS"]) == partitions
    ensures IdealStateRecord(resource, partitions, stateModel).simpleFields["REPLICAS"] == "0"
    ensures IdealStateRecord(resource, partitions, stateModel).simpleFields["REBALANCE_MODE"] == "SEMI_AUTO"
    ensures IdealStateRecord(resource, partitions, stateModel).simpleFields["STATE_MODEL_DEF_REF"] == stateModel
  {
    ItoaRoundTrip(partitions);
    assert Itoa(0) == "0";
    assert ToUpper("SEMI_AUTO") == "SEMI_AUTO";
  }

  /** One line per name, "  " + name + "\n", in order. */
  function Lines(names: seq<string>): (r: string)
    ensures |r| >= 3 * |names|
    ensures names != [] ==> r[|r| - 1] == '\n'
  {
    if names == [] then "" else Lines(names[..|names| - 1]) + "  " + names[|names| - 1] + "\n"
  }

  lemma {:induction false} LinesAppend(a: seq<string>, b: seq<string>)
    ensures Lines(a + b) == Lines(a) + Lines(b)
    decreases |b|
  {
    if b == [] {
      assert a + b == a;
    } else {
      var b' := b[..|b| - 1];
      var n := b[|b| - 1];
      assert (a + b)[..|a + b| - 1] == a + b' && (a + b)[|a + b| - 1] == n;
      LinesAppend(a, b');
      assert Lines(a + b) == Lines(a + b') + "  " + n + "\n";
      assert Lines(b) == Lines(b') + "  " + n + "\n";
    }
  }

  /** The listing loop of the `List...` operations: one line per name is
      appended to `head`. */
  method AppendLines(head: string, names: seq<string>) returns (s: string)
    ensures s == head + Lines(names)
  {
    s := head;
    var i := 0;
    while i < |names|
      invariant 0 <= i <= |names|
      invariant s == head + Lines(names[..i])
    {
      assert names[..i + 1][..i] == names[..i];
      s := s + "  " + names[i] + "\n";
      i := i + 1;
    }
    assert names[..|names|] == names;
  }

  /** The children of `cs` that pass `IsClusterSetup`, in order. */
  ghost function SetUpAmong(nodes: map<string, Node>, cs: seq<string>): seq<string> {
    if cs == [] then []
    else SetUpAmong(nodes, cs[..|cs| - 1]) + (if ClusterIsSetup(nodes, cs[|cs| - 1]) then [cs[|cs| - 1]] else [])
  }

  /** The filter keeps exactly the set-up members, each once. */
  lemma {:induction false} SetUpAmongMembers(nodes: map<string, Node>, cs: seq<string>)
    ensures forall c :: c in SetUpAmong(nodes, cs) <==> c in cs && ClusterIsSetup(nodes, c)
    ensures (forall i, j :: 0 <= i < j < |cs| ==> cs[i] != cs[j]) ==>
      forall i, j :: 0 <= i < j < |SetUpAmong(nodes, cs)| ==> SetUpAmong(nodes, cs)[i] != SetUpAmong(nodes, cs)[j]
    decreases |cs|
  {
    if cs != [] {
      var init := cs[..|cs| - 1];
      SetUpAmongMembers(nodes, init);
      assert cs == init + [cs[|cs| - 1]];
    }
  }

  /** `SetConfig`'s one effective case: scope "CLUSTER" in any case, with
      `allowParticipantAutoJoin` given as "true" in any case. */
  predicate AutoJoinRequested(scope: string, properties: map<string, string>) {
    ToUpper(scope) == "CLUSTER" && "allowParticipantAutoJoin" in properties &&
    ToLower(properties["allowParticipantAutoJoin"]) == "true"
  }

  /** `SetConfig` acts exactly when the scope spells "cluster" in any mix of
      cases (the long s included) and the auto-join property spells "true"
      in any mix of cases. */
  lemma AutoJoinScopeAnyCase(scope: string, properties: map<string, string>)
    ensures AutoJoinRequested(scope, properties) <==>
      (|scope| == 7 && scope[0] in "cC" && scope[1] in "lL" && scope[2] in "uU" &&
       scope[3] in "sS\U{017F}" && scope[4] in "tT" && scope[5] in "eE" && scope[6] in "rR") &&
      "allowParticipantAutoJoin" in properties &&
      (var v := properties["allowParticipantAutoJoin"];
       |v| == 4 && v[0] in "tT" && v[1] in "rR" && v[2] in "uU" && v[3] in "eE")
  {
    UpperIsCluster(scope);
    if "allowParticipantAutoJoin" in properties {
      LowerIsTrue(properties["allowParticipantAutoJoin"]);
    }
  }

  /** The store after `UpdateSimpleField` on a node holding a record. */
  ghost function WithSimpleField(nodes: map<string, Node>, path: string, key: string, value: string): map<string, Node>
    requires path in nodes && nodes[path].data.Rec?
  {
    nodes[path := Node(Rec(SetSimpleField(nodes[path].data.record, key, value)), nodes[path].version + 1)]
  }

  class Admin {
    const zk: Store
    /** `HelixDefaultNodes`: the definition text of each built-in state
        model, by name (a missing name reads as ""). */
    const defaultNodes: map<string, string>

    constructor (zk: Store, defaultNodes: map<string, string>)
      ensures this.zk == zk && this.defaultNodes == defaultNodes
    {
      this.zk := zk;
      this.defaultNodes := defaultNodes;
    }

    /** Lays down the cluster skeleton, unless `/cluster` is already there.
        Each create's own failure is ignored, as in the source; a fresh
        cluster then passes `IsClusterSetup`. */
    method AddCluster(cluster: string) returns (err: Option<Error>)
      requires zk.Valid() && IsSegment(cluster)
      modifies zk
      ensures zk.Valid()
      ensures Cluster(cluster) in old(zk.nodes) ==> err == Some(NodeAlreadyExists) && zk.nodes == old(zk.nodes)
      ensures Cluster(cluster) !in old(zk.nodes) ==>
        err == None && zk.nodes == Apply(old(zk.nodes), Skeleton(cluster, defaultNodes))
      ensures Cluster(cluster) !in old(zk.nodes) ==> ClusterIsSetup(zk.nodes, cluster)
      ensures Cluster(cluster) !in old(zk.nodes) ==>
        ClusterConfig(cluster) in zk.nodes && zk.nodes[ClusterConfig(cluster)] == Node(Rec(NewRecord(cluster)), 0)
      ensures forall k :: k in old(zk.nodes) ==> k in zk.nodes && zk.nodes[k] == old(zk.nodes)[k]
    {
      var conn := new Connection(zk);
      ClusterValid(cluster);
      var present := conn.Exists(Cluster(cluster));
      if present {
        return Some(NodeAlreadyExists);
      }
      ghost var m0 := zk.nodes;
      CreateClusterRoot(conn, cluster);
      StateModelNamesAreSegments();
      CreateStateModels(conn, cluster, StateModelNames());
      CreateConfigs(conn, cluster);
      CreateControllerNodes(conn, cluster);
      var top, sm, cf := TopEntries(cluster), StateModelEntries(cluster, StateModelNames(), defaultNodes), ConfigEntries(cluster);
      TopApplied(m0, cluster);
      StateModelsApplied(Apply(m0, top), cluster, StateModelNames(), defaultNodes);
      ConfigsApplied(Apply(m0, top + sm), cluster);
      ControllerApplied(Apply(m0, top + sm + cf), cluster);
      ApplyAppend(m0, top, sm);
      ApplyAppend(m0, top + sm, cf);
      ApplyAppend(m0, top + sm + cf, ControllerEntries(cluster));
      SkeletonSetsUp(m0, cluster, defaultNodes);
      SkeletonClusterConfig(m0, cluster, defaultNodes);
      ApplyKeys(m0, Skeleton(cluster, defaultNodes));
      return None;
    }

    /** `conn.CreateEmptyNode(p)` with its error ignored, under a present
        parent: the node is added unless it is already there. */
    method CreateEmptyIfMissing(conn: Connection, p: string)
      requires conn.store == zk && zk.Valid() && ValidPath(p) && p != "/" && Dir(p) in zk.nodes
      modifies zk
      ensures zk.Valid()
      ensures zk.nodes == AddIfMissing(old(zk.nodes), p, Empty)
    {
      var _ := conn.CreateEmptyNode(p);
    }

    /** `conn.CreateRecordWithData(p, data)` with its error ignored. */
    method CreateDataIfMissing(conn: Connection, p: string, data: string)
      requires conn.store == zk && zk.Valid() && ValidPath(p) && p != "/" && Dir(p) in zk.nodes
      modifies zk
      ensures zk.Valid()
      ensures zk.nodes == AddIfMissing(old(zk.nodes), p, StringPayload(data))
    {
      var _ := conn.CreateRecordWithData(p, data);
    }

    /** `conn.CreateRecordWithPath(p, r)` with its error ignored, under a
        present parent. */
    method CreateRecordIfMissing(conn: Connection, p: string, r: Record)
      requires conn.store == zk && zk.Valid() && ValidPath(p) && p != "/" && Dir(p) in zk.nodes
      modifies zk, conn
      ensures zk.Valid()
      ensures zk.nodes == AddIfMissing(old(zk.nodes), p, Rec(r))
    {
      assert WithPath(zk.nodes, Dir(p)) == zk.nodes;
      var _ := conn.CreateRecordWithPath(p, r);
    }

    /** The cluster node and its first six collections. */
    method CreateClusterRoot(conn: Connection, cluster: string)
      requires conn.store == zk && zk.Valid() && IsSegment(cluster)
      modifies zk
      ensures zk.Valid()
      ensures zk.nodes == TopCreated(old(zk.nodes), cluster)
      ensures Cluster(cluster) in zk.nodes && StateModels(cluster) in zk.nodes
    {
      ClusterValid(cluster);
      CreateEmptyIfMissing(conn, Cluster(cluster));
      PropertyStoreValid(cluster);
      CreateEmptyIfMissing(conn, PropertyStore(cluster));
      InstancesValid(cluster);
      CreateEmptyIfMissing(conn, Instances(cluster));
      IdealStatesValid(cluster);
      CreateEmptyIfMissing(conn, IdealStates(cluster));
      ExternalViewValid(cluster);
      CreateEmptyIfMissing(conn, ExternalView(cluster));
      LiveInstancesValid(cluster);
      CreateEmptyIfMissing(conn, LiveInstances(cluster));
      StateModelsValid(cluster);
      CreateEmptyIfMissing(conn, StateModels(cluster));
    }

    /** One state model definition, seeded from `defaultNodes`. */
    method CreateStateModel(conn: Connection, cluster: string, name: string)
      requires conn.store == zk && zk.Valid() && IsSegment(cluster) && IsSegment(name)
      requires StateModels(cluster) in zk.nodes && Cluster(cluster) in zk.nodes
      modifies zk
      ensures zk.Valid()
      ensures zk.nodes == AddIfMissing(old(zk.nodes), StateModel(cluster, name), DefaultPayload(defaultNodes, name))
      ensures StateModels(cluster) in zk.nodes && Cluster(cluster) in zk.nodes
    {
      StateModelValid(cluster, name);
      CreateDataIfMissing(conn, StateModel(cluster, name), if name in defaultNodes then defaultNodes[name] else "");
    }

    /** The state model definitions, one create per name. */
    method CreateStateModels(conn: Connection, cluster: string, names: seq<string>)
      requires conn.store == zk && zk.Valid() && IsSegment(cluster)
      requires |names| == 6 && forall i :: 0 <= i < 6 ==> IsSegment(names[i])
      requires StateModels(cluster) in zk.nodes
      requires Cluster(cluster) in zk.nodes
      modifies zk
      ensures zk.Valid()
      ensures zk.nodes == StateModelsCreated(old(zk.nodes), cluster, names, defaultNodes)
      ensures Cluster(cluster) in zk.nodes
    {
      CreateStateModel(conn, cluster, names[0]);
      CreateStateModel(conn, cluster, names[1]);
      CreateStateModel(conn, cluster, names[2]);
      CreateStateModel(conn, cluster, names[3]);
      CreateStateModel(conn, cluster, names[4]);
      CreateStateModel(conn, cluster, names[5]);
    }

    /** The config collections and the cluster config record. */
    method CreateConfigs(conn: Connection, cluster: string)
      requires conn.store == zk && zk.Valid() && IsSegment(cluster)
      requires Cluster(cluster) in zk.nodes
      modifies zk, conn
      ensures zk.Valid()
      ensures zk.nodes == ConfigsCreated(old(zk.nodes), cluster)
      ensures Cluster(cluster) in zk.nodes
    {
      ConfigsValid(cluster);
      CreateEmptyIfMissing(conn, Configs(cluster));
      ParticipantConfigsValid(cluster);
      CreateEmptyIfMissing(conn, ParticipantConfigs(cluster));
      ResourceConfigsValid(cluster);
      CreateEmptyIfMissing(conn, ResourceConfigs(cluster));
      ClusterConfigsValid(cluster);
      CreateEmptyIfMissing(conn, ClusterConfigs(cluster));
      ClusterConfigValid(cluster);
      var clusterNode := NewRecord(cluster);
      CreateRecordIfMissing(conn, ClusterConfig(cluster), clusterNode);
    }

    /** The controller node and its four collections. */
    method CreateControllerNodes(conn: Connection, cluster: string)
      requires conn.store == zk && zk.Valid() && IsSegment(cluster)
      requires Cluster(cluster) in zk.nodes
      modifies zk
      ensures zk.Valid()
      ensures zk.nodes == ControllerCreated(old(zk.nodes), cluster)
    {
      ControllerValid(cluster);
      CreateEmptyIfMissing(conn, Controller(cluster));
      ControllerErrorsValid(cluster);
      CreateEmptyIfMissing(conn, ControllerErrors(cluster));
      ControllerHistoryValid(cluster);
      CreateEmptyIfMissing(conn, ControllerHistory(cluster));
      ControllerMessagesValid(cluster);
      CreateEmptyIfMissing(conn, ControllerMessages(cluster));
      ControllerStatusUpdatesValid(cluster);
      CreateEmptyIfMissing(conn, ControllerStatusUpdates(cluster));
    }

    method DropCluster(cluster: string) returns (err: Option<Error>)
      requires zk.Valid() && IsSegment(cluster)
      modifies zk
      ensures zk.Valid()
      ensures err == None
      ensures zk.nodes == old(zk.nodes) - Subtree(old(zk.nodes), Cluster(cluster))
    {
      var conn := new Connection(zk);
      ClusterValid(cluster);
      err := conn.DeleteTree("/" + cluster);
    }

    method SetConfig(cluster: string, scope: string, properties: map<string, string>) returns (err: Option<Error>)
      requires zk.Valid()
      requires AutoJoinRequested(scope, properties) ==> ClusterConfig(cluster) in zk.nodes
      modifies zk
      ensures zk.Valid()
      ensures !AutoJoinRequested(scope, properties) ==> err == None && zk.nodes == old(zk.nodes)
      ensures AutoJoinRequested(scope, properties) && !old(zk.nodes)[ClusterConfig(cluster)].data.Rec? ==>
        err == Some(Panic) && zk.nodes == old(zk.nodes)
      ensures AutoJoinRequested(scope, properties) && old(zk.nodes)[ClusterConfig(cluster)].data.Rec? ==>
        err == None && zk.nodes == WithSimpleField(old(zk.nodes), ClusterConfig(cluster), "allowParticipantAutoJoin", "true")
    {
      var conn := new Connection(zk);
      if ToUpper(scope) == "CLUSTER" {
        if "allowParticipantAutoJoin" in properties {
          var path := ClusterConfig(cluster);
          if ToLower(properties["allowParticipantAutoJoin"]) == "true" {
            var e := conn.UpdateSimpleField(path, "allowParticipantAutoJoin", "true");
            if e.Some? {
              return e;
            }
          }
        }
      }
      return None;
    }

    /** `AllowParticipantAutoJoin(cluster, false)` writes nothing: only a
        "true" value reaches the store. */
    method AllowParticipantAutoJoin(cluster: string, yes: bool) returns (err: Option<Error>)
      requires zk.Valid()
      requires yes ==> ClusterConfig(cluster) in zk.nodes
      modifies zk
      ensures zk.Valid()
      ensures !yes ==> err == None && zk.nodes == old(zk.nodes)
      ensures yes && !old(zk.nodes)[ClusterConfig(cluster)].data.Rec? ==>
        err == Some(Panic) && zk.nodes == old(zk.nodes)
      ensures yes && old(zk.nodes)[ClusterConfig(cluster)].data.Rec? ==>
        err == None && zk.nodes == WithSimpleField(old(zk.nodes), ClusterConfig(cluster), "allowParticipantAutoJoin", "true")
    {
      var properties := map["allowParticipantAutoJoin" := "false"];
      if yes {
        properties := properties["allowParticipantAutoJoin" := "true"];
      }
      assert ToUpper("CLUSTER") == "CLUSTER";
      assert ToLower("true") == "true";
      assert ToLower("false") != "true";
      err := SetConfig(cluster, "CLUSTER", properties);
    }

    /** Scope "CLUSTER" only, matched case-sensitively; each requested key
        maps to its simple field in the cluster config, "" when missing. */
    method GetConfig(cluster: string, scope: string, keys: seq<string>) returns (result: Result<map<string, string>>)
      requires zk.Valid()
      requires scope == "CLUSTER" && |keys| > 0 ==> ClusterConfig(cluster) in zk.nodes
      ensures scope != "CLUSTER" || keys == [] ==> result == Ok(map[])
      ensures scope == "CLUSTER" && keys != [] ==>
        (result.Err? <==> !zk.nodes[ClusterConfig(cluster)].data.Rec?)
      ensures result.Err? ==> result.error == Panic
      ensures scope == "CLUSTER" && result.Ok? ==>
        (forall k :: k in result.value <==> k in keys) &&
        (forall k :: k in result.value ==> result.value[k] == SimpleValue(zk.nodes[ClusterConfig(cluster)].data.record, k))
    {
      var conn := new Connection(zk);
      var m: map<string, string> := map[];
      if scope == "CLUSTER" {
        var path := ClusterConfig(cluster);
        var i := 0;
        while i < |keys|
          invariant 0 <= i <= |keys|
          invariant forall k :: k in m <==> k in keys[..i]
          invariant i > 0 ==> zk.nodes[path].data.Rec?
          invariant forall k :: k in m ==> m[k] == SimpleValue(zk.nodes[path].data.record, k)
        {
          var v := conn.GetSimpleFieldValueByKey(path, keys[i]);
          if v.Err? {
            return Err(Panic);
          }
          m := m[keys[i] := v.value];
          assert keys[..i + 1] == keys[..i] + [keys[i]];
          i := i + 1;
        }
        assert keys[..|keys|] == keys;
      }
      return Ok(m);
    }

    /** `AddNode`: the cluster must be set up and the participant new; the
        name must hold '_' (otherwise `parts[1]` is out of range). */
    method AddNode(cluster: string, node: string) returns (err: Option<Error>)
      requires zk.Valid() && IsSegment(cluster) && IsSegment(node)
      modifies zk
      ensures zk.Valid()
      ensures !ClusterIsSetup(old(zk.nodes), cluster) ==> err == Some(ClusterNotSetup) && zk.nodes == old(zk.nodes)
      ensures ClusterIsSetup(old(zk.nodes), cluster) && ParticipantConfig(cluster, node) in old(zk.nodes) ==>
        err == Some(NodeAlreadyExists) && zk.nodes == old(zk.nodes)
      ensures ClusterIsSetup(old(zk.nodes), cluster) && ParticipantConfig(cluster, node) !in old(zk.nodes) && '_' !in node ==>
        err == Some(Panic) && zk.nodes == old(zk.nodes)
      ensures ClusterIsSetup(old(zk.nodes), cluster) && ParticipantConfig(cluster, node) !in old(zk.nodes) && '_' in node ==>
        err == None && zk.nodes == NodeAdded(old(zk.nodes), cluster, node)
    {
      var conn := new Connection(zk);
      var ok := conn.IsClusterSetup(cluster);
      if !ok {
        return Some(ClusterNotSetup);
      }
      ParticipantConfigValid(cluster, node);
      var path := ParticipantConfig(cluster, node);
      var present := conn.Exists(path);
      if present {
        return Some(NodeAlreadyExists);
      }
      SetUpCollections(zk.nodes, cluster);
      err := CreateParticipant(conn, cluster, node);
    }

    /** The populating half of `addNode`: the participant config record
        from the "host_port" name, then the instance nodes. */
    method CreateParticipant(conn: Connection, cluster: string, node: string) returns (err: Option<Error>)
      requires conn.store == zk && zk.Valid() && IsSegment(cluster) && IsSegment(node)
      requires ParticipantConfigs(cluster) in zk.nodes && Instances(cluster) in zk.nodes
      requires ParticipantConfig(cluster, node) !in zk.nodes
      modifies zk, conn
      ensures zk.Valid()
      ensures '_' !in node ==> err == Some(Panic) && zk.nodes == old(zk.nodes)
      ensures '_' in node ==> err == None && zk.nodes == NodeAdded(old(zk.nodes), cluster, node)
    {
      var parts := Split(node, '_');
      if |parts| < 2 {
        return Some(Panic);
      }
      var n := NewRecord(node);
      n := SetSimpleField(n, "HELIX_HOST", parts[0]);
      n := SetSimpleField(n, "HELIX_PORT", parts[1]);
      assert n == ParticipantRecord(node);
      StoreParticipant(conn, cluster, node, n);
      return None;
    }

    method StoreParticipant(conn: Connection, cluster: string, node: string, n: Record)
      requires conn.store == zk && zk.Valid() && IsSegment(cluster) && IsSegment(node) && '_' in node
      requires ParticipantConfigs(cluster) in zk.nodes && Instances(cluster) in zk.nodes
      requires ParticipantConfig(cluster, node) !in zk.nodes
      requires n == ParticipantRecord(node)
      modifies zk, conn
      ensures zk.Valid()
      ensures zk.nodes == NodeAdded(old(zk.nodes), cluster, node)
    {
      var path := ParticipantConfig(cluster, node);
      ParticipantConfigValid(cluster, node);
      assert WithPath(zk.nodes, Dir(path)) == zk.nodes;
      var _ := conn.CreateRecordWithPath(path, n);
      CreateInstanceNodes(conn, cluster, node);
    }

    /** The five empty nodes `addNode` creates for a new instance: the
        instance node and its MESSAGES, CURRENTSTATES, ERRORS and
        STATUSUPDATES children. */
    method CreateInstanceNodes(conn: Connection, cluster: string, node: string)
      requires conn.store == zk && zk.Valid() && IsSegment(cluster) && IsSegment(node)
      requires Instances(cluster) in zk.nodes
      modifies zk
      ensures zk.Valid()
      ensures zk.nodes == InstanceAdded(old(zk.nodes), cluster, node)
    {
      InstanceValid(cluster, node);
      CreateEmptyIfMissing(conn, Instance(cluster, node));
      MessagesValid(cluster, node);
      CreateEmptyIfMissing(conn, Messages(cluster, node));
      CurrentStatesValid(cluster, node);
      CreateEmptyIfMissing(conn, CurrentStates(cluster, node));
      ErrorsRValid(cluster, node);
      CreateEmptyIfMissing(conn, ErrorsR(cluster, node));
      StatusUpdatesValid(cluster, node);
      CreateEmptyIfMissing(conn, StatusUpdates(cluster, node));
    }

    method DropNode(cluster: string, node: string) returns (err: Option<Error>)
      requires zk.Valid() && IsSegment(cluster) && IsSegment(node)
      modifies zk
      ensures zk.Valid()
      ensures ParticipantConfig(cluster, node) !in old(zk.nodes) ==> err == Some(NodeNotExist) && zk.nodes == old(zk.nodes)
      ensures ParticipantConfig(cluster, node) in old(zk.nodes) && Instance(cluster, node) !in old(zk.nodes) ==>
        err == Some(InstanceNotExist) && zk.nodes == old(zk.nodes)
      ensures ParticipantConfig(cluster, node) in old(zk.nodes) && Instance(cluster, node) in old(zk.nodes) ==>
        err == None &&
        zk.nodes == old(zk.nodes) - Subtree(old(zk.nodes), ParticipantConfig(cluster, node))
                                  - Subtree(old(zk.nodes), Instance(cluster, node))
    {
      var conn := new Connection(zk);
      ParticipantConfigValid(cluster, node);
      InstanceValid(cluster, node);
      var present := conn.Exists(ParticipantConfig(cluster, node));
      if !present {
        return Some(NodeNotExist);
      }
      present := conn.Exists(Instance(cluster, node));
      if !present {
        return Some(InstanceNotExist);
      }
      var _ := conn.DeleteTree(ParticipantConfig(cluster, node));
      var _ := conn.DeleteTree(Instance(cluster, node));
      return None;
    }

    /** `DropInstance` ignores its `zkSvr` argument and deletes the instance
        node unconditionally; a node with children is refused. */
    method DropInstance(zkSvr: string, cluster: string, instance: string) returns (err: Option<Error>)
      requires zk.Valid()
      modifies zk
      ensures zk.Valid()
      ensures err == DeleteError(old(zk.nodes), Instance(cluster, instance), -1)
      ensures zk.nodes == if err.None? then old(zk.nodes) - {Instance(cluster, instance)} else old(zk.nodes)
    {
      var conn := new Connection(zk);
      err := conn.Delete(Instance(cluster, instance));
    }

    method AddResource(cluster: string, resource: string, partitions: int, stateModel: string) returns (err: Option<Error>)
      requires zk.Valid() && IsSegment(cluster) && IsSegment(resource) && IsSegment(stateModel)
      modifies zk
      ensures zk.Valid()
      ensures !ClusterIsSetup(old(zk.nodes), cluster) ==> err == Some(ClusterNotSetup) && zk.nodes == old(zk.nodes)
      ensures ClusterIsSetup(old(zk.nodes), cluster) && StateModel(cluster, stateModel) !in old(zk.nodes) ==>
        err == Some(StateModelDefNotExist) && zk.nodes == old(zk.nodes)
      ensures ClusterIsSetup(old(zk.nodes), cluster) && StateModel(cluster, stateModel) in old(zk.nodes) &&
              IdealStateForResource(cluster, resource) in old(zk.nodes) ==>
        err == Some(ResourceExists) && zk.nodes == old(zk.nodes)
      ensures ClusterIsSetup(old(zk.nodes), cluster) && StateModel(cluster, stateModel) in old(zk.nodes) &&
              IdealStateForResource(cluster, resource) !in old(zk.nodes) ==>
        err == None &&
        zk.nodes == old(zk.nodes)[IdealStateForResource(cluster, resource) :=
                                  Node(Rec(IdealStateRecord(resource, partitions, stateModel)), 0)]
    {
      var conn := new Connection(zk);
      var ok := conn.IsClusterSetup(cluster);
      if !ok {
        return Some(ClusterNotSetup);
      }
      StateModelValid(cluster, stateModel);
      var present := conn.Exists(StateModel(cluster, stateModel));
      if !present {
        return Some(StateModelDefNotExist);
      }
      var isPath := IdealStates(cluster) + "/" + resource;
      EntriesNest(cluster, resource);
      IdealStateForResourceValid(cluster, resource);
      present := conn.Exists(isPath);
      if present {
        return Some(ResourceExists);
      }
      var ideal := IdealStateRecord(resource, partitions, stateModel);
      SetUpCollections(zk.nodes, cluster);
      var _ := conn.CreateRecordWithPath(isPath, ideal);
      return None;
    }

    method DropResource(cluster: string, resource: string) returns (err: Option<Error>)
      requires zk.Valid() && IsSegment(cluster) && IsSegment(resource)
      modifies zk
      ensures zk.Valid()
      ensures !ClusterIsSetup(old(zk.nodes), cluster) ==> err == Some(ClusterNotSetup) && zk.nodes == old(zk.nodes)
      ensures ClusterIsSetup(old(zk.nodes), cluster) ==>
        err == None &&
        zk.nodes == old(zk.nodes) - Subtree(old(zk.nodes), IdealStateForResource(cluster, resource))
                                  - Subtree(old(zk.nodes), ResourceConfig(cluster, resource))
    {
      var conn := new Connection(zk);
      var ok := conn.IsClusterSetup(cluster);
      if !ok {
        return Some(ClusterNotSetup);
      }
      DeleteResourceTrees(conn, cluster, resource);
      return None;
    }

    /** The two deletions of `DropResource`: the ideal state's subtree, then
        the resource configuration's. */
    method DeleteResourceTrees(conn: Connection, cluster: string, resource: string)
      requires conn.store == zk && zk.Valid() && IsSegment(cluster) && IsSegment(resource)
      modifies zk, conn
      ensures zk.Valid()
      ensures zk.nodes == old(zk.nodes) - Subtree(old(zk.nodes), IdealStateForResource(cluster, resource))
                                        - Subtree(old(zk.nodes), ResourceConfig(cluster, resource))
    {
      EntriesNest(cluster, resource);
      IdealStateForResourceValid(cluster, resource);
      ResourceConfigValid(cluster, resource);
      var _ := conn.DeleteTree(IdealStates(cluster) + "/" + resource);
      var _ := conn.DeleteTree(ResourceConfig(cluster, resource));
    }

    /** The shared steps of `EnableResource` and `DisableResource`: check the
        cluster and the ideal state, then set one simple field of it. */
    method SetIdealStateField(cluster: string, resource: string, key: string, value: string) returns (err: Option<Error>)
      requires zk.Valid() && IsSegment(cluster) && IsSegment(resource)
      modifies zk
      ensures zk.Valid()
      ensures !ClusterIsSetup(old(zk.nodes), cluster) ==> err == Some(ClusterNotSetup) && zk.nodes == old(zk.nodes)
      ensures ClusterIsSetup(old(zk.nodes), cluster) && IdealStateForResource(cluster, resource) !in old(zk.nodes) ==>
        err == Some(ResourceNotExists) && zk.nodes == old(zk.nodes)
      ensures ClusterIsSetup(old(zk.nodes), cluster) && IdealStateForResource(cluster, resource) in old(zk.nodes) &&
              !old(zk.nodes)[IdealStateForResource(cluster, resource)].data.Rec? ==>
        err == Some(Panic) && zk.nodes == old(zk.nodes)
      ensures ClusterIsSetup(old(zk.nodes), cluster) && IdealStateForResource(cluster, resource) in old(zk.nodes) &&
              old(zk.nodes)[IdealStateForResource(cluster, resource)].data.Rec? ==>
        err == None &&
        zk.nodes == WithSimpleField(old(zk.nodes), IdealStateForResource(cluster, resource), key, value)
    {
      var conn := new Connection(zk);
      var ok := conn.IsClusterSetup(cluster);
      if !ok {
        return Some(ClusterNotSetup);
      }
      err := SetExistingIdealStateField(conn, cluster, resource, key, value);
    }

    /** The steps after the cluster check: the ideal state must exist, then
        its simple field is set. */
    method SetExistingIdealStateField(conn: Connection, cluster: string, resource: string, key: string, value: string)
      returns (err: Option<Error>)
      requires conn.store == zk && zk.Valid() && IsSegment(cluster) && IsSegment(resource)
      modifies zk, conn
      ensures zk.Valid()
      ensures IdealStateForResource(cluster, resource) !in old(zk.nodes) ==>
        err == Some(ResourceNotExists) && zk.nodes == old(zk.nodes)
      ensures IdealStateForResource(cluster, resource) in old(zk.nodes) &&
              !old(zk.nodes)[IdealStateForResource(cluster, resource)].data.Rec? ==>
        err == Some(Panic) && zk.nodes == old(zk.nodes)
      ensures IdealStateForResource(cluster, resource) in old(zk.nodes) &&
              old(zk.nodes)[IdealStateForResource(cluster, resource)].data.Rec? ==>
        err == None &&
        zk.nodes == WithSimpleField(old(zk.nodes), IdealStateForResource(cluster, resource), key, value)
    {
      var isPath := IdealStates(cluster) + "/" + resource;
      EntriesNest(cluster, resource);
      IdealStateForResourceValid(cluster, resource);
      var present := conn.Exists(isPath);
      if !present {
        return Some(ResourceNotExists);
      }
      err := conn.UpdateSimpleField(isPath, key, value);
    }

    method EnableResource(cluster: string, resource: string) returns (err: Option<Error>)
      requires zk.Valid() && IsSegment(cluster) && IsSegment(resource)
      modifies zk
      ensures zk.Valid()
      ensures !ClusterIsSetup(old(zk.nodes), cluster) ==> err == Some(ClusterNotSetup) && zk.nodes == old(zk.nodes)
      ensures ClusterIsSetup(old(zk.nodes), cluster) && IdealStateForResource(cluster, resource) !in old(zk.nodes) ==>
        err == Some(ResourceNotExists) && zk.nodes == old(zk.nodes)
      ensures ClusterIsSetup(old(zk.nodes), cluster) && IdealStateForResource(cluster, resource) in old(zk.nodes) &&
              !old(zk.nodes)[IdealStateForResource(cluster, resource)].data.Rec? ==>
        err == Some(Panic) && zk.nodes == old(zk.nodes)
      ensures ClusterIsSetup(old(zk.nodes), cluster) && IdealStateForResource(cluster, resource) in old(zk.nodes) &&
              old(zk.nodes)[IdealStateForResource(cluster, resource)].data.Rec? ==>
        err == None &&
        zk.nodes == WithSimpleField(old(zk.nodes), IdealStateForResource(cluster, resource), "HELIX_ENABLED", "true")
    {
      err := SetIdealStateField(cluster, resource, "HELIX_ENABLED", "true");
    }

    method DisableResource(cluster: string, resource: string) returns (err: Option<Error>)
      requires zk.Valid() && IsSegment(cluster) && IsSegment(resource)
      modifies zk
      ensures zk.Valid()
      ensures !ClusterIsSetup(old(zk.nodes), cluster) ==> err == Some(ClusterNotSetup) && zk.nodes == old(zk.nodes)
      ensures ClusterIsSetup(old(zk.nodes), cluster) && IdealStateForResource(cluster, resource) !in old(zk.nodes) ==>
        err == Some(ResourceNotExists) && zk.nodes == old(zk.nodes)
      ensures ClusterIsSetup(old(zk.nodes), cluster) && IdealStateForResource(cluster, resource) in old(zk.nodes) &&
              !old(zk.nodes)[IdealStateForResource(cluster, resource)].data.Rec? ==>
        err == Some(Panic) && zk.nodes == old(zk.nodes)
      ensures ClusterIsSetup(old(zk.nodes), cluster) && IdealStateForResource(cluster, resource) in old(zk.nodes) &&
              old(zk.nodes)[IdealStateForResource(cluster, resource)].data.Rec? ==>
        err == None &&
        zk.nodes == WithSimpleField(old(zk.nodes), IdealStateForResource(cluster, resource), "HELIX_ENABLED", "false")
    {
      err := SetIdealStateField(cluster, resource, "HELIX_ENABLED", "false");
    }

    /** The clusters among the root's children, in listing order. */
    method ListClusters() returns (clusters: seq<string>)
      requires zk.Valid()
      ensures exists cs :: ChildListing(zk.nodes, "/", cs) && clusters == SetUpAmong(zk.nodes, cs)
      ensures forall c :: c in clusters <==> c in ChildNames(zk.nodes, "/") && ClusterIsSetup(zk.nodes, c)
      ensures forall i, j :: 0 <= i < j < |clusters| ==> clusters[i] != clusters[j]
    {
      var conn := new Connection(zk);
      var children := conn.Children("/");
      clusters := [];
      var i := 0;
      while i < |children|
        invariant 0 <= i <= |children|
        invariant clusters == SetUpAmong(zk.nodes, children[..i])
      {
        ChildNamesMeaning(zk.nodes, "/", children[i]);
        var ok := conn.IsClusterSetup(children[i]);
        assert children[..i + 1][..i] == children[..i];
        if ok {
          clusters := clusters + [children[i]];
        }
        i := i + 1;
      }
      assert children[..|children|] == children;
      SetUpAmongMembers(zk.nodes, children);
    }

    method ListClusterInfo(cluster: string) returns (info: string, err: Option<Error>)
      requires zk.Valid() && IsSegment(cluster)
      ensures !ClusterIsSetup(zk.nodes, cluster) ==> info == "" && err == Some(ClusterNotSetup)
      ensures ClusterIsSetup(zk.nodes, cluster) ==> err == None
      ensures ClusterIsSetup(zk.nodes, cluster) ==>
        exists rs, ins :: ChildListing(zk.nodes, IdealStates(cluster), rs) &&
          ChildListing(zk.nodes, Instances(cluster), ins) &&
          info == "Existing resources in cluster " + cluster + ":\n" + Lines(rs) +
                  "\nInstances in cluster " + cluster + ":\n" + Lines(ins)
    {
      var conn := new Connection(zk);
      var ok := conn.IsClusterSetup(cluster);
      if !ok {
        return "", Some(ClusterNotSetup);
      }
      SetUpCollections(zk.nodes, cluster);
      var resources := conn.Children(IdealStates(cluster));
      var instances := conn.Children(Instances(cluster));
      info := AppendLines("Existing resources in cluster " + cluster + ":\n", resources);
      info := AppendLines(info + "\nInstances in cluster " + cluster + ":\n", instances);
      return info, None;
    }

    method ListResources(cluster: string) returns (list: string, err: Option<Error>)
      requires zk.Valid() && IsSegment(cluster)
      ensures !ClusterIsSetup(zk.nodes, cluster) ==> list == "" && err == Some(ClusterNotSetup)
      ensures ClusterIsSetup(zk.nodes, cluster) ==> err == None
      ensures ClusterIsSetup(zk.nodes, cluster) ==>
        exists rs :: ChildListing(zk.nodes, IdealStates(cluster), rs) &&
          list == "Existing resources in cluster " + cluster + ":\n" + Lines(rs)
    {
      var conn := new Connection(zk);
      var ok := conn.IsClusterSetup(cluster);
      if !ok {
        return "", Some(ClusterNotSetup);
      }
      SetUpCollections(zk.nodes, cluster);
      var resources := conn.Children(IdealStates(cluster));
      list := AppendLines("Existing resources in cluster " + cluster + ":\n", resources);
      return list, None;
    }

    method ListInstances(cluster: string) returns (list: string, err: Option<Error>)
      requires zk.Valid() && IsSegment(cluster)
      ensures !ClusterIsSetup(zk.nodes, cluster) ==> list == "" && err == Some(ClusterNotSetup)
      ensures ClusterIsSetup(zk.nodes, cluster) ==> err == None
      ensures ClusterIsSetup(zk.nodes, cluster) ==>
        exists ins :: ChildListing(zk.nodes, Instances(cluster), ins) &&
          list == "Existing instances in cluster " + cluster + ":\n" + Lines(ins)
    {
      var conn := new Connection(zk);
      var ok := conn.IsClusterSetup(cluster);
      if !ok {
        return "", Some(ClusterNotSetup);
      }
      SetUpCollections(zk.nodes, cluster);
      var instances := conn.Children(Instances(cluster));
      list := AppendLines("Existing instances in cluster " + cluster + ":\n", instances);
      return list, None;
    }
  }

  /** The store after `AddNode` succeeds: the participant config record,
      then the instance node and its four collections, each created only
      where it is missing. */
  ghost function NodeAdded(nodes: map<string, Node>, c: string, node: string): map<string, Node>
    requires '_' in node
  {
    InstanceAdded(nodes[ParticipantConfig(c, node) := Node(Rec(ParticipantRecord(node)), 0)], c, node)
  }

  /** What adding empty nodes for the paths `s` on top of `nodes` leaves:
      exactly those paths added, as empty nodes, the rest kept. */
  ghost predicate AddedEmpty(nodes: map<string, Node>, m: map<string, Node>, s: set<string>) {
    (forall k :: k in m <==> k in nodes || k in s) &&
    (forall k :: k in nodes ==> m[k] == nodes[k]) &&
    (forall k :: k in m && k !in nodes ==> m[k] == Node(Empty, 0))
  }

  lemma AddEmptyStep(nodes: map<string, Node>, m: map<string, Node>, s: set<string>, p: string)
    requires AddedEmpty(nodes, m, s)
    ensures AddedEmpty(nodes, AddIfMissing(m, p, Empty), s + {p})
  {
  }

  /** Five empty nodes added if missing. */
  lemma AddFiveEmpty(nodes: map<string, Node>, p1: string, p2: string, p3: string, p4: string, p5: string)
    ensures AddedEmpty(nodes,
      AddIfMissing(AddIfMissing(AddIfMissing(AddIfMissing(AddIfMissing(nodes, p1, Empty), p2, Empty), p3, Empty), p4, Empty), p5, Empty),
      {p1, p2, p3, p4, p5})
  {
    var m0 := nodes;
    assert AddedEmpty(nodes, m0, {});
    AddEmptyStep(nodes, m0, {}, p1);
    var m1 := AddIfMissing(m0, p1, Empty);
    AddEmptyStep(nodes, m1, {} + {p1}, p2);
    var m2 := AddIfMissing(m1, p2, Empty);
    AddEmptyStep(nodes, m2, {} + {p1} + {p2}, p3);
    var m3 := AddIfMissing(m2, p3, Empty);
    AddEmptyStep(nodes, m3, {} + {p1} + {p2} + {p3}, p4);
    var m4 := AddIfMissing(m3, p4, Empty);
    AddEmptyStep(nodes, m4, {} + {p1} + {p2} + {p3} + {p4}, p5);
  }

  /** `InstanceAdded` adds exactly the five instance paths, as empty nodes,
      and keeps every existing node. */
  lemma InstanceAddedNodes(nodes: map<string, Node>, c: string, node: string)
    ensures AddedEmpty(nodes, InstanceAdded(nodes, c, node), InstancePaths(c, node))
  {
    AddFiveEmpty(nodes, Instance(c, node), Messages(c, node), CurrentStates(c, node), ErrorsR(c, node), StatusUpdates(c, node));
  }

  /** `AddNode`'s new store: the participant config record and the instance
      paths are added; every other existing node is kept. */
  lemma NodeAddedNodes(nodes: map<string, Node>, c: string, node: string)
    requires '_' in node
    ensures forall k :: k in NodeAdded(nodes, c, node) <==> k in nodes || k == ParticipantConfig(c, node) || k in InstancePaths(c, node)
    ensures NodeAdded(nodes, c, node)[ParticipantConfig(c, node)] == Node(Rec(ParticipantRecord(node)), 0)
    ensures forall k :: k in nodes && k != ParticipantConfig(c, node) ==> NodeAdded(nodes, c, node)[k] == nodes[k]
  {
    InstanceAddedNodes(nodes[ParticipantConfig(c, node) := Node(Rec(ParticipantRecord(node)), 0)], c, node);
  }

  /** The five nodes `AddNode` creates for an instance. */
  function InstancePaths(c: string, node: string): set<string> {
    {Instance(c, node), Messages(c, node), CurrentStates(c, node), ErrorsR(c, node), StatusUpdates(c, node)}
  }

  /** The instance node and its four children, each added if missing. */
  ghost function InstanceAdded(nodes: map<string, Node>, c: string, node: string): map<string, Node> {
    var m := AddIfMissing(nodes, Instance(c, node), Empty);
    var m := AddIfMissing(m, Messages(c, node), Empty);
    var m := AddIfMissing(m, CurrentStates(c, node), Empty);
    var m := AddIfMissing(m, ErrorsR(c, node), Empty);
    AddIfMissing(m, StatusUpdates(c, node), Empty)
  }

  /** `p` holding `data` unless it was there already. */
  ghost function AddIfMissing(nodes: map<string, Node>, p: string, data: Payload): map<string, Node> {
    if p in nodes then nodes else nodes[p := Node(data, 0)]
  }

  // ---- the skeleton `AddCluster` lays down, in creation order ----

  /** Creates in order, each adding its node only where it is missing. */
  ghost function Apply(nodes: map<string, Node>, es: seq<(string, Payload)>): map<string, Node>
    decreases |es|
  {
    if es == [] then nodes
    else AddIfMissing(Apply(nodes, es[..|es| - 1]), es[|es| - 1].0, es[|es| - 1].1)
  }

  /** The state models `AddCluster` installs (the Helix built-ins). */
  function StateModelNames(): (names: seq<string>)
    ensures |names| == 6
  {
    ["LeaderStandby", "MasterSlave", "OnlineOffline", "STORAGE_DEFAULT_SM_SCHEMATA", "SchedulerTaskQueue", "Task"]
  }

  lemma StateModelNamesAreSegments()
    ensures |StateModelNames()| == 6
    ensures forall i :: 0 <= i < 6 ==> IsSegment(StateModelNames()[i])
  {
    var n := StateModelNames();
    FixedSegment(n[0]); FixedSegment(n[1]); FixedSegment(n[2]);
    FixedSegment(n[3]); FixedSegment(n[4]); FixedSegment(n[5]);
  }

  /** `HelixDefaultNodes[name]`, with Go's "" for a missing name. */
  function DefaultPayload(defaults: map<string, string>, name: string): Payload {
    StringPayload(if name in defaults then defaults[name] else "")
  }

  function TopEntries(c: string): seq<(string, Payload)> {
    [(Cluster(c), Empty), (PropertyStore(c), Empty), (Instances(c), Empty), (IdealStates(c), Empty),
     (ExternalView(c), Empty), (LiveInstances(c), Empty), (StateModels(c), Empty)]
  }

  /** One definition node per state model name. */
  function StateModelEntries(c: string, names: seq<string>, defaults: map<string, string>): (es: seq<(string, Payload)>)
    ensures |es| == |names|
  {
    seq(|names|, i requires 0 <= i < |names| => (StateModel(c, names[i]), DefaultPayload(defaults, names[i])))
  }

  function ConfigEntries(c: string): seq<(string, Payload)> {
    [(Configs(c), Empty), (ParticipantConfigs(c), Empty), (ResourceConfigs(c), Empty), (ClusterConfigs(c), Empty),
     (ClusterConfig(c), Rec(NewRecord(c)))]
  }

  function ControllerEntries(c: string): seq<(string, Payload)> {
    [(Controller(c), Empty), (ControllerErrors(c), Empty), (ControllerHistory(c), Empty),
     (ControllerMessages(c), Empty), (ControllerStatusUpdates(c), Empty)]
  }

  /** The 23 nodes `AddCluster(c)` creates, with their payloads, in order. */
  function Skeleton(c: string, defaults: map<string, string>): (es: seq<(string, Payload)>)
    ensures |es| == 23
    ensures es[0] == (Cluster(c), Empty)
  {
    TopEntries(c) + StateModelEntries(c, StateModelNames(), defaults) + ConfigEntries(c) + ControllerEntries(c)
  }

  /** One more create on top of a prefix whose result is already known. */
  lemma ApplyStep(nodes: map<string, Node>, es: seq<(string, Payload)>, k: nat, m: map<string, Node>)
    requires k < |es| && Apply(nodes, es[..k]) == m
    ensures Apply(nodes, es[..k + 1]) == AddIfMissing(m, es[k].0, es[k].1)
  {
    assert es[..k + 1][..k] == es[..k];
  }

  lemma ApplyFive(nodes: map<string, Node>, es: seq<(string, Payload)>)
    requires |es| == 5
    ensures Apply(nodes, es) ==
      AddIfMissing(AddIfMissing(AddIfMissing(AddIfMissing(AddIfMissing(nodes, es[0].0, es[0].1), es[1].0, es[1].1), es[2].0, es[2].1), es[3].0, es[3].1), es[4].0, es[4].1)
  {
    assert es[..0] == [];
    var m := nodes;
    ApplyStep(nodes, es, 0, m); m := AddIfMissing(m, es[0].0, es[0].1);
    ApplyStep(nodes, es, 1, m); m := AddIfMissing(m, es[1].0, es[1].1);
    ApplyStep(nodes, es, 2, m); m := AddIfMissing(m, es[2].0, es[2].1);
    ApplyStep(nodes, es, 3, m); m := AddIfMissing(m, es[3].0, es[3].1);
    ApplyStep(nodes, es, 4, m); m := AddIfMissing(m, es[4].0, es[4].1);
    assert es[..5] == es;
  }

  lemma ApplySix(nodes: map<string, Node>, es: seq<(string, Payload)>)
    requires |es| == 6
    ensures Apply(nodes, es) ==
      AddIfMissing(AddIfMissing(AddIfMissing(AddIfMissing(AddIfMissing(AddIfMissing(nodes, es[0].0, es[0].1), es[1].0, es[1].1), es[2].0, es[2].1), es[3].0, es[3].1), es[4].0, es[4].1), es[5].0, es[5].1)
  {
    assert es[..0] == [];
    var m := nodes;
    ApplyStep(nodes, es, 0, m); m := AddIfMissing(m, es[0].0, es[0].1);
    ApplyStep(nodes, es, 1, m); m := AddIfMissing(m, es[1].0, es[1].1);
    ApplyStep(nodes, es, 2, m); m := AddIfMissing(m, es[2].0, es[2].1);
    ApplyStep(nodes, es, 3, m); m := AddIfMissing(m, es[3].0, es[3].1);
    ApplyStep(nodes, es, 4, m); m := AddIfMissing(m, es[4].0, es[4].1);
    ApplyStep(nodes, es, 5, m); m := AddIfMissing(m, es[5].0, es[5].1);
    assert es[..6] == es;
  }

  lemma ApplySeven(nodes: map<string, Node>, es: seq<(string, Payload)>)
    requires |es| == 7
    ensures Apply(nodes, es) ==
      AddIfMissing(AddIfMissing(AddIfMissing(AddIfMissing(AddIfMissing(AddIfMissing(AddIfMissing(nodes, es[0].0, es[0].1), es[1].0, es[1].1), es[2].0, es[2].1), es[3].0, es[3].1), es[4].0, es[4].1), es[5].0, es[5].1), es[6].0, es[6].1)
  {
    assert es[..0] == [];
    var m := nodes;
    ApplyStep(nodes, es, 0, m); m := AddIfMissing(m, es[0].0, es[0].1);
    ApplyStep(nodes, es, 1, m); m := AddIfMissing(m, es[1].0, es[1].1);
    ApplyStep(nodes, es, 2, m); m := AddIfMissing(m, es[2].0, es[2].1);
    ApplyStep(nodes, es, 3, m); m := AddIfMissing(m, es[3].0, es[3].1);
    ApplyStep(nodes, es, 4, m); m := AddIfMissing(m, es[4].0, es[4].1);
    ApplyStep(nodes, es, 5, m); m := AddIfMissing(m, es[5].0, es[5].1);
    ApplyStep(nodes, es, 6, m); m := AddIfMissing(m, es[6].0, es[6].1);
    assert es[..7] == es;
  }

  /** `TopEntries(c)` spelled out create by create. */
  ghost function TopCreated(nodes: map<string, Node>, c: string): map<string, Node> {
    var es := TopEntries(c);
    AddIfMissing(AddIfMissing(AddIfMissing(AddIfMissing(AddIfMissing(AddIfMissing(AddIfMissing(nodes, es[0].0, es[0].1), es[1].0, es[1].1), es[2].0, es[2].1), es[3].0, es[3].1), es[4].0, es[4].1), es[5].0, es[5].1), es[6].0, es[6].1)
  }

  lemma TopApplied(nodes: map<string, Node>, c: string)
    ensures Apply(nodes, TopEntries(c)) == TopCreated(nodes, c)
  {
    ApplySeven(nodes, TopEntries(c));
  }

  /** `StateModelEntries(c, names, defaults)` for six names, spelled out create by create. */
  ghost function StateModelsCreated(nodes: map<string, Node>, c: string, names: seq<string>, defaults: map<string, string>): map<string, Node>
    requires |names| == 6
  {
    var es := StateModelEntries(c, names, defaults);
    AddIfMissing(AddIfMissing(AddIfMissing(AddIfMissing(AddIfMissing(AddIfMissing(nodes, es[0].0, es[0].1), es[1].0, es[1].1), es[2].0, es[2].1), es[3].0, es[3].1), es[4].0, es[4].1), es[5].0, es[5].1)
  }

  lemma StateModelsApplied(nodes: map<string, Node>, c: string, names: seq<string>, defaults: map<string, string>)
    requires |names| == 6
    ensures Apply(nodes, StateModelEntries(c, names, defaults)) == StateModelsCreated(nodes, c, names, defaults)
  {
    ApplySix(nodes, StateModelEntries(c, names, defaults));
  }

  /** `ConfigEntries(c)` spelled out create by create. */
  ghost function ConfigsCreated(nodes: map<string, Node>, c: string): map<string, Node> {
    var es := ConfigEntries(c);
    AddIfMissing(AddIfMissing(AddIfMissing(AddIfMissing(AddIfMissing(nodes, es[0].0, es[0].1), es[1].0, es[1].1), es[2].0, es[2].1), es[3].0, es[3].1), es[4].0, es[4].1)
  }

  lemma ConfigsApplied(nodes: map<string, Node>, c: string)
    ensures Apply(nodes, ConfigEntries(c)) == ConfigsCreated(nodes, c)
  {
    ApplyFive(nodes, ConfigEntries(c));
  }

  /** `ControllerEntries(c)` spelled out create by create. */
  ghost function ControllerCreated(nodes: map<string, Node>, c: string): map<string, Node> {
    var es := ControllerEntries(c);
    AddIfMissing(AddIfMissing(AddIfMissing(AddIfMissing(AddIfMissing(nodes, es[0].0, es[0].1), es[1].0, es[1].1), es[2].0, es[2].1), es[3].0, es[3].1), es[4].0, es[4].1)
  }

  lemma ControllerApplied(nodes: map<string, Node>, c: string)
    ensures Apply(nodes, ControllerEntries(c)) == ControllerCreated(nodes, c)
  {
    ApplyFive(nodes, ControllerEntries(c));
  }

  lemma {:induction false} ApplyAppend(nodes: map<string, Node>, a: seq<(string, Payload)>, b: seq<(string, Payload)>)
    ensures Apply(nodes, a + b) == Apply(Apply(nodes, a), b)
    decreases |b|
  {
    if b == [] {
      assert a + b == a;
    } else {
      var b' := b[..|b| - 1];
      assert (a + b)[..|a + b| - 1] == a + b';
      assert (a + b)[|a + b| - 1] == b[|b| - 1];
      ApplyAppend(nodes, a, b');
    }
  }

  /** The creates add exactly their paths and alter no node already there. */
  lemma {:induction false} ApplyKeys(nodes: map<string, Node>, es: seq<(string, Payload)>)
    ensures Apply(nodes, es).Keys == nodes.Keys + set i | 0 <= i < |es| :: es[i].0
    ensures forall k :: k in nodes ==> Apply(nodes, es)[k] == nodes[k]
    decreases |es|
  {
    if es != [] {
      var es' := es[..|es| - 1];
      ApplyKeys(nodes, es');
      assert (set i | 0 <= i < |es| :: es[i].0) == (set i | 0 <= i < |es'| :: es'[i].0) + {es[|es| - 1].0} by {
        forall i | 0 <= i < |es'| ensures es'[i].0 == es[i].0 { }
      }
    }
  }

  /** A path missing from the store and not created earlier in the list
      gets the payload of its create. */
  lemma {:induction false} ApplyFirst(nodes: map<string, Node>, es: seq<(string, Payload)>, i: nat)
    requires i < |es| && es[i].0 !in nodes
    requires forall j :: 0 <= j < i ==> es[j].0 != es[i].0
    ensures es[i].0 in Apply(nodes, es) && Apply(nodes, es)[es[i].0] == Node(es[i].1, 0)
    decreases |es|
  {
    var es' := es[..|es| - 1];
    if i == |es| - 1 {
      ApplyKeys(nodes, es');
      assert es[i].0 !in Apply(nodes, es');
    } else {
      ApplyFirst(nodes, es', i);
      ApplyKeys(nodes, es');
    }
  }

  /** A created cluster passes `IsClusterSetup`: all 13 checked paths are
      among the 23 created. */
  lemma SkeletonSetsUp(nodes: map<string, Node>, c: string, defaults: map<string, string>)
    ensures ClusterIsSetup(Apply(nodes, Skeleton(c, defaults)), c)
  {
    var s := Skeleton(c, defaults);
    ApplyKeys(nodes, s);
    var m := Apply(nodes, s);
    var p := ClusterPaths(c);
    assert p[0] == s[0].0 && p[1] == s[3].0 && p[2] == s[14].0 && p[3] == s[1].0;
    assert p[4] == s[5].0 && p[5] == s[2].0 && p[6] == s[4].0 && p[7] == s[6].0;
    assert p[8] == s[18].0 && p[9] == s[19].0 && p[10] == s[20].0 && p[11] == s[21].0 && p[12] == s[22].0;
  }

  lemma TopBeforeClusterConfig(c: string, j: nat)
    requires j < 7
    ensures TopEntries(c)[j].0 != ClusterConfig(c)
  {
    if j == 0 {
      assert TopEntries(c)[0].0 != ClusterConfig(c);
    } else if j == 1 {
      assert TopEntries(c)[1].0 != ClusterConfig(c);
    } else if j == 2 {
      assert TopEntries(c)[2].0 != ClusterConfig(c);
    } else if j == 3 {
      assert TopEntries(c)[3].0 != ClusterConfig(c);
    } else if j == 4 {
      assert TopEntries(c)[4].0 != ClusterConfig(c);
    } else if j == 5 {
      assert TopEntries(c)[5].0 != ClusterConfig(c);
    } else if j == 6 {
      assert TopEntries(c)[6].0 != ClusterConfig(c);
    }
  }

  lemma StateModelsBeforeClusterConfig(c: string, defaults: map<string, string>, j: nat)
    requires j < 6
    ensures StateModelEntries(c, StateModelNames(), defaults)[j].0 != ClusterConfig(c)
  {
    StateModelNotClusterConfig(c, StateModelNames()[j]);
  }

  lemma ConfigsBeforeClusterConfig(c: string, j: nat)
    requires j < 4
    ensures ConfigEntries(c)[j].0 != ClusterConfig(c)
  {
    ConfigCollectionsNotClusterConfig(c);
  }

  /** On a fresh cluster the cluster config node holds a new record whose
      id is the cluster name. */
  lemma SkeletonClusterConfig(nodes: map<string, Node>, c: string, defaults: map<string, string>)
    requires WellFormed(nodes) && IsSegment(c) && Cluster(c) !in nodes
    ensures ClusterConfig(c) in Apply(nodes, Skeleton(c, defaults))
    ensures Apply(nodes, Skeleton(c, defaults))[ClusterConfig(c)] == Node(Rec(NewRecord(c)), 0)
  {
    var s := Skeleton(c, defaults);
    assert s[17].0 == ClusterConfig(c);
    ClusterValid(c);
    assert Cluster(c) + "/" <= ClusterConfig(c);
    NothingBelowMissing(nodes, Cluster(c), ClusterConfig(c));
    forall j | 0 <= j < 17 ensures s[j].0 != s[17].0 {
      if j < 7 {
        TopBeforeClusterConfig(c, j);
        assert s[j] == TopEntries(c)[j];
      } else if j < 13 {
        StateModelsBeforeClusterConfig(c, defaults, j - 7);
        assert s[j] == StateModelEntries(c, StateModelNames(), defaults)[j - 7];
      } else {
        ConfigsBeforeClusterConfig(c, j - 13);
        assert s[j] == ConfigEntries(c)[j - 13];
      }
    }
    ApplyFirst(nodes, s, 17);
  }
}
