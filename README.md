# gohelix metadata layer, modelled in Dafny

This project models the metadata layer of gohelix, a Go client for Apache Helix.
Helix keeps a cluster's layout in ZooKeeper: the cluster root, its ideal states, instances, configs, state-model definitions and controller nodes.
The model covers four parts:

- **Path builders** (`keybuilder.go`, module `Keys`). These are pure functions naming every ZooKeeper node of a cluster. Lemmas show that every name is a valid path, that its parent is the expected collection, that the paths nest, that each builder is injective in the name it takes last, and that the thirteen paths `IsClusterSetup` checks are distinct.
- **The ZooKeeper server** (module `Tree`). It is a class `Store` whose field is a map from path to node (payload and version). Its `Create`, `Set` and `Delete` have ZooKeeper's error rules: bad path, node exists, no parent, bad version, not empty. The invariant `WellFormed` says the root is present, every key is a valid path and every parent is present. All three operations preserve it.
- **The connection** (`connection.go`, module `Conn`). It is a class `Connection` over a `Store`, like the Go struct. The Go struct's `stat` field is `lastStat`, the stat of the last read; `Set` writes with that version, as the source does. Each method states its result and its effect on the store exactly. This includes the recursive `DeleteTree`, proved to remove exactly the subtree, the read-modify-write record updates and `ensurePathExists`.
- **The admin operations** (`admin.go`, module `Admin`). These are imperative methods of class `Admin`. Each one opens a fresh `Connection` on the store, as the Go code does.
  - `AddCluster` lays down the 23-node skeleton. A fresh cluster then passes `IsClusterSetup`, holds its cluster config record, and no existing node changes.
  - `AddNode`, `AddResource`, `DropNode`, `DropResource`, `EnableResource`, `DisableResource`, `SetConfig`, `GetConfig`, `ListClusters`, `ListClusterInfo`, `ListResources` and `ListInstances` state every error branch and the exact new store.
- **The resource options** (`types.go`, module `ResourceOptions`): `DefaultAddResourceOption` and `validate`.

Supporting modules:

- `Common`: the error values and the `Option` and `Result` wrappers.
- `ZPath`: ZooKeeper path shape, plus `path.Dir` and base names.
- `Records`: the ZNRecord value. Helix's `record.go` is not part of this model; its id, simple and map fields and the setters used by the core are modelled from their uses.
- `Text`: `strings.ToUpper`, `strings.ToLower`, `strings.Split` and `strconv.Itoa`, each with its round trip or its characterisation.

A Go `must(err)` panics. The model turns that panic into the error value `Panic` and leaves the store as it was at that point.

## Model

| member | source | states |
|---|---|---|
| Keys.Cluster | keybuilder.go:12-14 | the path is `/` followed by the cluster name, one character longer than the name |
| Keys.ClusterPaths | connection.go:375-389 | the thirteen paths `IsClusterSetup` checks, the cluster root first |
| Keys.Configs | keybuilder.go:16-18 | the path begins with `/<cluster>/`, so it lies strictly inside the cluster's own subtree |
| Keys.ClusterConfigs | keybuilder.go:20-22 | the path begins with `/<cluster>/`, so it lies strictly inside the cluster's own subtree |
| Keys.ClusterConfig | keybuilder.go:24-26 | the path begins with `/<cluster>/`, so it lies strictly inside the cluster's own subtree |
| Keys.ExternalView | keybuilder.go:28-30 | the path begins with `/<cluster>/`, so it lies strictly inside the cluster's own subtree |
| Keys.ExternalViewForResource | keybuilder.go:32-34 | the path begins with `/<cluster>/`, so it lies strictly inside the cluster's own subtree |
| Keys.PropertyStore | keybuilder.go:36-38 | the path begins with `/<cluster>/`, so it lies strictly inside the cluster's own subtree |
| Keys.Controller | keybuilder.go:40-42 | the path begins with `/<cluster>/`, so it lies strictly inside the cluster's own subtree |
| Keys.ControllerErrors | keybuilder.go:44-46 | the path begins with `/<cluster>/`, so it lies strictly inside the cluster's own subtree |
| Keys.ControllerHistory | keybuilder.go:48-50 | the path begins with `/<cluster>/`, so it lies strictly inside the cluster's own subtree |
| Keys.ControllerMessages | keybuilder.go:52-54 | the path begins with `/<cluster>/`, so it lies strictly inside the cluster's own subtree |
| Keys.ControllerMessage | keybuilder.go:56-58 | the path begins with `/<cluster>/`, so it lies strictly inside the cluster's own subtree |
| Keys.ControllerStatusUpdates | keybuilder.go:60-62 | the path begins with `/<cluster>/`, so it lies strictly inside the cluster's own subtree |
| Keys.IdealStates | keybuilder.go:64-66 | the path begins with `/<cluster>/`, so it lies strictly inside the cluster's own subtree |
| Keys.IdealStateForResource | keybuilder.go:68-70 | the path begins with `/<cluster>/`, so it lies strictly inside the cluster's own subtree |
| Keys.ResourceConfigs | keybuilder.go:72-74 | the path begins with `/<cluster>/`, so it lies strictly inside the cluster's own subtree |
| Keys.ResourceConfig | keybuilder.go:76-78 | the path begins with `/<cluster>/`, so it lies strictly inside the cluster's own subtree |
| Keys.ParticipantConfigs | keybuilder.go:80-82 | the path begins with `/<cluster>/`, so it lies strictly inside the cluster's own subtree |
| Keys.ParticipantConfig | keybuilder.go:84-86 | the path begins with `/<cluster>/`, so it lies strictly inside the cluster's own subtree |
| Keys.LiveInstances | keybuilder.go:88-90 | the path begins with `/<cluster>/`, so it lies strictly inside the cluster's own subtree |
| Keys.Instances | keybuilder.go:92-94 | the path begins with `/<cluster>/`, so it lies strictly inside the cluster's own subtree |
| Keys.Instance | keybuilder.go:96-98 | the path begins with `/<cluster>/`, so it lies strictly inside the cluster's own subtree |
| Keys.LiveInstance | keybuilder.go:100-102 | the path begins with `/<cluster>/`, so it lies strictly inside the cluster's own subtree |
| Keys.CurrentStates | keybuilder.go:104-106 | the path begins with `/<cluster>/`, so it lies strictly inside the cluster's own subtree |
| Keys.CurrentStatesForSession | keybuilder.go:108-110 | the path begins with `/<cluster>/`, so it lies strictly inside the cluster's own subtree |
| Keys.CurrentStateForResource | keybuilder.go:112-114 | the path begins with `/<cluster>/`, so it lies strictly inside the cluster's own subtree |
| Keys.ErrorsR | keybuilder.go:116-118 | the path begins with `/<cluster>/`, so it lies strictly inside the cluster's own subtree |
| Keys.Errors | keybuilder.go:120-122 | the path begins with `/<cluster>/`, so it lies strictly inside the cluster's own subtree |
| Keys.HealthReport | keybuilder.go:124-126 | the path begins with `/<cluster>/`, so it lies strictly inside the cluster's own subtree |
| Keys.StatusUpdates | keybuilder.go:128-130 | the path begins with `/<cluster>/`, so it lies strictly inside the cluster's own subtree |
| Keys.StateModels | keybuilder.go:132-134 | the path begins with `/<cluster>/`, so it lies strictly inside the cluster's own subtree |
| Keys.StateModel | keybuilder.go:136-138 | the path begins with `/<cluster>/`, so it lies strictly inside the cluster's own subtree |
| Keys.Messages | keybuilder.go:140-142 | the path begins with `/<cluster>/`, so it lies strictly inside the cluster's own subtree |
| Keys.Message | keybuilder.go:144-146 | the path begins with `/<cluster>/`, so it lies strictly inside the cluster's own subtree |
| Keys.ClusterValid | keybuilder.go:12-14 | for single-segment names the path is a valid ZooKeeper path whose parent is the root |
| Keys.IdealStatesValid | keybuilder.go:64-66 | for single-segment names the path is a valid ZooKeeper path whose parent is `Cluster` |
| Keys.PropertyStoreValid | keybuilder.go:36-38 | for single-segment names the path is a valid ZooKeeper path whose parent is `Cluster` |
| Keys.LiveInstancesValid | keybuilder.go:88-90 | for single-segment names the path is a valid ZooKeeper path whose parent is `Cluster` |
| Keys.InstancesValid | keybuilder.go:92-94 | for single-segment names the path is a valid ZooKeeper path whose parent is `Cluster` |
| Keys.ExternalViewValid | keybuilder.go:28-30 | for single-segment names the path is a valid ZooKeeper path whose parent is `Cluster` |
| Keys.StateModelsValid | keybuilder.go:132-134 | for single-segment names the path is a valid ZooKeeper path whose parent is `Cluster` |
| Keys.ControllerValid | keybuilder.go:40-42 | for single-segment names the path is a valid ZooKeeper path whose parent is `Cluster` |
| Keys.ConfigsValid | keybuilder.go:16-18 | for single-segment names the path is a valid ZooKeeper path whose parent is `Cluster` |
| Keys.ControllerErrorsValid | keybuilder.go:44-46 | for single-segment names the path is a valid ZooKeeper path whose parent is `Controller` |
| Keys.ControllerHistoryValid | keybuilder.go:48-50 | for single-segment names the path is a valid ZooKeeper path whose parent is `Controller` |
| Keys.ControllerMessagesValid | keybuilder.go:52-54 | for single-segment names the path is a valid ZooKeeper path whose parent is `Controller` |
| Keys.ControllerStatusUpdatesValid | keybuilder.go:60-62 | for single-segment names the path is a valid ZooKeeper path whose parent is `Controller` |
| Keys.ParticipantConfigsValid | keybuilder.go:80-82 | for single-segment names the path is a valid ZooKeeper path whose parent is `Configs` |
| Keys.ResourceConfigsValid | keybuilder.go:72-74 | for single-segment names the path is a valid ZooKeeper path whose parent is `Configs` |
| Keys.ClusterConfigsValid | keybuilder.go:20-22 | for single-segment names the path is a valid ZooKeeper path whose parent is `Configs` |
| Keys.ClusterConfigValid | keybuilder.go:24-26 | for single-segment names the path is a valid ZooKeeper path whose parent is `ClusterConfigs` |
| Keys.ParticipantConfigValid | keybuilder.go:84-86 | for single-segment names the path is a valid ZooKeeper path whose parent is `ParticipantConfigs` |
| Keys.InstanceValid | keybuilder.go:96-98 | for single-segment names the path is a valid ZooKeeper path whose parent is `Instances` |
| Keys.StateModelValid | keybuilder.go:136-138 | for single-segment names the path is a valid ZooKeeper path whose parent is `StateModels` |
| Keys.ResourceConfigValid | keybuilder.go:76-78 | for single-segment names the path is a valid ZooKeeper path whose parent is `ResourceConfigs` |
| Keys.IdealStateForResourceValid | keybuilder.go:68-70 | for single-segment names the path is a valid ZooKeeper path whose parent is `IdealStates` |
| Keys.MessagesValid | keybuilder.go:140-142 | for single-segment names the path is a valid ZooKeeper path whose parent is `Instance` |
| Keys.CurrentStatesValid | keybuilder.go:104-106 | for single-segment names the path is a valid ZooKeeper path whose parent is `Instance` |
| Keys.ErrorsRValid | keybuilder.go:116-118 | for single-segment names the path is a valid ZooKeeper path whose parent is `Instance` |
| Keys.StatusUpdatesValid | keybuilder.go:128-130 | for single-segment names the path is a valid ZooKeeper path whose parent is `Instance` |
| Keys.ClusterPathsValid | connection.go:375-389 | every one of the thirteen paths `IsClusterSetup` checks is a valid ZooKeeper path |
| Keys.ClusterPathsDistinct | connection.go:375-389 | the thirteen checked paths are pairwise distinct |
| Keys.ConfigsNest | keybuilder.go:16-26 | the cluster, participant and resource config collections sit under `CONFIGS`, and the cluster config sits under `CONFIGS/CLUSTER` |
| Keys.EntriesNest | keybuilder.go:56-101 | each per-entity path is its collection's path plus one more segment |
| Keys.InstanceSubpaths | keybuilder.go:96-146 | messages, current states, errors, health report and status updates all sit under the instance node; a message sits under messages |
| Keys.SessionPaths | keybuilder.go:104-122 | current-state and error paths for a session and resource extend the instance's current-states and errors nodes |
| Keys.EntriesInjective | keybuilder.go:56-101 | distinct names give distinct paths for the eight builders that append one name to a collection: participant config, instance, live instance, state model, controller message, resource config, external view and ideal state |
| Keys.InstanceEntriesInjective | keybuilder.go:104-146 | distinct participants give distinct messages, current-states, errors, health-report and status-updates paths |
| Keys.SessionEntriesInjective | keybuilder.go:108-122 | for a fixed participant (and session), distinct last names give distinct current-states-for-session, current-state-for-resource and errors paths, and distinct message paths (the `message` builder of keybuilder.go:144-146) |
| Keys.StateModelNotClusterConfig | keybuilder.go:24-26 | no state-model definition path coincides with the cluster config path |
| Keys.ConfigCollectionsNotClusterConfig | keybuilder.go:24-26 | the participant and resource config collections differ from the cluster config path |
| ZPath.LastSlash | connection.go:435 | the index of the last `/`, or -1; no `/` follows it |
| ZPath.Name | connection.go:435 | the last segment of a non-root path is a non-empty name without `/` |
| ZPath.Dir | connection.go:435 | `path.Dir` on a valid path (also called at connection.go:112): a valid, strictly shorter path that, joined with the base name, gives the path back; the root is its own parent |
| ZPath.ValidShape | connection.go:435 | a valid path starts with `/`, and only the root ends with `/` |
| ZPath.ChildParts | connection.go:333 | appending one segment to a valid path gives a valid path whose parent and base name are those two parts |
| ZPath.RootChildInvalid | connection.go:332-334 | the child path `DeleteTree` builds under the root, `"/" + "/" + c`, is not a valid path |
| ZPath.DirOfDescendant | connection.go:317-341 | the parent of a proper descendant of `q` is `q` itself or again a descendant of `q` |
| ZPath.DirPrefix | connection.go:435 | a path's parent, plus `/`, is a prefix of the path |
| ZPath.Ancestry | connection.go:430-442 | the path and every ancestor up to the root, none longer than the path |
| Tree.Store.Create | connection.go:194-196 | ZooKeeper create: fails on a bad path, an existing node or a missing parent and changes nothing; otherwise adds the node at version 0; the tree stays well formed |
| Tree.Store.Set | connection.go:189-192 | ZooKeeper set: fails on a bad path, a missing node or a wrong version (unless -1); otherwise replaces the data and increments the version |
| Tree.Store.Delete | connection.go:313-315 | ZooKeeper delete: fails on the root, a bad path, a missing node, a wrong version or a node with children; otherwise removes exactly that node |
| Tree.Subtree | connection.go:317-341 | the node itself and everything below it |
| Tree.ChildNamesMeaning | connection.go:198-212 | `c` is a child name of `p` exactly when `c` is a single segment and `p/c` is in the tree |
| Tree.BelowSomeChild | connection.go:317-341 | in a well-formed tree, every proper descendant of `q` lies in the branch of some present child of `q` |
| Tree.NothingBelowMissing | connection.go:317-320 | in a well-formed tree, nothing lies below an absent node |
| Tree.AncestryPresent | connection.go:430-442 | in a well-formed tree, every ancestor of a present node is present |
| Tree.RemoveLeaf | connection.go:313-315 | removing a childless non-root node keeps the tree well formed |
| Tree.RemoveSubtree | connection.go:317-341 | removing a whole non-root subtree keeps the tree well formed |
| Records.NewRecord | admin.go:82 | a new record carries the given id and no fields |
| Records.Decode | connection.go:392-398 | decoding succeeds exactly on record payloads and fails otherwise with `Malformed` |
| Records.Marshal | connection.go:111-124 | the payload a record is written as decodes to that same record |
| Records.SetSimpleField | connection.go:268-288 | the key is set to the value; every other simple field and all map and list fields are untouched |
| Records.GetSimpleField | connection.go:290-306 | present exactly when the key is a simple field, and then its value |
| Records.SetMapField | connection.go:242-266 | the property is set inside the map field, which is created if absent; all else is untouched |
| Records.RemoveMapField | connection.go:343-364 | exactly the key is removed from the map fields; all else is untouched |
| Records.SimpleValue | connection.go:290-306 | the simple field's value, or the empty string when it is absent |
| Records.SimpleValueAfterSet | connection.go:268-306 | reading a key just set gives the value; reading another key gives what it was before |
| Text.ToUpper | admin.go:191 | same length, each character mapped by Go's upper-case mapping, for every character whose upper case is an ASCII letter (`ı` and `ſ` included) |
| Text.ToLower | admin.go:197 | same length, each character mapped by Go's lower-case mapping, for every character whose lower case is an ASCII letter (`İ` and the Kelvin sign included) |
| Text.UpperIsCluster | admin.go:191 | `ToUpper(s) == "CLUSTER"` holds exactly for the seven-character spellings of "cluster" in any case, with `ſ` for the `s` |
| Text.UpperIsTrue | connection.go:310 | `ToUpper(s) == "TRUE"` holds exactly for the sixteen case spellings of "true" |
| Text.LowerIsTrue | admin.go:197 | `ToLower(s) == "true"` holds for the same sixteen spellings |
| Text.Split | admin.go:269 | at least one piece, no piece holds the separator, joining them gives the input back, and there are two or more pieces exactly when the input holds the separator |
| Text.SplitAtFirst | admin.go:269 | the split's first piece is everything before the first separator, followed by the split of the rest |
| Text.SplitHead | admin.go:269-272 | a separator-free head comes off as the first piece |
| Text.SplitNone | admin.go:269 | a string without the separator splits into itself alone |
| Text.Digits | admin.go:355 | at least one decimal digit, with no leading zero |
| Text.DigitChars | admin.go:355 | each digit character reads back as its value |
| Text.DigitsRoundTrip | admin.go:355 | reading back the decimal digits of `n` gives `n` |
| Text.Itoa | admin.go:355-356 | at least one character; a leading `-` exactly for negative numbers, decimal digits otherwise |
| Text.ItoaRoundTrip | admin.go:355 | reading back `strconv.Itoa(n)` gives `n`, negative numbers included |
| Conn.StringPayload | connection.go:103-109 | the empty string stores an empty node; any other string is stored as its text |
| Conn.TrueFlag | connection.go:308-311 | true exactly for the case spellings of "true" |
| Conn.WithPath | connection.go:430-442 | the tree with every missing ancestor of `p`, and `p`, added as empty version-0 nodes; existing nodes keep their data; still well formed |
| Conn.Nearest | connection.go:430-442 | the deepest present ancestor of `p`, which is `p` itself when `p` is present |
| Conn.Checked | connection.go:144-153 | the index where the in-order existence test stops: every earlier path is present, and this one is absent or the last |
| Conn.CheckedAt | connection.go:144-153 | any index with the stopping property is the one `Checked` finds |
| Conn.SetUpCollections | connection.go:375-389 | a set-up cluster has its root, ideal states, participant configs and instances nodes |
| Conn.SetAfterGet | connection.go:189-192 | setting with the version just read from a present node is accepted |
| Conn.Connection.constructor | connection.go:36-43 | a new connection over the given server, with no stat read yet |
| Conn.Connection.Exists | connection.go:126-142 | true exactly when the node is present; records its stat (version 0 when absent) |
| Conn.Connection.ExistsAll | connection.go:144-153 | true exactly when every path is present; the stat recorded is that of the path where the test stopped |
| Conn.Connection.Get | connection.go:155-169 | the node's data, and its version recorded as the stat |
| Conn.Connection.Set | connection.go:189-192 | with no stat read yet, panics and changes nothing; otherwise a ZooKeeper set at the last-read version, with its errors and its exact effect |
| Conn.Connection.Create | connection.go:194-196 | a ZooKeeper create, with its errors and its exact effect |
| Conn.Connection.CreateEmptyNode | connection.go:99-101 | creates an empty node, or reports why not and changes nothing |
| Conn.Connection.CreateRecordWithData | connection.go:103-109 | creates a node holding the string, or reports why not and changes nothing |
| Conn.Connection.CreateRecordWithPath | connection.go:111-124 | fails with node-exists when present; otherwise creates every missing ancestor, then the record node |
| Conn.Connection.Children | connection.go:198-212 | the child names of the node, each exactly once, in some order; records the node's stat |
| Conn.Connection.Delete | connection.go:313-315 | a ZooKeeper delete at any version, with its errors and its exact effect |
| Conn.Connection.DeleteTree | connection.go:317-341 | an absent path is a success without change; otherwise exactly the subtree below and including the path is removed; the tree stays well formed |
| Conn.Connection.DeleteBranch | connection.go:332-338 | removes exactly one child's subtree and keeps the parent |
| Conn.Connection.EnsurePathExists | connection.go:430-442 | afterwards the path and all its ancestors exist; nothing that existed changes |
| Conn.Connection.UpdateMapField | connection.go:242-266 | on a record node, sets the map-field property and bumps the version; otherwise reports `Malformed` and changes nothing |
| Conn.Connection.UpdateSimpleField | connection.go:268-288 | on a record node, sets the simple field and bumps the version; otherwise panics and changes nothing |
| Conn.Connection.RemoveMapFieldKey | connection.go:343-364 | on a record node, removes the map field and bumps the version; otherwise reports `Malformed` and changes nothing |
| Conn.Connection.GetSimpleFieldValueByKey | connection.go:290-306 | the simple field's value, or "" when the key is absent; panics exactly when the node is not a record |
| Conn.Connection.GetSimpleFieldBool | connection.go:308-311 | whether the simple field reads "true" in any case; panics exactly when the node is not a record; records the node's stat |
| Conn.Connection.IsClusterSetup | connection.go:366-390 | true exactly when all thirteen cluster paths are present; the stat left behind is that of the first missing path, or of the last path when all are present |
| Conn.Connection.GetRecordFromPath | connection.go:392-398 | the record when the node holds one, or `Malformed` otherwise |
| Conn.Connection.SetRecordForPath | connection.go:400-426 | creates missing ancestors and the node if needed, then stores the record, bumping the version |
| Admin.ParticipantRecord | admin.go:269-272 | the participant config record: id is the node name; the only fields are host and port |
| Admin.ParticipantHostPort | admin.go:269-272 | for `host_port` (and `host_port_rest`), host and port are the first two underscore-separated parts |
| Admin.IdealStateRecord | admin.go:354-358 | the ideal-state record: id is the resource; the only fields are partitions, replicas, rebalance mode and state model |
| Admin.IdealStateFields | admin.go:354-358 | partitions reads back as the number passed; replicas is "0", rebalance mode is "SEMI_AUTO", and the state model is the one passed |
| Admin.Lines | admin.go:148-155 | a listing of names as two-space indented lines: at least three characters per name, and a non-empty listing ends with a newline |
| Admin.LinesAppend | admin.go:148-155 | the listing of a concatenation is the concatenation of the listings |
| Admin.AppendLines | admin.go:148-155 | appends one indented line per name, in order |
| Admin.SetUpAmongMembers | admin.go:160-180 | a name is listed exactly when it is among the children and set up as a cluster; distinct children give a duplicate-free listing |
| Admin.AutoJoinScopeAnyCase | admin.go:190-199 | `SetConfig` acts exactly when the scope is a seven-character spelling of "cluster" in any case (`ſ` for the `s` included), the auto-join property is given, and its value is a four-character spelling of "true" in any case |
| Admin.Admin.constructor | admin.go:20-22 | an admin over the given server and the given default state-model definitions |
| Admin.Admin.AddCluster | admin.go:44-92 | an existing cluster root gives node-already-exists and no change; otherwise the whole skeleton is added, the cluster passes `IsClusterSetup`, its config record is fresh, and no existing node changes |
| Admin.Admin.CreateEmptyIfMissing | admin.go:62-68 | adds an empty node unless one is already there; create errors are ignored |
| Admin.Admin.CreateDataIfMissing | admin.go:69-75 | adds a node holding the string unless one is already there |
| Admin.Admin.CreateRecordIfMissing | admin.go:82-83 | adds a record node unless one is already there |
| Admin.Admin.CreateClusterRoot | admin.go:62-69 | adds the seven top-level cluster nodes that are missing |
| Admin.Admin.CreateStateModel | admin.go:69-75 | adds one state-model definition with its default content, unless already there |
| Admin.Admin.CreateStateModels | admin.go:69-75 | adds the six built-in state-model definitions that are missing |
| Admin.Admin.CreateConfigs | admin.go:77-83 | adds the config collections and the cluster config record that are missing |
| Admin.Admin.CreateControllerNodes | admin.go:85-89 | adds the controller node and its four children that are missing |
| Admin.Admin.DropCluster | admin.go:96-105 | removes exactly the cluster's subtree |
| Admin.Admin.AllowParticipantAutoJoin | admin.go:107-115 | when asked, sets `allowParticipantAutoJoin` to "true" in the cluster config; otherwise changes nothing |
| Admin.Admin.SetConfig | admin.go:183-208 | only for the cluster scope in any case, with the auto-join property reading "true" in any case, sets the flag in the cluster config (a non-record config panics); otherwise changes nothing |
| Admin.Admin.GetConfig | admin.go:211-236 | for the cluster scope, the requested keys with their cluster-config values ("" when unset); otherwise an empty map; the store is unchanged |
| Admin.Admin.AddNode | admin.go:245-282 | cluster not set up, node already present, and a name without `_` each fail without change; otherwise the participant config and the instance nodes are added |
| Admin.Admin.CreateParticipant | admin.go:265-279 | a name without `_` panics without change; otherwise the participant is added |
| Admin.Admin.StoreParticipant | admin.go:273-279 | stores the participant config record, then the instance nodes |
| Admin.InstanceAddedNodes | admin.go:275-279 | the instance step adds exactly the instance node and its four collections, as empty version-0 nodes, and keeps every existing node |
| Admin.NodeAddedNodes | admin.go:269-281 | `AddNode`'s new store holds exactly the old nodes, the participant config and the instance paths; the participant config is the fresh participant record; every other existing node is kept |
| Admin.Admin.CreateInstanceNodes | admin.go:275-279 | adds the instance node and its messages, current-states, errors and status-updates nodes that are missing |
| Admin.Admin.DropNode | admin.go:286-312 | a missing participant config or a missing instance fails without change; otherwise both subtrees are removed |
| Admin.Admin.AddResource | admin.go:317-362 | cluster not set up, unknown state model and existing resource each fail without change; otherwise exactly the ideal-state record is added |
| Admin.Admin.DropResource | admin.go:365-385 | cluster not set up fails without change; otherwise the resource's ideal state and config subtrees are removed |
| Admin.Admin.DeleteResourceTrees | admin.go:380-382 | removes exactly the resource's ideal-state subtree and its config subtree |
| Admin.Admin.SetIdealStateField | admin.go:388-415 | cluster not set up or resource missing fails without change; a non-record ideal state panics; otherwise exactly one simple field of the ideal state is set |
| Admin.Admin.SetExistingIdealStateField | admin.go:401-413 | a missing ideal state fails without change; a non-record ideal state panics; otherwise exactly one simple field of the ideal state is set |
| Admin.Admin.EnableResource | admin.go:388-415 | as above, setting `HELIX_ENABLED` to "true" |
| Admin.Admin.DisableResource | admin.go:418-446 | as above, setting `HELIX_ENABLED` to "false" |
| Admin.Admin.ListClusters | admin.go:160-180 | exactly the root's children that are set-up clusters, each once |
| Admin.Admin.ListClusterInfo | admin.go:118-157 | fails when the cluster is not set up; otherwise the header plus one line per resource, then the header plus one line per instance |
| Admin.Admin.ListResources | admin.go:462-490 | fails when the cluster is not set up; otherwise the header plus one line per resource |
| Admin.Admin.ListInstances | admin.go:493-521 | fails when the cluster is not set up; otherwise the header plus one line per instance |
| Admin.Admin.DropInstance | admin.go:568-578 | a plain ZooKeeper delete of the instance node, with its errors |
| Admin.StateModelNames | admin.go:69-75 | the six built-in state-model names |
| Admin.StateModelNamesAreSegments | admin.go:69-75 | the six built-in state-model names are single path segments |
| Admin.StateModelEntries | admin.go:69-75 | one state-model definition entry per name |
| Admin.ApplyStep | admin.go:62-89 | applying one more create-if-missing extends the previous result by that entry |
| Admin.TopApplied | admin.go:62-69 | the root step is the sequence of its seven creates |
| Admin.StateModelsApplied | admin.go:69-75 | the state-model step is the sequence of its six creates |
| Admin.ConfigsApplied | admin.go:77-83 | the config step is the sequence of its five creates |
| Admin.ControllerApplied | admin.go:85-89 | the controller step is the sequence of its five creates |
| Admin.ApplyAppend | admin.go:62-89 | running two create sequences one after another equals running their concatenation |
| Admin.ApplyKeys | admin.go:62-89 | a create sequence adds exactly its paths and leaves existing nodes untouched |
| Admin.ApplyFirst | admin.go:62-89 | an entry absent before, and not preceded by an entry for the same path, ends up with its own payload |
| Admin.Skeleton | admin.go:62-89 | the 23 create-if-missing entries of `AddCluster`, the cluster root first |
| Admin.SkeletonSetsUp | admin.go:62-89 | after the skeleton is laid down, the cluster passes `IsClusterSetup` |
| Admin.TopBeforeClusterConfig | admin.go:62-69 | no top-level entry is the cluster config path |
| Admin.StateModelsBeforeClusterConfig | admin.go:69-75 | no state-model entry is the cluster config path |
| Admin.ConfigsBeforeClusterConfig | admin.go:77-81 | no config collection entry is the cluster config path |
| Admin.SkeletonClusterConfig | admin.go:82-83 | on a fresh cluster, the skeleton leaves the cluster config as a fresh record named after the cluster |
| ResourceOptions.DefaultAddResourceOption | types.go:14-20 | the given partitions and state model, "SEMI_AUTO" rebalance mode, and every other option empty or zero |
| ResourceOptions.Validate | types.go:22-27 | an error exactly when partitions is below 1, or the state model or rebalancer mode is empty |
| ResourceOptions.ValidateDefault | types.go:14-27 | the default option is valid exactly when partitions is at least 1 and the state model is not empty |

## Left out

- Connecting, disconnecting, sessions and connection state (connection.go:45-93, admin.go:24-39). The store is a value in memory and every operation runs connected.
- The retry loops and their backoff (connection.go:126-212). A retried read is modelled as the call that finally returns, so its requires say when it returns: a valid path for `Exists`, a present node for `Get` and `Children`.
- The watch variants `GetW` and `ChildrenW` (connection.go:171-187, 214-230), because they involve event channels.
- The mutex in `SetRecordForPath` and every concurrent interleaving. This includes the race in `DeleteTree` between listing a node's children and deleting them. The model is sequential.
- `isClusterSetup` (connection.go:95-97), a stub that always returns true and that nothing calls.
- `Rebalance` (admin.go:448-459), a stub: it connects, prints "Not implemented" and changes nothing. `AddInstance`, `ListInstanceInfo` and `GetInstances` (admin.go:238-243, 524-566) are outside the modelled core.
- manager.go and the demo programs, which are outside the modelled core.
- The printed output of the Go functions (`fmt.Println`).
- Record encoding to JSON bytes: a record node holds the value itself. The contents of `HelixDefaultNodes` are opaque strings supplied as the `defaultNodes` parameter of the `Admin` constructor. The state-model constants are used under their Apache Helix names.
- Records.Decode: a `Raw` payload never decodes, even when its text would parse as a record. The state-model definitions that `AddCluster` stores from `HelixDefaultNodes` are such text, and no modelled operation reads them back.
- Admin operations take single-segment names (`IsSegment`: non-empty, no `/`) for clusters, nodes, resources and state models, so that every built path is a valid ZooKeeper path.
- `path.Dir` is modelled only on valid ZooKeeper paths, which `path.Clean` leaves unchanged.
- ZooKeeper's 32-bit version counter is an unbounded `nat`. Its wrap-around is not modelled.
- `Children` returns the child names in an order the model leaves open (`ChildListing`). Listings are stated for some such order.
- Conn.Connection.DeleteTree: requires that the root have no children when called on "/". With children, the source never returns: it builds each child path as `"/" + "/" + c` (see Findings), and `Exists` retries that invalid path forever. Emptying a populated root is not modelled.
- Conn.Connection.DeleteTree: the stat it leaves behind depends on the order of the listings and is not stated.
- Text.ToUpper: maps only the characters whose Go upper case is an ASCII letter (the ASCII lower-case letters, `ı` and `ſ`); every other character is left unchanged instead of being mapped by Go's full Unicode table. Every result the core compares against is ASCII, so those comparisons come out as in Go: for example `strings.ToUpper("cluſter") == "CLUSTER"` holds in the model too.
- Text.ToLower: maps only the characters whose Go lower case is an ASCII letter (the ASCII upper-case letters, `İ` and the Kelvin sign `K`); every other character is left unchanged instead of being mapped by Go's full Unicode table. Every result the core compares against is ASCII, so those comparisons come out as in Go.
- Admin.Admin.SetConfig: inherits the partial case mapping of `Text.ToUpper` and `Text.ToLower`; since both comparisons are against ASCII strings, it accepts exactly the scopes and values Go accepts.
- ZPath.ValidPath: accepts the segments "." and "..", and the control and reserved characters that ZooKeeper's path validation rejects (in the ranges U+0000–U+001F, U+007F–U+009F, U+D800–U+F8FF and U+FFF0–U+FFFF). `AddCluster(".")` succeeds in the model, while ZooKeeper refuses the path `/.`. Excluding them would tie every path lemma to a character test that the cluster names never need.
- `DeleteTree` on an absent path returns no error (connection.go:318-320): the model follows the code here rather than reporting not-found. Likewise, `SetConfig` compares the scope after `strings.ToUpper`, while `GetConfig` compares it exactly (admin.go:191, 221), and the model keeps that difference.

## Findings

| source | as written | input that shows it | evidently intended | confidence | as-written member | corrected member |
|---|---|---|---|---|---|---|
| connection.go:332-334 | `DeleteTree` builds each child path as `path + "/" + c`, which for the root gives `//c` | `DeleteTree("/")` on a tree where the root has a child `c` | join the child onto the root as `/c`, as `path.Join` would | not executed | ZPath.RootChildInvalid | ZPath.ChildParts |

`ZPath.RootChildInvalid` shows that the path built for a child of the root is not valid. `Exists` retries such a path forever, so `DeleteTree("/")` never returns. The model joins paths with `ZPath.Child` (the root gives `/c`). `ZPath.ChildParts` proves that joining a segment onto any valid path, the root included, gives a valid path whose parent and name are the two parts. The model's joins go through `Child`: `Conn.Connection.DeleteBranch` states its effect on `Child(path, c)`, and the validity lemmas of the path builders are proved through `ChildParts`.
