/** The path namespace of keybuilder.go: every path of a cluster's metadata is
    a pure function of the cluster id `c` and the entity ids passed in. */
module Keys {
  import opened ZPath

  function Cluster(c: string): (r: string) ensures |r| == |c| + 1 && r[0] == '/' && r[1..] == c { "/" + c }

  function Configs(c: string): (r: string) ensures Cluster(c) + "/" <= r { "/" + c + "/CONFIGS" }
  function ClusterConfigs(c: string): (r: string) ensures Cluster(c) + "/" <= r { "/" + c + "/CONFIGS/CLUSTER" }
  function ClusterConfig(c: string): (r: string) ensures Cluster(c) + "/" <= r { "/" + c + "/CONFIGS/CLUSTER/" + c }
  function ExternalView(c: string): (r: string) ensures Cluster(c) + "/" <= r { "/" + c + "/EXTERNALVIEW" }
  function ExternalViewForResource(c: string, resource: string): (r: string) ensures Cluster(c) + "/" <= r { "/" + c + "/EXTERNALVIEW/" + resource }
  function PropertyStore(c: string): (r: string) ensures Cluster(c) + "/" <= r { "/" + c + "/PROPERTYSTORE" }
  function Controller(c: string): (r: string) ensures Cluster(c) + "/" <= r { "/" + c + "/CONTROLLER" }
  function ControllerErrors(c: string): (r: string) ensures Cluster(c) + "/" <= r { "/" + c + "/CONTROLLER/ERRORS" }
  function ControllerHistory(c: string): (r: string) ensures Cluster(c) + "/" <= r { "/" + c + "/CONTROLLER/HISTORY" }
  function ControllerMessages(c: string): (r: string) ensures Cluster(c) + "/" <= r { "/" + c + "/CONTROLLER/MESSAGES" }
  function ControllerMessage(c: string, id: string): (r: string) ensures Cluster(c) + "/" <= r { "/" + c + "/CONTROLLER/MESSAGES/" + id }
  function ControllerStatusUpdates(c: string): (r: string) ensures Cluster(c) + "/" <= r { "/" + c + "/CONTROLLER/STATUSUPDATES" }
  function IdealStates(c: string): (r: string) ensures Cluster(c) + "/" <= r { "/" + c + "/IDEALSTATES" }
  function IdealStateForResource(c: string, resource: string): (r: string) ensures Cluster(c) + "/" <= r { "/" + c + "/IDEALSTATES/" + resource }
  function ResourceConfigs(c: string): (r: string) ensures Cluster(c) + "/" <= r { "/" + c + "/CONFIGS/RESOURCE" }
  function ResourceConfig(c: string, resource: string): (r: string) ensures Cluster(c) + "/" <= r { "/" + c + "/CONFIGS/RESOURCE/" + resource }
  function ParticipantConfigs(c: string): (r: string) ensures Cluster(c) + "/" <= r { "/" + c + "/CONFIGS/PARTICIPANT" }
  function ParticipantConfig(c: string, participant: string): (r: string) ensures Cluster(c) + "/" <= r { "/" + c + "/CONFIGS/PARTICIPANT/" + participant }
  function LiveInstances(c: string): (r: string) ensures Cluster(c) + "/" <= r { "/" + c + "/LIVEINSTANCES" }
  function Instances(c: string): (r: string) ensures Cluster(c) + "/" <= r { "/" + c + "/INSTANCES" }
  function Instance(c: string, participant: string): (r: string) ensures Cluster(c) + "/" <= r { "/" + c + "/INSTANCES/" + participant }
  function LiveInstance(c: string, participant: string): (r: string) ensures Cluster(c) + "/" <= r { "/" + c + "/LIVEINSTANCES/" + participant }
  function CurrentStates(c: string, participant: string): (r: string) ensures Cluster(c) + "/" <= r { "/" + c + "/INSTANCES/" + participant + "/CURRENTSTATES" }
  function CurrentStatesForSession(c: string, participant: string, session: string): (r: string) ensures Cluster(c) + "/" <= r
  { "/" + c + "/INSTANCES/" + participant + "/CURRENTSTATES/" + session }
  function CurrentStateForResource(c: string, participant: string, session: string, resource: string): (r: string) ensures Cluster(c) + "/" <= r
  { "/" + c + "/INSTANCES/" + participant + "/CURRENTSTATES/" + session + "/" + resource }
  function ErrorsR(c: string, participant: string): (r: string) ensures Cluster(c) + "/" <= r { "/" + c + "/INSTANCES/" + participant + "/ERRORS" }
  function Errors(c: string, participant: string, session: string, resource: string): (r: string) ensures Cluster(c) + "/" <= r
  { "/" + c + "/INSTANCES/" + participant + "/ERRORS/" + session + "/" + resource }
  function HealthReport(c: string, participant: string): (r: string) ensures Cluster(c) + "/" <= r { "/" + c + "/INSTANCES/" + participant + "/HEALTHREPORT" }
  function StatusUpdates(c: string, participant: string): (r: string) ensures Cluster(c) + "/" <= r { "/" + c + "/INSTANCES/" + participant + "/STATUSUPDATES" }
  function StateModels(c: string): (r: string) ensures Cluster(c) + "/" <= r { "/" + c + "/STATEMODELDEFS" }
  function StateModel(c: string, name: string): (r: string) ensures Cluster(c) + "/" <= r { "/" + c + "/STATEMODELDEFS/" + name }
  function Messages(c: string, participant: string): (r: string) ensures Cluster(c) + "/" <= r { "/" + c + "/INSTANCES/" + participant + "/MESSAGES" }
  function Message(c: string, participant: string, id: string): (r: string) ensures Cluster(c) + "/" <= r
  { "/" + c + "/INSTANCES/" + participant + "/MESSAGES/" + id }

  /** The paths whose presence makes a cluster "set up", in the order they
      are checked. */
  function ClusterPaths(c: string): (ps: seq<string>)
    ensures |ps| == 13 && ps[0] == Cluster(c)
  {
    [Cluster(c), IdealStates(c), ParticipantConfigs(c), PropertyStore(c), LiveInstances(c),
     Instances(c), ExternalView(c), StateModels(c), Controller(c), ControllerErrors(c),
     ControllerHistory(c), ControllerMessages(c), ControllerStatusUpdates(c)]
  }

  /** The three config collections sit under `Configs`, and the cluster's own
      config record is named after the cluster. */
  lemma ConfigsNest(c: string)
    ensures ClusterConfigs(c) == Configs(c) + "/CLUSTER"
    ensures ParticipantConfigs(c) == Configs(c) + "/PARTICIPANT"
    ensures ResourceConfigs(c) == Configs(c) + "/RESOURCE"
    ensures ClusterConfig(c) == ClusterConfigs(c) + "/" + c
  {
  }

  /** Each entry path is its collection path plus "/" and the id; the ideal
      state path admin.go writes out by hand is the builder's. */
  lemma EntriesNest(c: string, id: string)
    ensures ParticipantConfig(c, id) == ParticipantConfigs(c) + "/" + id
    ensures Instance(c, id) == Instances(c) + "/" + id
    ensures LiveInstance(c, id) == LiveInstances(c) + "/" + id
    ensures StateModel(c, id) == StateModels(c) + "/" + id
    ensures ControllerMessage(c, id) == ControllerMessages(c) + "/" + id
    ensures ResourceConfig(c, id) == ResourceConfigs(c) + "/" + id
    ensures ExternalViewForResource(c, id) == ExternalView(c) + "/" + id
    ensures IdealStateForResource(c, id) == IdealStates(c) + "/" + id
  {
  }

  /** The per-instance collections are the instance path plus a fixed segment. */
  lemma InstanceSubpaths(c: string, p: string, m: string)
    ensures Messages(c, p) == Instance(c, p) + "/MESSAGES"
    ensures CurrentStates(c, p) == Instance(c, p) + "/CURRENTSTATES"
    ensures ErrorsR(c, p) == Instance(c, p) + "/ERRORS"
    ensures HealthReport(c, p) == Instance(c, p) + "/HEALTHREPORT"
    ensures StatusUpdates(c, p) == Instance(c, p) + "/STATUSUPDATES"
    ensures Message(c, p, m) == Messages(c, p) + "/" + m
  {
  }

  /** Session and resource paths nest under the instance's collections. */
  lemma SessionPaths(c: string, p: string, s: string, r: string)
    ensures CurrentStateForResource(c, p, s, r) == CurrentStatesForSession(c, p, s) + "/" + r
    ensures CurrentStatesForSession(c, p, s) + "/" + r == CurrentStates(c, p) + "/" + s + "/" + r
    ensures Errors(c, p, s, r) == ErrorsR(c, p) + "/" + s + "/" + r
  {
  }

  lemma CancelPrefix(p: string, a: string, b: string)
    requires p + a == p + b
    ensures a == b
  {
    assert a == (p + a)[|p|..];
    assert b == (p + b)[|p|..];
  }

  /** No state model definition path is the cluster config path. */
  lemma StateModelNotClusterConfig(c: string, m: string)
    ensures StateModel(c, m) != ClusterConfig(c)
  {
    var a := "/STATEMODELDEFS/" + m;
    var b := "/CONFIGS/CLUSTER/" + c;
    assert StateModel(c, m) == "/" + c + a;
    assert ClusterConfig(c) == "/" + c + b;
    assert a[1] == 'S' && b[1] == 'C';
    if StateModel(c, m) == ClusterConfig(c) {
      CancelPrefix("/" + c, a, b);
    }
  }

  /** Nor is any of the sibling config collections. */
  lemma ConfigCollectionsNotClusterConfig(c: string)
    ensures ParticipantConfigs(c) != ClusterConfig(c) && ResourceConfigs(c) != ClusterConfig(c)
  {
    var b := "/CONFIGS/CLUSTER/" + c;
    assert ClusterConfig(c) == "/" + c + b;
    assert ParticipantConfigs(c) == "/" + c + "/CONFIGS/PARTICIPANT";
    assert ResourceConfigs(c) == "/" + c + "/CONFIGS/RESOURCE";
    assert b[9] == 'C';
    if ParticipantConfigs(c) == ClusterConfig(c) {
      CancelPrefix("/" + c, "/CONFIGS/PARTICIPANT", b);
    }
    if ResourceConfigs(c) == ClusterConfig(c) {
      CancelPrefix("/" + c, "/CONFIGS/RESOURCE", b);
    }
  }

  /** The id-parameterised builders never map two ids to one path. */
  lemma EntriesInjective(c: string, a: string, b: string)
    ensures ParticipantConfig(c, a) == ParticipantConfig(c, b) ==> a == b
    ensures Instance(c, a) == Instance(c, b) ==> a == b
    ensures LiveInstance(c, a) == LiveInstance(c, b) ==> a == b
    ensures StateModel(c, a) == StateModel(c, b) ==> a == b
    ensures ControllerMessage(c, a) == ControllerMessage(c, b) ==> a == b
    ensures ResourceConfig(c, a) == ResourceConfig(c, b) ==> a == b
    ensures ExternalViewForResource(c, a) == ExternalViewForResource(c, b) ==> a == b
    ensures IdealStateForResource(c, a) == IdealStateForResource(c, b) ==> a == b
  {
    EntriesNest(c, a);
    EntriesNest(c, b);
    if ParticipantConfig(c, a) == ParticipantConfig(c, b) { CancelPrefix(ParticipantConfigs(c) + "/", a, b); }
    if Instance(c, a) == Instance(c, b) { CancelPrefix(Instances(c) + "/", a, b); }
    if LiveInstance(c, a) == LiveInstance(c, b) { CancelPrefix(LiveInstances(c) + "/", a, b); }
    if StateModel(c, a) == StateModel(c, b) { CancelPrefix(StateModels(c) + "/", a, b); }
    if ControllerMessage(c, a) == ControllerMessage(c, b) { CancelPrefix(ControllerMessages(c) + "/", a, b); }
    if ResourceConfig(c, a) == ResourceConfig(c, b) { CancelPrefix(ResourceConfigs(c) + "/", a, b); }
    if ExternalViewForResource(c, a) == ExternalViewForResource(c, b) { CancelPrefix(ExternalView(c) + "/", a, b); }
    if IdealStateForResource(c, a) == IdealStateForResource(c, b) { CancelPrefix(IdealStates(c) + "/", a, b); }
  }

  lemma CancelAround(p: string, a: string, b: string, q: string)
    requires p + a + q == p + b + q
    ensures a == b
  {
    assert p + a + q == p + (a + q) && p + b + q == p + (b + q);
    CancelPrefix(p, a + q, b + q);
    assert a == (a + q)[..|a|];
    assert b == (b + q)[..|b|];
  }

  /** The per-instance collections never map two participants to one path. */
  lemma InstanceEntriesInjective(c: string, a: string, b: string)
    ensures Messages(c, a) == Messages(c, b) ==> a == b
    ensures CurrentStates(c, a) == CurrentStates(c, b) ==> a == b
    ensures ErrorsR(c, a) == ErrorsR(c, b) ==> a == b
    ensures HealthReport(c, a) == HealthReport(c, b) ==> a == b
    ensures StatusUpdates(c, a) == StatusUpdates(c, b) ==> a == b
  {
    var p := "/" + c + "/INSTANCES/";
    if Messages(c, a) == Messages(c, b) { CancelAround(p, a, b, "/MESSAGES"); }
    if CurrentStates(c, a) == CurrentStates(c, b) { CancelAround(p, a, b, "/CURRENTSTATES"); }
    if ErrorsR(c, a) == ErrorsR(c, b) { CancelAround(p, a, b, "/ERRORS"); }
    if HealthReport(c, a) == HealthReport(c, b) { CancelAround(p, a, b, "/HEALTHREPORT"); }
    if StatusUpdates(c, a) == StatusUpdates(c, b) { CancelAround(p, a, b, "/STATUSUPDATES"); }
  }

  /** The builders below an instance never map two values of their last id
      to one path, the earlier ids being fixed. */
  lemma SessionEntriesInjective(c: string, p: string, s: string, a: string, b: string)
    ensures Message(c, p, a) == Message(c, p, b) ==> a == b
    ensures CurrentStatesForSession(c, p, a) == CurrentStatesForSession(c, p, b) ==> a == b
    ensures CurrentStateForResource(c, p, s, a) == CurrentStateForResource(c, p, s, b) ==> a == b
    ensures Errors(c, p, s, a) == Errors(c, p, s, b) ==> a == b
  {
    var i := "/" + c + "/INSTANCES/" + p;
    if Message(c, p, a) == Message(c, p, b) { CancelPrefix(i + "/MESSAGES/", a, b); }
    if CurrentStatesForSession(c, p, a) == CurrentStatesForSession(c, p, b) { CancelPrefix(i + "/CURRENTSTATES/", a, b); }
    if CurrentStateForResource(c, p, s, a) == CurrentStateForResource(c, p, s, b) {
      CancelPrefix(i + "/CURRENTSTATES/" + s + "/", a, b);
    }
    if Errors(c, p, s, a) == Errors(c, p, s, b) { CancelPrefix(i + "/ERRORS/" + s + "/", a, b); }
  }

  /** The suffixes that follow "/" + c in the cluster paths, in order. */
  function ClusterSuffixes(): seq<string> {
    ["", "/IDEALSTATES", "/CONFIGS/PARTICIPANT", "/PROPERTYSTORE", "/LIVEINSTANCES",
     "/INSTANCES", "/EXTERNALVIEW", "/STATEMODELDEFS", "/CONTROLLER", "/CONTROLLER/ERRORS",
     "/CONTROLLER/HISTORY", "/CONTROLLER/MESSAGES", "/CONTROLLER/STATUSUPDATES"]
  }

  /** The thirteen paths checked for a set-up cluster are pairwise distinct. */
  lemma ClusterPathsDistinct(c: string)
    ensures |ClusterPaths(c)| == 13
    ensures forall i, j :: 0 <= i < j < 13 ==> ClusterPaths(c)[i] != ClusterPaths(c)[j]
  {
    var s := ClusterSuffixes();
    assert forall i :: 0 <= i < 13 ==> ClusterPaths(c)[i] == "/" + c + s[i];
    forall i, j | 0 <= i < j < 13 ensures ClusterPaths(c)[i] != ClusterPaths(c)[j] {
      assert s[i] != s[j];
      if ClusterPaths(c)[i] == ClusterPaths(c)[j] {
        CancelPrefix("/" + c, s[i], s[j]);
      }
    }
  }

  /** Appending a one-segment name to a valid path gives a valid path with
      that parent. */
  lemma Extend(p: string, s: string, r: string)
    requires ValidPath(p) && IsSegment(s) && r == Child(p, s)
    ensures ValidPath(r) && r != "/" && Dir(r) == p && Name(r) == s
  {
    ChildParts(p, s);
  }

  // Each fixed path of a one-segment cluster id is a one-segment child of
  // the path it sits under, and so a path the store accepts.

  /** A one-segment cluster id names a child of the root. */
  lemma ClusterValid(c: string)
    requires IsSegment(c)
    ensures ValidPath(Cluster(c)) && Cluster(c) != "/" && Dir(Cluster(c)) == "/"
  {
    Extend("/", c, Cluster(c));
  }

  lemma IdealStatesValid(c: string)
    requires IsSegment(c)
    ensures ValidPath(IdealStates(c)) && Dir(IdealStates(c)) == Cluster(c)
  {
    ClusterValid(c);
    FixedSegment("IDEALSTATES");
    Extend(Cluster(c), "IDEALSTATES", IdealStates(c));
  }

  lemma PropertyStoreValid(c: string)
    requires IsSegment(c)
    ensures ValidPath(PropertyStore(c)) && Dir(PropertyStore(c)) == Cluster(c)
  {
    ClusterValid(c);
    FixedSegment("PROPERTYSTORE");
    Extend(Cluster(c), "PROPERTYSTORE", PropertyStore(c));
  }

  lemma LiveInstancesValid(c: string)
    requires IsSegment(c)
    ensures ValidPath(LiveInstances(c)) && Dir(LiveInstances(c)) == Cluster(c)
  {
    ClusterValid(c);
    FixedSegment("LIVEINSTANCES");
    Extend(Cluster(c), "LIVEINSTANCES", LiveInstances(c));
  }

  lemma InstancesValid(c: string)
    requires IsSegment(c)
    ensures ValidPath(Instances(c)) && Dir(Instances(c)) == Cluster(c)
  {
    ClusterValid(c);
    FixedSegment("INSTANCES");
    Extend(Cluster(c), "INSTANCES", Instances(c));
  }

  lemma ExternalViewValid(c: string)
    requires IsSegment(c)
    ensures ValidPath(ExternalView(c)) && Dir(ExternalView(c)) == Cluster(c)
  {
    ClusterValid(c);
    FixedSegment("EXTERNALVIEW");
    Extend(Cluster(c), "EXTERNALVIEW", ExternalView(c));
  }

  lemma StateModelsValid(c: string)
    requires IsSegment(c)
    ensures ValidPath(StateModels(c)) && Dir(StateModels(c)) == Cluster(c)
  {
    ClusterValid(c);
    FixedSegment("STATEMODELDEFS");
    Extend(Cluster(c), "STATEMODELDEFS", StateModels(c));
  }

  lemma ControllerValid(c: string)
    requires IsSegment(c)
    ensures ValidPath(Controller(c)) && Dir(Controller(c)) == Cluster(c)
  {
    ClusterValid(c);
    FixedSegment("CONTROLLER");
    Extend(Cluster(c), "CONTROLLER", Controller(c));
  }

  lemma ConfigsValid(c: string)
    requires IsSegment(c)
    ensures ValidPath(Configs(c)) && Dir(Configs(c)) == Cluster(c)
  {
    ClusterValid(c);
    FixedSegment("CONFIGS");
    Extend(Cluster(c), "CONFIGS", Configs(c));
  }

  lemma ControllerErrorsValid(c: string)
    requires IsSegment(c)
    ensures ValidPath(ControllerErrors(c)) && Dir(ControllerErrors(c)) == Controller(c)
  {
    ControllerValid(c);
    FixedSegment("ERRORS");
    Extend(Controller(c), "ERRORS", ControllerErrors(c));
  }

  lemma ControllerHistoryValid(c: string)
    requires IsSegment(c)
    ensures ValidPath(ControllerHistory(c)) && Dir(ControllerHistory(c)) == Controller(c)
  {
    ControllerValid(c);
    FixedSegment("HISTORY");
    Extend(Controller(c), "HISTORY", ControllerHistory(c));
  }

  lemma ControllerMessagesValid(c: string)
    requires IsSegment(c)
    ensures ValidPath(ControllerMessages(c)) && Dir(ControllerMessages(c)) == Controller(c)
  {
    ControllerValid(c);
    FixedSegment("MESSAGES");
    Extend(Controller(c), "MESSAGES", ControllerMessages(c));
  }

  lemma ControllerStatusUpdatesValid(c: string)
    requires IsSegment(c)
    ensures ValidPath(ControllerStatusUpdates(c)) && Dir(ControllerStatusUpdates(c)) == Controller(c)
  {
    ControllerValid(c);
    FixedSegment("STATUSUPDATES");
    Extend(Controller(c), "STATUSUPDATES", ControllerStatusUpdates(c));
  }

  lemma ParticipantConfigsValid(c: string)
    requires IsSegment(c)
    ensures ValidPath(ParticipantConfigs(c)) && Dir(ParticipantConfigs(c)) == Configs(c)
  {
    ConfigsValid(c);
    FixedSegment("PARTICIPANT");
    Extend(Configs(c), "PARTICIPANT", ParticipantConfigs(c));
  }

  lemma ResourceConfigsValid(c: string)
    requires IsSegment(c)
    ensures ValidPath(ResourceConfigs(c)) && Dir(ResourceConfigs(c)) == Configs(c)
  {
    ConfigsValid(c);
    FixedSegment("RESOURCE");
    Extend(Configs(c), "RESOURCE", ResourceConfigs(c));
  }

  lemma ClusterConfigsValid(c: string)
    requires IsSegment(c)
    ensures ValidPath(ClusterConfigs(c)) && Dir(ClusterConfigs(c)) == Configs(c)
  {
    ConfigsValid(c);
    FixedSegment("CLUSTER");
    Extend(Configs(c), "CLUSTER", ClusterConfigs(c));
  }

  lemma ClusterConfigValid(c: string)
    requires IsSegment(c)
    ensures ValidPath(ClusterConfig(c)) && Dir(ClusterConfig(c)) == ClusterConfigs(c)
  {
    ClusterConfigsValid(c);
    Extend(ClusterConfigs(c), c, ClusterConfig(c));
  }

  lemma ParticipantConfigValid(c: string, id: string)
    requires IsSegment(c) && IsSegment(id)
    ensures ValidPath(ParticipantConfig(c, id)) && Dir(ParticipantConfig(c, id)) == ParticipantConfigs(c)
  {
    ParticipantConfigsValid(c);
    Extend(ParticipantConfigs(c), id, ParticipantConfig(c, id));
  }

  lemma InstanceValid(c: string, id: string)
    requires IsSegment(c) && IsSegment(id)
    ensures ValidPath(Instance(c, id)) && Dir(Instance(c, id)) == Instances(c)
  {
    InstancesValid(c);
    Extend(Instances(c), id, Instance(c, id));
  }

  lemma StateModelValid(c: string, id: string)
    requires IsSegment(c) && IsSegment(id)
    ensures ValidPath(StateModel(c, id)) && Dir(StateModel(c, id)) == StateModels(c)
  {
    StateModelsValid(c);
    Extend(StateModels(c), id, StateModel(c, id));
  }

  lemma ResourceConfigValid(c: string, id: string)
    requires IsSegment(c) && IsSegment(id)
    ensures ValidPath(ResourceConfig(c, id)) && Dir(ResourceConfig(c, id)) == ResourceConfigs(c)
  {
    ResourceConfigsValid(c);
    Extend(ResourceConfigs(c), id, ResourceConfig(c, id));
  }

  lemma IdealStateForResourceValid(c: string, id: string)
    requires IsSegment(c) && IsSegment(id)
    ensures ValidPath(IdealStateForResource(c, id)) && Dir(IdealStateForResource(c, id)) == IdealStates(c)
  {
    IdealStatesValid(c);
    Extend(IdealStates(c), id, IdealStateForResource(c, id));
  }

  lemma MessagesValid(c: string, id: string)
    requires IsSegment(c) && IsSegment(id)
    ensures ValidPath(Messages(c, id)) && Dir(Messages(c, id)) == Instance(c, id)
  {
    InstanceValid(c, id);
    FixedSegment("MESSAGES");
    Extend(Instance(c, id), "MESSAGES", Messages(c, id));
  }

  lemma CurrentStatesValid(c: string, id: string)
    requires IsSegment(c) && IsSegment(id)
    ensures ValidPath(CurrentStates(c, id)) && Dir(CurrentStates(c, id)) == Instance(c, id)
  {
    InstanceValid(c, id);
    FixedSegment("CURRENTSTATES");
    Extend(Instance(c, id), "CURRENTSTATES", CurrentStates(c, id));
  }

  lemma ErrorsRValid(c: string, id: string)
    requires IsSegment(c) && IsSegment(id)
    ensures ValidPath(ErrorsR(c, id)) && Dir(ErrorsR(c, id)) == Instance(c, id)
  {
    InstanceValid(c, id);
    FixedSegment("ERRORS");
    Extend(Instance(c, id), "ERRORS", ErrorsR(c, id));
  }

  lemma StatusUpdatesValid(c: string, id: string)
    requires IsSegment(c) && IsSegment(id)
    ensures ValidPath(StatusUpdates(c, id)) && Dir(StatusUpdates(c, id)) == Instance(c, id)
  {
    InstanceValid(c, id);
    FixedSegment("STATUSUPDATES");
    Extend(Instance(c, id), "STATUSUPDATES", StatusUpdates(c, id));
  }

  /** For a one-segment cluster id, every path checked for a set-up cluster
      is one the store accepts. */
  lemma ClusterPathsValid(c: string)
    requires IsSegment(c)
    ensures forall i :: 0 <= i < |ClusterPaths(c)| ==> ValidPath(ClusterPaths(c)[i])
  {
    var p := ClusterPaths(c);
    assert p[0] == Cluster(c) && p[1] == IdealStates(c) && p[2] == ParticipantConfigs(c);
    assert p[3] == PropertyStore(c) && p[4] == LiveInstances(c) && p[5] == Instances(c);
    assert p[6] == ExternalView(c) && p[7] == StateModels(c) && p[8] == Controller(c);
    assert p[9] == ControllerErrors(c) && p[10] == ControllerHistory(c);
    assert p[11] == ControllerMessages(c) && p[12] == ControllerStatusUpdates(c);
    ClusterValid(c); IdealStatesValid(c); ParticipantConfigsValid(c); PropertyStoreValid(c);
    LiveInstancesValid(c); InstancesValid(c); ExternalViewValid(c); StateModelsValid(c);
    ControllerValid(c); ControllerErrorsValid(c); ControllerHistoryValid(c);
    ControllerMessagesValid(c); ControllerStatusUpdatesValid(c);
    EveryOne(p, ValidPath);
  }

  /** A property shown of each of thirteen listed elements holds at every
      index. */
  lemma EveryOne<T>(p: seq<T>, P: T -> bool)
    requires |p| == 13
    requires P(p[0]) && P(p[1]) && P(p[2]) && P(p[3]) && P(p[4]) && P(p[5]) && P(p[6])
    requires P(p[7]) && P(p[8]) && P(p[9]) && P(p[10]) && P(p[11]) && P(p[12])
    ensures forall i :: 0 <= i < |p| ==> P(p[i])
  {
    forall i | 0 <= i < |p| ensures P(p[i]) {
      if i < 7 {
        assert i == 0 || i == 1 || i == 2 || i == 3 || i == 4 || i == 5 || i == 6;
      } else {
        assert i == 7 || i == 8 || i == 9 || i == 10 || i == 11 || i == 12;
      }
    }
  }
}
