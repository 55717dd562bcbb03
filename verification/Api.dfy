/** The KarmadaDeployment object as the API server stores it, and the pure parts of its helpers:
    the condition setters and the predicates over conditions. */
module Api {

  datatype Option<+T> = None | Some(value: T)

  datatype Phase = NoPhase | Preflight | Deploying | Waiting | InstalledCRD | Completed

  datatype ConditionStatus = ConditionTrue | ConditionFalse | ConditionUnknown

  datatype ConditionType = Ready | OtherType(name: string)

  datatype Reason =
    | Progressing
    | InstallModeFailed
    | HelmInitFailed
    | HelmChartFailed
    | HelmReleaseFailed
    | ReconciliationFailed
    | ReconciliationSucceeded

  datatype Condition = Condition(kind: ConditionType, status: ConditionStatus, reason: Reason)

  datatype SecretRef = SecretRef(namespace: string, name: string)

  // ---- Summary of the member clusters, as stored in the status ----

  datatype NumStatistic = NumStatistic(totalNum: int, readyNum: int)

  /** The resource names the operator adds up; any other name is carried along. */
  datatype ResourceName = Cpu | Memory | Storage | EphemeralStorage | Pods | OtherName(name: string)

  /** Quantities are exact and counted in their smallest unit. */
  type Quantities = map<ResourceName, int>

  /** nil resource lists are None. */
  datatype ResourceStatistic = ResourceStatistic(
    allocatableList: Option<Quantities>,
    allocatingList: Option<Quantities>,
    allocatedList: Option<Quantities>)

  datatype NodeSummary = NodeSummary(total: NumStatistic, clusters: map<string, NumStatistic>)

  datatype ResourceSummary = ResourceSummary(total: ResourceStatistic, clusters: map<string, ResourceStatistic>)

  datatype ClusterCondition = ClusterCondition(kind: string, status: ConditionStatus)

  datatype ClusterSummary = ClusterSummary(total: NumStatistic, conditions: map<string, seq<ClusterCondition>>)

  /** The resources a summary manager watches; any other resource is carried along. */
  datatype Resource =
    | Services | Secrets | ConfigMaps | PersistentVolumeClaims | Deployments
    | OverridePolicies | PropagationPolicies | Clusters
    | OtherResource(name: string)

  datatype Summary = Summary(
    resourceTotalNum: map<Resource, int>,
    policyTotalNum: map<Resource, int>,
    clusterSummary: Option<ClusterSummary>,
    nodeSummary: Option<NodeSummary>,
    resourceSummary: Option<ResourceSummary>,
    workLoadSummary: map<Resource, NumStatistic>)

  datatype Status = Status(
    observedGeneration: int,
    phase: Phase,
    ready: bool,
    secretRef: Option<SecretRef>,
    karmadaVersion: string,
    kubernetesVersion: string,
    summary: Option<Summary>,
    conditions: seq<Condition>)

  // ---- Spec ----

  datatype Images = Images(
    karmadaRegistry: string,
    karmadaVersion: string,
    kubeRegistry: string,
    kubeVersion: string,
    dockerIoRegistry: string)

  datatype EtcdSpec = EtcdSpec(storageMode: string, storageClass: string, size: string)

  /** The module names of the API; any other string is carried along. */
  datatype ModuleName =
    | Scheduler | Webhook | ControllerManager | Agent | AggregatedApiServer | Etcd | ApiServer
    | KubeControllerManager | SchedulerEstimator | Descheduler | Search | Kubectl | Cfssl
    | OtherModule(name: string)

  datatype ModuleSpec = ModuleSpec(name: ModuleName, replicas: Option<int>, image: string, pullPolicy: string)

  /** `mode` is the value GetInstaller dereferences; it must not be nil there. */
  datatype Spec = Spec(
    mode: string,
    images: Option<Images>,
    namespace: string,
    etcd: Option<EtcdSpec>,
    modules: seq<ModuleSpec>,
    components: seq<string>,
    serviceType: string)

  datatype Finalizer = InstallerFinalizer | SummaryFinalizer | ForeignFinalizer(name: string)

  /** `cascade` is the value of the label karmada.install.io/disable-cascading-deletion. */
  datatype Object = Object(
    generation: int,
    deleting: bool,
    finalizers: set<Finalizer>,
    cascade: Option<string>,
    spec: Spec,
    status: Status)

  const EMPTY_STATUS := Status(0, NoPhase, false, None, "", "", None, [])
  const DEFAULT_KARMADA_VERSION := "v1.5.0"

  // ---- Condition setters ----

  /** apimeta.SetStatusCondition: update the first condition of that type in place, else append. */
  function SetStatusCondition(conditions: seq<Condition>, c: Condition): (r: seq<Condition>)
    ensures r != []
    ensures |conditions| <= |r| <= |conditions| + 1
  {
    if conditions == [] then [c]
    else if conditions[0].kind == c.kind then [c] + conditions[1..]
    else [conditions[0]] + SetStatusCondition(conditions[1..], c)
  }

  function MarkProgressing(st: Status): Status {
    st.(conditions := SetStatusCondition([], Condition(Ready, ConditionUnknown, Progressing)))
  }

  function MarkNotReady(st: Status, reason: Reason): Status {
    st.(conditions := SetStatusCondition(st.conditions, Condition(Ready, ConditionFalse, reason)))
  }

  function MarkReady(st: Status): Status {
    st.(conditions := SetStatusCondition(st.conditions, Condition(Ready, ConditionTrue, ReconciliationSucceeded)))
  }

  predicate IsInstallModeFailed(st: Status) {
    exists i :: 0 <= i < |st.conditions| && st.conditions[i] == Condition(Ready, ConditionFalse, InstallModeFailed)
  }

  predicate IsConditionEmpty(st: Status) {
    st.conditions == []
  }

  predicate IsReadyTrue(st: Status) {
    exists i :: 0 <= i < |st.conditions| && st.conditions[i].kind == Ready && st.conditions[i].status == ConditionTrue
  }

  // ---- What every status in the system satisfies ----

  /** Phase, readiness flag and secret reference agree, and Ready=True is only claimed once completed. */
  predicate Coherent(st: Status) {
    && st.phase in {NoPhase, Preflight, Deploying, Completed}
    && (st.phase == Completed <==> st.ready)
    && (st.ready <==> st.secretRef.Some?)
    && (IsReadyTrue(st) ==> st.phase == Completed)
  }

  /** The inductive strengthening of Coherent: the only condition ever recorded is Ready, a status
      nobody touched has observed no generation, and a ready one carries a condition. */
  predicate StatusInv(st: Status) {
    && Coherent(st)
    && |st.conditions| <= 1
    && (st.conditions != [] ==> st.conditions[0].kind == Ready)
    && (st.conditions == [] ==> st.observedGeneration == 0 && !st.ready)
  }

  /** In a list with distinct condition types, the setter leaves exactly one condition of that type,
      with the new content, and no other condition changes. */
  lemma {:induction false} SetStatusConditionIsUpdate(conditions: seq<Condition>, c: Condition)
    requires forall i, j :: 0 <= i < j < |conditions| ==> conditions[i].kind != conditions[j].kind
    ensures var r := SetStatusCondition(conditions, c);
            && (forall i, j :: 0 <= i < j < |r| ==> r[i].kind != r[j].kind)
            && (forall x :: x in r <==> x == c || (x in conditions && x.kind != c.kind))
  {
    if conditions == [] {
    } else {
      var r := SetStatusCondition(conditions, c);
      if conditions[0].kind == c.kind {
        assert conditions == [conditions[0]] + conditions[1..];
        assert forall x :: x in conditions[1..] ==> x.kind != c.kind;
      } else {
        SetStatusConditionIsUpdate(conditions[1..], c);
        var rest := SetStatusCondition(conditions[1..], c);
        assert r == [conditions[0]] + rest;
        assert conditions == [conditions[0]] + conditions[1..];
        forall j | 0 < j < |r| ensures r[0].kind != r[j].kind {
          assert r[j] == rest[j - 1] && rest[j - 1] in rest;
        }
      }
    }
  }

  /** Whatever was there before, the condition is there after. */
  lemma {:induction false} SetIsPresent(conditions: seq<Condition>, c: Condition)
    ensures exists k :: 0 <= k < |SetStatusCondition(conditions, c)| && SetStatusCondition(conditions, c)[k] == c
  {
    var r := SetStatusCondition(conditions, c);
    if conditions == [] || conditions[0].kind == c.kind {
      assert r[0] == c;
    } else {
      SetIsPresent(conditions[1..], c);
      var rest := SetStatusCondition(conditions[1..], c);
      var k :| 0 <= k < |rest| && rest[k] == c;
      assert r[k + 1] == c;
    }
  }

  /** The setters keep StatusInv and change the conditions alone, to the one condition they are about; Ready
      may only be set on a completed status. A failed install mode is what one reason records, and no other. */
  lemma SettersKeepInv(st: Status, reason: Reason)
    requires StatusInv(st)
    ensures StatusInv(MarkProgressing(st)) && StatusInv(MarkNotReady(st, reason))
    ensures st.phase == Completed ==> StatusInv(MarkReady(st))
    ensures MarkProgressing(st) == st.(conditions := [Condition(Ready, ConditionUnknown, Progressing)])
    ensures MarkNotReady(st, reason) == st.(conditions := [Condition(Ready, ConditionFalse, reason)])
    ensures MarkReady(st) == st.(conditions := [Condition(Ready, ConditionTrue, ReconciliationSucceeded)])
    ensures IsInstallModeFailed(MarkNotReady(st, reason)) <==> reason == InstallModeFailed
    ensures !IsInstallModeFailed(MarkProgressing(st)) && !IsInstallModeFailed(MarkReady(st))
  {
    var p, n := MarkProgressing(st), MarkNotReady(st, reason);
    assert p.conditions == [Condition(Ready, ConditionUnknown, Progressing)];
    assert n.conditions == [Condition(Ready, ConditionFalse, reason)];
    assert n.conditions[0] == Condition(Ready, ConditionFalse, reason);
    assert MarkReady(st).conditions == [Condition(Ready, ConditionTrue, ReconciliationSucceeded)];
  }
}
