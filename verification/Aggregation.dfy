/** The summary a manager computes from its listers: folds over Go maps, whose iteration order is
    arbitrary, proved equal to order-free sums and counts. */
module Aggregation {
  import opened Api
  import opened Sums
  import Informers

  const RESOURCE_NAMES := {Cpu, Memory, Storage, EphemeralStorage, Pods}

  /** A member cluster as decoded from the lister. */
  datatype MemberCluster = MemberCluster(
    name: string,
    nodes: Option<NumStatistic>,
    resources: Option<ResourceStatistic>,
    conditions: Option<seq<ClusterCondition>>)

  /** What the listers return; None stands for a list error. `counts` gives the length of each list. */
  datatype Listing = Listing(
    counts: map<Resource, Option<nat>>,
    clusters: Option<seq<MemberCluster>>,
    deployments: Option<seq<seq<ClusterCondition>>>)

  // ---- Specification ----

  /** ResourceList.Name: a missing name counts zero, a nil list has no names. */
  function Amount(list: Option<Quantities>, name: ResourceName): int {
    if list.Some? && name in list.value then list.value[name] else 0
  }

  function Column(lists: map<string, Option<Quantities>>, name: ResourceName): map<string, int> {
    map k | k in lists :: Amount(lists[k], name)
  }

  /** The total over all clusters: nil without clusters, else exactly the given resources. */
  ghost function TotalOver(names: set<ResourceName>, lists: map<string, Option<Quantities>>): Option<Quantities> {
    if lists == map[] then None
    else Some(map name | name in names :: SumOver(Column(lists, name)))
  }

  /** One of the three resource lists of a cluster. */
  datatype Kind = Allocatable | Allocating | Allocated

  function ListOf(x: ResourceStatistic, kind: Kind): Option<Quantities> {
    match kind
    case Allocatable => x.allocatableList
    case Allocating => x.allocatingList
    case Allocated => x.allocatedList
  }

  function ListsOf(m: map<string, ResourceStatistic>, kind: Kind): map<string, Option<Quantities>> {
    map k | k in m :: ListOf(m[k], kind)
  }

  ghost function TotalsOf(names: set<ResourceName>, m: map<string, ResourceStatistic>): ResourceStatistic {
    ResourceStatistic(
      TotalOver(names, ListsOf(m, Allocatable)),
      TotalOver(names, ListsOf(m, Allocating)),
      TotalOver(names, ListsOf(m, Allocated)))
  }

  ghost function ResourceTotals(m: map<string, ResourceStatistic>): ResourceStatistic {
    TotalsOf(RESOURCE_NAMES, m)
  }

  function Totals(m: map<string, NumStatistic>): map<string, int> {
    map k | k in m :: m[k].totalNum
  }

  function Readies(m: map<string, NumStatistic>): map<string, int> {
    map k | k in m :: m[k].readyNum
  }

  ghost function NodeTotals(m: map<string, NumStatistic>): NumStatistic {
    NumStatistic(ToInt32(SumOver(Totals(m))), ToInt32(SumOver(Readies(m))))
  }

  predicate IsTrue(conditions: seq<ClusterCondition>, kind: string) {
    exists i :: 0 <= i < |conditions| && conditions[i] == ClusterCondition(kind, ConditionTrue)
  }

  ghost function ReadyClusters(m: map<string, seq<ClusterCondition>>): set<string> {
    set k | k in m && IsTrue(m[k], "Ready")
  }

  ghost function ClusterTotals(m: map<string, seq<ClusterCondition>>): NumStatistic {
    NumStatistic(ToInt32(|m|), ToInt32(|ReadyClusters(m)|))
  }

  /** Later objects of the same name replace earlier ones, field by field. */
  function NodesOf(objs: seq<MemberCluster>): map<string, NumStatistic> {
    if objs == [] then map[]
    else
      var m, o := NodesOf(objs[..|objs| - 1]), objs[|objs| - 1];
      if o.nodes.Some? then m[o.name := o.nodes.value] else m
  }

  function ResourcesOf(objs: seq<MemberCluster>): map<string, ResourceStatistic> {
    if objs == [] then map[]
    else
      var m, o := ResourcesOf(objs[..|objs| - 1]), objs[|objs| - 1];
      if o.resources.Some? then m[o.name := o.resources.value] else m
  }

  function ConditionsOf(objs: seq<MemberCluster>): map<string, seq<ClusterCondition>> {
    if objs == [] then map[]
    else
      var m, o := ConditionsOf(objs[..|objs| - 1]), objs[|objs| - 1];
      if o.conditions.Some? then m[o.name := o.conditions.value] else m
  }

  /** The positions of the available deployments in the list. */
  ghost function Available(ds: seq<seq<ClusterCondition>>): set<int> {
    set i | 0 <= i < |ds| && IsTrue(ds[i], "Available")
  }

  predicate Listed(l: Listing) {
    && (forall r :: r in Informers.CORE_RESOURCES + Informers.POLICY_RESOURCES ==> r in l.counts && l.counts[r].Some?)
    && l.clusters.Some?
    && l.deployments.Some?
  }

  function CountMap(resources: seq<Resource>, counts: map<Resource, Option<nat>>): map<Resource, int>
    requires forall r :: r in resources ==> r in counts && counts[r].Some?
  {
    map r | r in resources :: ToInt32(counts[r].value)
  }

  /** The whole summary as a function of the lister contents, None when a lister fails. */
  ghost function SummaryOf(l: Listing): Option<Summary> {
    if !Listed(l) then None
    else
      var objs, ds := l.clusters.value, l.deployments.value;
      var some := objs != [];
      Some(Summary(
        CountMap(Informers.CORE_RESOURCES, l.counts),
        CountMap(Informers.POLICY_RESOURCES, l.counts),
        if some then Some(ClusterSummary(ClusterTotals(ConditionsOf(objs)), ConditionsOf(objs))) else None,
        if some then Some(NodeSummary(NodeTotals(NodesOf(objs)), NodesOf(objs))) else None,
        if some then Some(ResourceSummary(ResourceTotals(ResourcesOf(objs)), ResourcesOf(objs))) else None,
        map[Deployments := NumStatistic(ToInt32(|ds|), ToInt32(|Available(ds)|))]))
  }

  // ---- Resource lists, as the mutable maps they are ----

  class ResourceList {
    var m: Quantities

    constructor (m: Quantities)
      ensures this.m == m
    {
      this.m := m;
    }
  }

  function Contents(list: ResourceList?): Option<Quantities>
    reads list
  {
    if list == null then None else Some(list.m)
  }

  method Name(list: ResourceList?, name: ResourceName) returns (amount: int)
    ensures amount == if list != null && name in list.m then list.m[name] else 0
  {
    amount := 0;
    if list != null && name in list.m {
      amount := list.m[name];
    }
  }

  /** The named resources added up, other names of `total` kept. */
  function AddOver(names: set<ResourceName>, total: Option<Quantities>, summand: Option<Quantities>): Quantities {
    (if total.None? then map[] else total.value)
    + map name | name in names :: Amount(total, name) + Amount(summand, name)
  }

  method AddResource(r: ResourceList, summand: ResourceList?, name: ResourceName)
    requires r != summand
    modifies r
    ensures r.m == old(r.m)[name := Amount(Some(old(r.m)), name) + Amount(Contents(summand), name)]
  {
    var quantity := Name(r, name);
    var more := Name(summand, name);
    r.m := r.m[name := quantity + more];
  }

  /** Adds `summand` to `total` in place, making the map if it is nil. */
  method CalculateResourceList(total: ResourceList?, summand: ResourceList?) returns (r: ResourceList)
    requires total != null ==> total != summand
    modifies total
    ensures if total == null then fresh(r) else r == total
    ensures r.m == old(AddOver(RESOURCE_NAMES, Contents(total), Contents(summand)))
    ensures summand != null ==> summand.m == old(if summand == null then map[] else summand.m)
  {
    if total == null {
      r := new ResourceList(map[]);
    } else {
      r := total;
    }
    ghost var m := r.m;
    ghost var x := Contents(summand);
    AddResource(r, summand, Cpu);
    AddResource(r, summand, Memory);
    AddResource(r, summand, Storage);
    AddResource(r, summand, EphemeralStorage);
    AddResource(r, summand, Pods);
    FiveUpdates(m, x, r.m);
  }

  lemma FiveUpdates(m: Quantities, x: Option<Quantities>, r: Quantities)
    requires var m1 := m[Cpu := Amount(Some(m), Cpu) + Amount(x, Cpu)];
             var m2 := m1[Memory := Amount(Some(m1), Memory) + Amount(x, Memory)];
             var m3 := m2[Storage := Amount(Some(m2), Storage) + Amount(x, Storage)];
             var m4 := m3[EphemeralStorage := Amount(Some(m3), EphemeralStorage) + Amount(x, EphemeralStorage)];
             r == m4[Pods := Amount(Some(m4), Pods) + Amount(x, Pods)]
    ensures r == AddOver(RESOURCE_NAMES, Some(m), x)
    ensures r == m + map name | name in RESOURCE_NAMES :: Amount(Some(m), name) + Amount(x, name)
  {
    forall k | k in r || k in AddOver(RESOURCE_NAMES, Some(m), x)
      ensures k in r && k in AddOver(RESOURCE_NAMES, Some(m), x) && r[k] == AddOver(RESOURCE_NAMES, Some(m), x)[k]
    {
    }
  }

  // ---- Aggregation loops ----

  /** aggregateNodeSummary. */
  method AggregateNodeSummary(clusters: map<string, NumStatistic>) returns (r: NumStatistic)
    ensures r == NodeTotals(clusters)
  {
    var ready, total := 0, 0;
    var rest := clusters.Keys;
    RestrictAll(Readies(clusters));
    RestrictAll(Totals(clusters));
    while rest != {}
      invariant rest <= clusters.Keys
      invariant ready == ToInt32(SumOver(Restrict(Readies(clusters), clusters.Keys - rest)))
      invariant total == ToInt32(SumOver(Restrict(Totals(clusters), clusters.Keys - rest)))
    {
      var k :| k in rest;
      ghost var done := clusters.Keys - rest;
      SumRestrict(Readies(clusters), done, k);
      SumRestrict(Totals(clusters), done, k);
      ToInt32Add(SumOver(Restrict(Readies(clusters), done)), clusters[k].readyNum);
      ToInt32Add(SumOver(Restrict(Totals(clusters), done)), clusters[k].totalNum);
      ready := ToInt32(ready + clusters[k].readyNum);
      total := ToInt32(total + clusters[k].totalNum);
      rest := rest - {k};
      assert clusters.Keys - rest == done + {k};
    }
    assert clusters.Keys - rest == Readies(clusters).Keys == Totals(clusters).Keys;
    r := NumStatistic(total, ready);
  }

  /** checkClusterReady and checkDeploymentReady. */
  method CheckReady(conditions: seq<ClusterCondition>, kind: string) returns (ready: bool)
    ensures ready <==>
              exists i :: 0 <= i < |conditions| && conditions[i].kind == kind && conditions[i].status == ConditionTrue
  {
    for i := 0 to |conditions|
      invariant forall j :: 0 <= j < i ==> conditions[j] != ClusterCondition(kind, ConditionTrue)
    {
      if conditions[i].kind == kind && conditions[i].status == ConditionTrue {
        return true;
      }
    }
    return false;
  }

  function Flags(m: map<string, seq<ClusterCondition>>): map<string, int> {
    map k | k in m :: if IsTrue(m[k], "Ready") then 1 else 0
  }

  ghost function Ones(m: map<string, int>): set<string> {
    set k | k in m && m[k] == 1
  }

  lemma OnesWithout(m: map<string, int>, k: string)
    requires k in m
    ensures |Ones(m)| == |Ones(m - {k})| + if m[k] == 1 then 1 else 0
  {
    var ones, fewer := Ones(m), Ones(m - {k});
    if m[k] == 1 {
      assert ones == fewer + {k};
    } else {
      assert ones == fewer;
    }
  }

  /** Summing zeros and ones counts the ones. */
  lemma {:induction false} SumOfFlags(m: map<string, int>)
    requires forall k :: k in m ==> m[k] == 0 || m[k] == 1
    ensures SumOver(m) == |Ones(m)|
    decreases |m|
  {
    if m == map[] {
      assert Ones(m) == {};
    } else {
      var k :| k in m;
      SumWithout(m, k);
      SumOfFlags(m - {k});
      OnesWithout(m, k);
    }
  }

  lemma FlagsCount(m: map<string, seq<ClusterCondition>>)
    ensures SumOver(Flags(m)) == |ReadyClusters(m)|
  {
    SumOfFlags(Flags(m));
    assert ReadyClusters(m) == Ones(Flags(m));
  }

  /** aggregateClusterSummary. */
  method AggregateClusterSummary(clusters: map<string, seq<ClusterCondition>>) returns (r: NumStatistic)
    ensures r == ClusterTotals(clusters)
  {
    var ready := 0;
    var rest := clusters.Keys;
    ghost var flags := Flags(clusters);
    RestrictAll(flags);
    while rest != {}
      invariant rest <= clusters.Keys
      invariant ready == ToInt32(SumOver(Restrict(flags, clusters.Keys - rest)))
    {
      var k :| k in rest;
      ghost var done := clusters.Keys - rest;
      SumRestrict(flags, done, k);
      ToInt32Add(SumOver(Restrict(flags, done)), flags[k]);
      var isReady := CheckReady(clusters[k], "Ready");
      if isReady {
        ready := ToInt32(ready + 1);
      }
      rest := rest - {k};
      assert clusters.Keys - rest == done + {k};
    }
    assert clusters.Keys - rest == flags.Keys;
    FlagsCount(clusters);
    r := NumStatistic(ToInt32(|clusters|), ready);
  }

  /** The three lists of one cluster, each a map of its own or nil. */
  datatype ResourceRefs = ResourceRefs(
    allocatableRef: ResourceList?, allocatingRef: ResourceList?, allocatedRef: ResourceList?)

  function Values(r: ResourceRefs): ResourceStatistic
    reads r.allocatableRef, r.allocatingRef, r.allocatedRef
  {
    ResourceStatistic(Contents(r.allocatableRef), Contents(r.allocatingRef), Contents(r.allocatedRef))
  }

  lemma ColumnStep(lists: map<string, Option<Quantities>>, done: set<string>, k: string, name: ResourceName)
    requires k in lists && k !in done
    ensures SumOver(Column(Restrict(lists, done + {k}), name)) ==
            SumOver(Column(Restrict(lists, done), name)) + Amount(lists[k], name)
  {
    var column := Column(lists, name);
    assert Column(Restrict(lists, done + {k}), name) == Restrict(column, done + {k});
    assert Column(Restrict(lists, done), name) == Restrict(column, done);
    SumRestrict(column, done, k);
  }

  lemma AddOverIs(names: set<ResourceName>, t: Option<Quantities>, x: Option<Quantities>, r: Quantities)
    requires r.Keys == names && (t.Some? ==> t.value.Keys == names)
    requires forall name :: name in names ==> r[name] == Amount(t, name) + Amount(x, name)
    ensures AddOver(names, t, x) == r
  {
    assert AddOver(names, t, x).Keys == r.Keys;
  }

  lemma TotalAdds(names: set<ResourceName>, before: map<string, Option<Quantities>>,
                  after: map<string, Option<Quantities>>, x: Option<Quantities>)
    requires after != map[]
    requires forall name :: name in names ==>
               SumOver(Column(after, name)) == SumOver(Column(before, name)) + Amount(x, name)
    ensures TotalOver(names, after) == Some(AddOver(names, TotalOver(names, before), x))
  {
    var b, r := TotalOver(names, before), TotalOver(names, after).value;
    forall name | name in names ensures r[name] == Amount(b, name) + Amount(x, name) {
      TotalAmount(names, before, name);
      TotalAmount(names, after, name);
    }
    assert r.Keys == names;
    AddOverIs(names, b, x, r);
  }

  lemma TotalAmount(names: set<ResourceName>, lists: map<string, Option<Quantities>>, name: ResourceName)
    ensures Amount(TotalOver(names, lists), name) == if name in names then SumOver(Column(lists, name)) else 0
  {
    if lists == map[] {
      assert Column(lists, name) == map[];
    }
  }

  /** Adding one more cluster's list to the running total. */
  lemma TotalStep(names: set<ResourceName>, lists: map<string, Option<Quantities>>, done: set<string>, k: string)
    requires k in lists && k !in done
    ensures TotalOver(names, Restrict(lists, done + {k})) ==
            Some(AddOver(names, TotalOver(names, Restrict(lists, done)), lists[k]))
  {
    forall name | name in names {
      ColumnStep(lists, done, k, name);
    }
    assert k in Restrict(lists, done + {k});
    TotalAdds(names, Restrict(lists, done), Restrict(lists, done + {k}), lists[k]);
  }

  /** The totals built so far belong to this aggregation and are separate maps. */
  ghost predicate Separate(t: ResourceRefs) {
    var x, y, z := t.allocatableRef, t.allocatingRef, t.allocatedRef;
    (x != null ==> x != y && x != z) && (y != null ==> y != z)
  }

  ghost predicate Apart(t: ResourceList?, x: ResourceRefs) {
    t != null ==> t != x.allocatableRef && t != x.allocatingRef && t != x.allocatedRef
  }

  ghost function TotalsUpTo(names: set<ResourceName>, m: map<string, ResourceStatistic>, done: set<string>)
    : ResourceStatistic
  {
    ResourceStatistic(TotalOver(names, Restrict(ListsOf(m, Allocatable), done)),
                      TotalOver(names, Restrict(ListsOf(m, Allocating), done)),
                      TotalOver(names, Restrict(ListsOf(m, Allocated), done)))
  }

  function AddStatistics(names: set<ResourceName>, t: ResourceStatistic, x: ResourceStatistic): ResourceStatistic {
    ResourceStatistic(Some(AddOver(names, t.allocatableList, x.allocatableList)),
                      Some(AddOver(names, t.allocatingList, x.allocatingList)),
                      Some(AddOver(names, t.allocatedList, x.allocatedList)))
  }

  lemma TotalsBounds(names: set<ResourceName>, m: map<string, ResourceStatistic>)
    ensures TotalsUpTo(names, m, {}) == ResourceStatistic(None, None, None)
    ensures TotalsUpTo(names, m, m.Keys) == TotalsOf(names, m)
  {
    assert Restrict(ListsOf(m, Allocatable), {}) == map[];
    assert Restrict(ListsOf(m, Allocating), {}) == map[];
    assert Restrict(ListsOf(m, Allocated), {}) == map[];
    assert Restrict(ListsOf(m, Allocatable), m.Keys) == ListsOf(m, Allocatable);
    assert Restrict(ListsOf(m, Allocating), m.Keys) == ListsOf(m, Allocating);
    assert Restrict(ListsOf(m, Allocated), m.Keys) == ListsOf(m, Allocated);
  }

  lemma TotalsStep(names: set<ResourceName>, m: map<string, ResourceStatistic>, done: set<string>, k: string)
    requires k in m && k !in done
    ensures TotalsUpTo(names, m, done + {k}) == AddStatistics(names, TotalsUpTo(names, m, done), m[k])
  {
    TotalStep(names, ListsOf(m, Allocatable), done, k);
    TotalStep(names, ListsOf(m, Allocating), done, k);
    TotalStep(names, ListsOf(m, Allocated), done, k);
  }

  ghost predicate Distinct(order: seq<string>) {
    forall i, j :: 0 <= i < j < |order| ==> order[i] != order[j]
  }

  /** The totals after visiting the clusters in one particular order. */
  function Visit(names: set<ResourceName>, m: map<string, ResourceStatistic>, order: seq<string>): ResourceStatistic
    requires forall k :: k in order ==> k in m
  {
    if order == [] then ResourceStatistic(None, None, None)
    else AddStatistics(names, Visit(names, m, order[..|order| - 1]), m[order[|order| - 1]])
  }

  lemma VisitOne(names: set<ResourceName>, m: map<string, ResourceStatistic>, order: seq<string>, k: string)
    requires Distinct(order) && k !in order && k in m && forall j :: j in order ==> j in m
    ensures Distinct(order + [k])
    ensures Visit(names, m, order + [k]) == AddStatistics(names, Visit(names, m, order), m[k])
  {
    assert (order + [k])[..|order|] == order;
    assert forall i :: 0 <= i < |order| ==> order[i] in order;
  }

  lemma {:induction false} VisitIsTotal(names: set<ResourceName>, m: map<string, ResourceStatistic>, order: seq<string>,
                                        done: set<string>)
    requires Distinct(order) && (forall k :: k in order ==> k in m) && forall k :: k in order <==> k in done
    ensures Visit(names, m, order) == TotalsUpTo(names, m, done)
  {
    if order == [] {
      TotalsBounds(names, m);
      assert done == {};
    } else {
      var before, k := order[..|order| - 1], order[|order| - 1];
      assert order == before + [k];
      VisitIsTotal(names, m, before, done - {k});
      TotalsStep(names, m, done - {k}, k);
      assert done == done - {k} + {k};
    }
  }

  /** Every order that visits each cluster once gives the same, exact totals. */
  lemma AnyOrder(m: map<string, ResourceStatistic>, order: seq<string>)
    requires Distinct(order) && forall k :: k in order <==> k in m
    ensures Visit(RESOURCE_NAMES, m, order) == ResourceTotals(m)
  {
    VisitIsTotal(RESOURCE_NAMES, m, order, m.Keys);
    TotalsBounds(RESOURCE_NAMES, m);
  }

  /** The body of the aggregation loop. */
  method AddCluster(t: ResourceRefs, x: ResourceRefs) returns (r: ResourceRefs)
    requires Separate(t) && Apart(t.allocatableRef, x) && Apart(t.allocatingRef, x) && Apart(t.allocatedRef, x)
    modifies t.allocatableRef, t.allocatingRef, t.allocatedRef
    ensures Separate(r)
    ensures if t.allocatableRef == null then fresh(r.allocatableRef) else r.allocatableRef == t.allocatableRef
    ensures if t.allocatingRef == null then fresh(r.allocatingRef) else r.allocatingRef == t.allocatingRef
    ensures if t.allocatedRef == null then fresh(r.allocatedRef) else r.allocatedRef == t.allocatedRef
    ensures Values(r) == AddStatistics(RESOURCE_NAMES, old(Values(t)), old(Values(x)))
  {
    var p := CalculateResourceList(t.allocatableRef, x.allocatableRef);
    var q := CalculateResourceList(t.allocatedRef, x.allocatedRef);
    var s := CalculateResourceList(t.allocatingRef, x.allocatingRef);
    r := ResourceRefs(p, s, q);
  }

  /** aggregateResourceSummary: it modifies no existing map, so the lists of the clusters, which may be
      shared between clusters, stay as they are. */
  method AggregateResourceSummary(clusters: map<string, ResourceRefs>, ghost vals: map<string, ResourceStatistic>)
    returns (t: ResourceRefs)
    requires clusters.Keys == vals.Keys && forall k :: k in clusters ==> Values(clusters[k]) == vals[k]
    ensures Values(t) == ResourceTotals(vals)
  {
    t := ResourceRefs(null, null, null);
    var rest := clusters.Keys;
    ghost var order: seq<string> := [];
    while rest != {}
      invariant rest <= clusters.Keys && Distinct(order)
      invariant forall k :: k in order <==> k in clusters.Keys - rest
      invariant Separate(t)
      invariant t.allocatableRef != null ==> fresh(t.allocatableRef)
      invariant t.allocatingRef != null ==> fresh(t.allocatingRef)
      invariant t.allocatedRef != null ==> fresh(t.allocatedRef)
      invariant Values(t) == Visit(RESOURCE_NAMES, vals, order)
    {
      var k :| k in rest;
      t := AddCluster(t, clusters[k]);
      rest := rest - {k};
      VisitOne(RESOURCE_NAMES, vals, order, k);
      order := order + [k];
    }
    AnyOrder(vals, order);
  }

  // ---- Sync handlers ----

  method Decode(list: Option<Quantities>) returns (r: ResourceList?)
    ensures r != null ==> fresh(r)
    ensures Contents(r) == list
  {
    if list.None? {
      r := null;
    } else {
      r := new ResourceList(list.value);
    }
  }

  method DecodeAll(v: ResourceStatistic) returns (r: ResourceRefs)
    ensures Values(r) == v
  {
    var x := Decode(v.allocatableList);
    var y := Decode(v.allocatingList);
    var z := Decode(v.allocatedList);
    r := ResourceRefs(x, y, z);
  }

  /** The collecting loop of clusterSyncHandler. */
  method Collect(objs: seq<MemberCluster>)
    returns (nodes: map<string, NumStatistic>, refs: map<string, ResourceRefs>,
             conditions: map<string, seq<ClusterCondition>>)
    ensures nodes == NodesOf(objs) && conditions == ConditionsOf(objs)
    ensures refs.Keys == ResourcesOf(objs).Keys && forall k :: k in refs ==> Values(refs[k]) == ResourcesOf(objs)[k]
  {
    nodes, refs, conditions := map[], map[], map[];
    for i := 0 to |objs|
      invariant nodes == NodesOf(objs[..i]) && conditions == ConditionsOf(objs[..i])
      invariant refs.Keys == ResourcesOf(objs[..i]).Keys
      invariant forall k :: k in refs ==> Values(refs[k]) == ResourcesOf(objs[..i])[k]
    {
      assert objs[..i + 1][..i] == objs[..i];
      if objs[i].nodes.Some? {
        nodes := nodes[objs[i].name := objs[i].nodes.value];
      }
      if objs[i].resources.Some? {
        var r := DecodeAll(objs[i].resources.value);
        refs := refs[objs[i].name := r];
      }
      if objs[i].conditions.Some? {
        conditions := conditions[objs[i].name := objs[i].conditions.value];
      }
    }
    assert objs[..|objs|] == objs;
  }

  /** The per-cluster lists of the summary, which the aggregation above left alone. */
  method PerCluster(refs: map<string, ResourceRefs>, ghost vals: map<string, ResourceStatistic>)
    returns (m: map<string, ResourceStatistic>)
    requires refs.Keys == vals.Keys && forall k :: k in refs ==> Values(refs[k]) == vals[k]
    ensures m == vals
  {
    m := map k | k in refs :: Values(refs[k]);
  }

  method ClusterSyncHandler(objs: seq<MemberCluster>)
    returns (c: Option<ClusterSummary>, n: Option<NodeSummary>, r: Option<ResourceSummary>)
    ensures c == if objs == [] then None
                 else Some(ClusterSummary(ClusterTotals(ConditionsOf(objs)), ConditionsOf(objs)))
    ensures n == if objs == [] then None else Some(NodeSummary(NodeTotals(NodesOf(objs)), NodesOf(objs)))
    ensures r == if objs == [] then None
                 else Some(ResourceSummary(ResourceTotals(ResourcesOf(objs)), ResourcesOf(objs)))
  {
    if |objs| == 0 {
      return None, None, None;
    }
    var nodes, refs, conditions := Collect(objs);
    var nodeTotal := AggregateNodeSummary(nodes);
    ghost var vals := ResourcesOf(objs);
    var resourceTotal := AggregateResourceSummary(refs, vals);
    var clusterTotal := AggregateClusterSummary(conditions);
    n := Some(NodeSummary(nodeTotal, nodes));
    var perCluster := PerCluster(refs, vals);
    r := Some(ResourceSummary(Values(resourceTotal), perCluster));
    c := Some(ClusterSummary(clusterTotal, conditions));
  }

  lemma AvailableOne(ds: seq<seq<ClusterCondition>>, i: nat)
    requires i < |ds|
    ensures |Available(ds[..i + 1])| == |Available(ds[..i])| + if IsTrue(ds[i], "Available") then 1 else 0
  {
    var before, after := Available(ds[..i]), Available(ds[..i + 1]);
    if IsTrue(ds[i], "Available") {
      assert after == before + {i as int};
    } else {
      assert after == before;
    }
  }

  method WorkLoadsSyncHandler(ds: seq<seq<ClusterCondition>>) returns (r: map<Resource, NumStatistic>)
    ensures r == map[Deployments := NumStatistic(ToInt32(|ds|), ToInt32(|Available(ds)|))]
  {
    var ready := 0;
    assert Available(ds[..0]) == {};
    for i := 0 to |ds|
      invariant ready == ToInt32(|Available(ds[..i])|)
    {
      AvailableOne(ds, i);
      ToInt32Add(|Available(ds[..i])|, 1);
      var isReady := CheckReady(ds[i], "Available");
      if isReady {
        ready := ToInt32(ready + 1);
      }
    }
    assert ds[..|ds|] == ds;
    r := map[Deployments := NumStatistic(ToInt32(|ds|), ready)];
  }

  /** One of the two loops of sumSyncHandler; None on the first list error. */
  method CountLists(resources: seq<Resource>, counts: map<Resource, Option<nat>>)
    returns (r: Option<map<Resource, int>>)
    ensures if forall x :: x in resources ==> x in counts && counts[x].Some?
            then r == Some(CountMap(resources, counts)) else r == None
  {
    var m: map<Resource, int> := map[];
    for i := 0 to |resources|
      invariant forall x :: x in resources[..i] ==> x in counts && counts[x].Some?
      invariant m == CountMap(resources[..i], counts)
    {
      if resources[i] !in counts || counts[resources[i]].None? {
        assert resources[i] in resources;
        return None;
      }
      m := m[resources[i] := ToInt32(counts[resources[i]].value)];
      assert resources[..i + 1] == resources[..i] + [resources[i]];
    }
    assert resources[..|resources|] == resources;
    r := Some(m);
  }

  /** SummaryManager.syncHandler: whatever the map order, the summary is the same function of the lists. */
  method SyncHandler(l: Listing) returns (r: Option<Summary>)
    ensures r == SummaryOf(l)
  {
    var core := CountLists(Informers.CORE_RESOURCES, l.counts);
    if core.None? {
      return None;
    }
    var policy := CountLists(Informers.POLICY_RESOURCES, l.counts);
    if policy.None? || l.clusters.None? {
      return None;
    }
    var c, n, rs := ClusterSyncHandler(l.clusters.value);
    if l.deployments.None? {
      return None;
    }
    var w := WorkLoadsSyncHandler(l.deployments.value);
    r := Some(Summary(core.value, policy.value, c, n, rs, w));
  }

  // ---- What the numbers mean ----

  ghost predicate DistinctNames(objs: seq<MemberCluster>) {
    forall i, j :: 0 <= i < j < |objs| ==> objs[i].name != objs[j].name
  }

  /** A number read off a listed cluster; zero where it reports none. */
  datatype Figure = TotalNodes | ReadyNodes | AmountOf(kind: Kind, name: ResourceName)

  function Reported(o: MemberCluster, what: Figure): int {
    match what
    case TotalNodes => if o.nodes.Some? then o.nodes.value.totalNum else 0
    case ReadyNodes => if o.nodes.Some? then o.nodes.value.readyNum else 0
    case AmountOf(kind, name) => if o.resources.Some? then Amount(ListOf(o.resources.value, kind), name) else 0
  }

  /** The sum of a figure over the listed clusters. */
  function ListSum(objs: seq<MemberCluster>, what: Figure): int {
    if objs == [] then 0 else ListSum(objs[..|objs| - 1], what) + Reported(objs[|objs| - 1], what)
  }

  lemma {:induction false} NoSuchName(objs: seq<MemberCluster>, k: string)
    requires forall i :: 0 <= i < |objs| ==> objs[i].name != k
    ensures k !in NodesOf(objs) && k !in ResourcesOf(objs) && k !in ConditionsOf(objs)
  {
    if objs == [] {
    } else {
      NoSuchName(objs[..|objs| - 1], k);
    }
  }

  /** The last of distinctly named clusters has no entry yet. */
  lemma LastIsNew(objs: seq<MemberCluster>)
    requires objs != [] && DistinctNames(objs)
    ensures var before, k := objs[..|objs| - 1], objs[|objs| - 1].name;
            DistinctNames(before) && k !in NodesOf(before) && k !in ResourcesOf(before) && k !in ConditionsOf(before)
  {
    NoSuchName(objs[..|objs| - 1], objs[|objs| - 1].name);
  }

  /** With distinct names the map sums are the sums over the listed clusters. */
  lemma {:induction false} NodeSumsAreListSums(objs: seq<MemberCluster>)
    requires DistinctNames(objs)
    ensures SumOver(Totals(NodesOf(objs))) == ListSum(objs, TotalNodes)
    ensures SumOver(Readies(NodesOf(objs))) == ListSum(objs, ReadyNodes)
  {
    if objs == [] {
      assert Totals(NodesOf(objs)) == map[] && Readies(NodesOf(objs)) == map[];
    } else {
      var before, o := objs[..|objs| - 1], objs[|objs| - 1];
      LastIsNew(objs);
      NodeSumsAreListSums(before);
      var m := NodesOf(before);
      if o.nodes.Some? {
        assert Totals(m[o.name := o.nodes.value]) == Totals(m)[o.name := o.nodes.value.totalNum];
        assert Readies(m[o.name := o.nodes.value]) == Readies(m)[o.name := o.nodes.value.readyNum];
        SumAdd(Totals(m), o.name, o.nodes.value.totalNum);
        SumAdd(Readies(m), o.name, o.nodes.value.readyNum);
      }
    }
  }

  lemma ColumnOfNew(m: map<string, ResourceStatistic>, k: string, x: ResourceStatistic, kind: Kind, name: ResourceName)
    requires k !in m
    ensures Column(ListsOf(m[k := x], kind), name) == Column(ListsOf(m, kind), name)[k := Amount(ListOf(x, kind), name)]
    ensures k !in Column(ListsOf(m, kind), name)
  {
  }

  lemma {:induction false} ResourceSumsAreListSums(objs: seq<MemberCluster>, kind: Kind, name: ResourceName)
    requires DistinctNames(objs)
    ensures SumOver(Column(ListsOf(ResourcesOf(objs), kind), name)) == ListSum(objs, AmountOf(kind, name))
  {
    if objs == [] {
      assert Column(ListsOf(ResourcesOf(objs), kind), name) == map[];
    } else {
      var before, o := objs[..|objs| - 1], objs[|objs| - 1];
      LastIsNew(objs);
      ResourceSumsAreListSums(before, kind, name);
      if o.resources.Some? {
        var m := ResourcesOf(before);
        ColumnOfNew(m, o.name, o.resources.value, kind, name);
        SumAdd(Column(ListsOf(m, kind), name), o.name, Reported(o, AmountOf(kind, name)));
      }
    }
  }

  lemma TotalsAreListSums(names: set<ResourceName>, objs: seq<MemberCluster>, kind: Kind)
    requires DistinctNames(objs)
    ensures var total := TotalOver(names, ListsOf(ResourcesOf(objs), kind));
            && (total.None? <==> ResourcesOf(objs) == map[])
            && (total.Some? ==>
                  && total.value.Keys == names
                  && forall name :: name in names ==> total.value[name] == ListSum(objs, AmountOf(kind, name)))
  {
    var lists := ListsOf(ResourcesOf(objs), kind);
    assert lists.Keys == ResourcesOf(objs).Keys;
    forall name | name in names ensures SumOver(Column(lists, name)) == ListSum(objs, AmountOf(kind, name)) {
      ResourceSumsAreListSums(objs, kind, name);
    }
  }

  /** With distinct names, the total of each of the five resources, in each of the three lists, is the sum
      over the listed clusters; there are no other names, and no totals without a reporting cluster. */
  lemma ResourceTotalsAreListSums(objs: seq<MemberCluster>, kind: Kind)
    requires DistinctNames(objs)
    ensures var total := ListOf(ResourceTotals(ResourcesOf(objs)), kind);
            && (total.None? <==> forall i :: 0 <= i < |objs| ==> objs[i].resources.None?)
            && (total.Some? ==>
                  && total.value.Keys == RESOURCE_NAMES
                  && forall name :: name in RESOURCE_NAMES ==>
                       total.value[name] == ListSum(objs, AmountOf(kind, name)))
  {
    TotalsAreListSums(RESOURCE_NAMES, objs, kind);
    NobodyReports(objs);
  }

  lemma {:induction false} NobodyReports(objs: seq<MemberCluster>)
    ensures ResourcesOf(objs) == map[] <==> forall i :: 0 <= i < |objs| ==> objs[i].resources.None?
  {
    if objs == [] {
    } else {
      var before, o := objs[..|objs| - 1], objs[|objs| - 1];
      NobodyReports(before);
      assert forall i :: 0 <= i < |before| ==> before[i] == objs[i];
      assert o.resources.Some? ==> o.name in ResourcesOf(objs);
    }
  }

  /** The positions of the listed clusters that have conditions, and of the ready ones. */
  ghost function Conditioned(objs: seq<MemberCluster>): set<int> {
    set i | 0 <= i < |objs| && objs[i].conditions.Some?
  }

  ghost function ReadyOnes(objs: seq<MemberCluster>): set<int> {
    set i | 0 <= i < |objs| && objs[i].conditions.Some? && IsTrue(objs[i].conditions.value, "Ready")
  }

  lemma LastCounts(objs: seq<MemberCluster>)
    requires objs != []
    ensures var before, o := objs[..|objs| - 1], objs[|objs| - 1];
            && |Conditioned(objs)| == |Conditioned(before)| + (if o.conditions.Some? then 1 else 0)
            && |ReadyOnes(objs)| ==
               |ReadyOnes(before)| + (if o.conditions.Some? && IsTrue(o.conditions.value, "Ready") then 1 else 0)
  {
    var before, last := objs[..|objs| - 1], |objs| - 1;
    assert Conditioned(objs) == Conditioned(before) + if objs[last].conditions.Some? then {last} else {};
    assert ReadyOnes(objs) == ReadyOnes(before)
      + if objs[last].conditions.Some? && IsTrue(objs[last].conditions.value, "Ready") then {last} else {};
  }

  /** With distinct names the map of conditions counts the listed clusters. */
  lemma {:induction false} ClusterCountsAreListCounts(objs: seq<MemberCluster>)
    requires DistinctNames(objs)
    ensures |ConditionsOf(objs)| == |Conditioned(objs)|
    ensures |ReadyClusters(ConditionsOf(objs))| == |ReadyOnes(objs)|
  {
    if objs == [] {
      assert Conditioned(objs) == {} && ReadyOnes(objs) == {} && ReadyClusters(ConditionsOf(objs)) == {};
    } else {
      var before, o := objs[..|objs| - 1], objs[|objs| - 1];
      LastIsNew(objs);
      LastCounts(objs);
      ClusterCountsAreListCounts(before);
      if o.conditions.Some? {
        var m, now := ConditionsOf(before), ConditionsOf(objs);
        assert now.Keys == m.Keys + {o.name};
        assert ReadyClusters(now) == ReadyClusters(m) + if IsTrue(o.conditions.value, "Ready") then {o.name} else {};
      }
    }
  }

  /** Sound per-cluster counts whose total fits give exact node totals, with no overflow on the way in
      any order, and no more ready nodes than nodes. */
  lemma NodeTotalsAreExact(m: map<string, NumStatistic>, done: set<string>)
    requires forall k :: k in m ==> Sound(m[k])
    requires SumOver(Totals(m)) < TWO_TO_31
    ensures NodeTotals(m) == NumStatistic(SumOver(Totals(m)), SumOver(Readies(m)))
    ensures Sound(NodeTotals(m))
    ensures 0 <= SumOver(Restrict(Totals(m), done)) < TWO_TO_31 && 0 <= SumOver(Restrict(Readies(m), done)) < TWO_TO_31
  {
    SumMonotone(Readies(m), Totals(m));
    PartialSumsFit(Totals(m), done);
    PartialSumsFit(Readies(m), done);
  }

  predicate Sound(n: NumStatistic) {
    0 <= n.readyNum <= n.totalNum
  }

  lemma {:induction false} NodesAreSound(objs: seq<MemberCluster>)
    requires forall i :: 0 <= i < |objs| && objs[i].nodes.Some? ==> Sound(objs[i].nodes.value)
    ensures forall k :: k in NodesOf(objs) ==> Sound(NodesOf(objs)[k])
  {
    if objs == [] {
    } else {
      NodesAreSound(objs[..|objs| - 1]);
    }
  }

  /** For distinctly named clusters with sound counts whose sum is below 2^31, the node totals are the sums
      over the list, exactly, and no more nodes are ready than there are. */
  lemma NodeTotalsAreListSums(objs: seq<MemberCluster>)
    requires DistinctNames(objs) && ListSum(objs, TotalNodes) < TWO_TO_31
    requires forall i :: 0 <= i < |objs| && objs[i].nodes.Some? ==> Sound(objs[i].nodes.value)
    ensures NodeTotals(NodesOf(objs)) == NumStatistic(ListSum(objs, TotalNodes), ListSum(objs, ReadyNodes))
    ensures Sound(NodeTotals(NodesOf(objs)))
  {
    NodesAreSound(objs);
    NodeSumsAreListSums(objs);
    NodeTotalsAreExact(NodesOf(objs), {});
  }

  /** The cluster totals are the number of listed clusters with conditions and of the ready ones among them,
      exactly, for fewer than 2^31 distinctly named clusters. */
  lemma ClusterTotalsAreExact(objs: seq<MemberCluster>)
    requires DistinctNames(objs) && |objs| < TWO_TO_31
    ensures ClusterTotals(ConditionsOf(objs)) == NumStatistic(|Conditioned(objs)|, |ReadyOnes(objs)|)
    ensures |ReadyOnes(objs)| <= |Conditioned(objs)| <= |objs|
  {
    ClusterCountsAreListCounts(objs);
    Subset(ReadyOnes(objs), Conditioned(objs));
    ConditionedAreListed(objs);
  }

  /** The workload totals are the length of the list and the number of available deployments in it. */
  lemma WorkLoadTotalsAreExact(ds: seq<seq<ClusterCondition>>)
    requires |ds| < TWO_TO_31
    ensures ToInt32(|ds|) == |ds|
    ensures ToInt32(|Available(ds)|) == |Available(ds)| <= |ds|
  {
    AvailableAreListed(ds);
  }

  lemma {:induction false} AvailableAreListed(ds: seq<seq<ClusterCondition>>)
    ensures |Available(ds)| <= |ds|
  {
    if ds == [] {
      assert Available(ds) == {};
    } else {
      AvailableAreListed(ds[..|ds| - 1]);
      AvailableOne(ds, |ds| - 1);
      assert ds[..|ds|] == ds;
    }
  }

  lemma {:induction false} ConditionedAreListed(objs: seq<MemberCluster>)
    ensures |Conditioned(objs)| <= |objs|
  {
    if objs == [] {
      assert Conditioned(objs) == {};
    } else {
      ConditionedAreListed(objs[..|objs| - 1]);
      LastCounts(objs);
    }
  }

  lemma {:induction false} Subset<T>(x: set<T>, y: set<T>)
    requires x <= y
    ensures |x| <= |y|
  {
    if x == {} {
    } else {
      var k :| k in x;
      Subset(x - {k}, y - {k});
    }
  }

  // ---- The whole summary ----

  /** The figures of a summary that count lists: which list goes into which field, exactly for fewer than 2^31
      entries; and no summary exactly if one of the eight lists cannot be read. */
  lemma SummaryCountsLists(l: Listing)
    ensures SummaryOf(l).None? <==>
              || l.clusters.None? || l.deployments.None?
              || exists r :: r in {Services, Secrets, ConfigMaps, PersistentVolumeClaims, OverridePolicies,
                                   PropagationPolicies} && (r !in l.counts || l.counts[r].None?)
    ensures SummaryOf(l).Some? ==>
              var s, ds := SummaryOf(l).value, l.deployments.value;
              && s.resourceTotalNum.Keys == {Services, Secrets, ConfigMaps, PersistentVolumeClaims}
              && s.policyTotalNum.Keys == {OverridePolicies, PropagationPolicies}
              && (forall r :: r in s.resourceTotalNum && l.counts[r].value < TWO_TO_31 ==>
                     s.resourceTotalNum[r] == l.counts[r].value)
              && (forall r :: r in s.policyTotalNum && l.counts[r].value < TWO_TO_31 ==>
                     s.policyTotalNum[r] == l.counts[r].value)
              && s.workLoadSummary.Keys == {Deployments}
              && (|ds| < TWO_TO_31 ==>
                    s.workLoadSummary[Deployments] ==
                    NumStatistic(|ds|, |set i | 0 <= i < |ds| && IsTrue(ds[i], "Available")|))
  {
    if SummaryOf(l).Some? && |l.deployments.value| < TWO_TO_31 {
      WorkLoadTotalsAreExact(l.deployments.value);
      assert Available(l.deployments.value) ==
             set i | 0 <= i < |l.deployments.value| && IsTrue(l.deployments.value[i], "Available");
    }
  }

  /** With distinct names each map of a summary has exactly the reporting clusters, each with what it reports. */
  lemma {:induction false} EntriesAreListed(objs: seq<MemberCluster>, i: nat)
    requires DistinctNames(objs) && i < |objs|
    ensures var o := objs[i];
            && Entry(NodesOf(objs), o.name) == o.nodes
            && Entry(ResourcesOf(objs), o.name) == o.resources
            && Entry(ConditionsOf(objs), o.name) == o.conditions
  {
    LastIsNew(objs);
    if i < |objs| - 1 {
      EntriesAreListed(objs[..|objs| - 1], i);
    }
  }

  /** Of several objects with one name the last that reports something decides it, field by field. */
  lemma {:induction false} LastEntryWins(objs: seq<MemberCluster>, i: nat)
    requires i < |objs|
    ensures var o := objs[i];
            && (o.nodes.Some? && (forall j :: i < j < |objs| && objs[j].name == o.name ==> objs[j].nodes.None?) ==>
                  Entry(NodesOf(objs), o.name) == o.nodes)
            && (o.resources.Some?
                && (forall j :: i < j < |objs| && objs[j].name == o.name ==> objs[j].resources.None?) ==>
                  Entry(ResourcesOf(objs), o.name) == o.resources)
            && (o.conditions.Some?
                && (forall j :: i < j < |objs| && objs[j].name == o.name ==> objs[j].conditions.None?) ==>
                  Entry(ConditionsOf(objs), o.name) == o.conditions)
  {
    if i == |objs| - 1 {
    } else {
      LastEntryWins(objs[..|objs| - 1], i);
    }
  }

  function Entry<V>(m: map<string, V>, k: string): Option<V> {
    if k in m then Some(m[k]) else None
  }

  /** Clusters the summary can be exact for. */
  ghost predicate SoundClusters(objs: seq<MemberCluster>) {
    && DistinctNames(objs) && |objs| < TWO_TO_31 && ListSum(objs, TotalNodes) < TWO_TO_31
    && forall i :: 0 <= i < |objs| && objs[i].nodes.Some? ==> Sound(objs[i].nodes.value)
  }

  /** The figures of a summary about the member clusters: none without clusters; else nodes, conditions and
      resources each in their own field, per cluster as listed and in total as summed or counted over the list. */
  lemma SummaryShowsClusters(l: Listing)
    requires SummaryOf(l).Some? && SoundClusters(l.clusters.value)
    ensures var s, objs := SummaryOf(l).value, l.clusters.value;
            && (objs == [] ==> s.nodeSummary.None? && s.clusterSummary.None? && s.resourceSummary.None?)
            && (objs != [] ==>
                  && s.nodeSummary.Some? && s.clusterSummary.Some? && s.resourceSummary.Some?
                  && s.nodeSummary.value.total == NumStatistic(ListSum(objs, TotalNodes), ListSum(objs, ReadyNodes))
                  && s.clusterSummary.value.total == NumStatistic(|Conditioned(objs)|, |ReadyOnes(objs)|)
                  && TotalsShown(objs, s.resourceSummary.value.total)
                  && forall i :: 0 <= i < |objs| ==> Shown(s, objs[i]))
  {
    var s, objs := SummaryOf(l).value, l.clusters.value;
    NodeTotalsAreListSums(objs);
    ClusterTotalsAreExact(objs);
    if objs != [] {
      TotalsAreShown(objs);
      forall i | 0 <= i < |objs| ensures Shown(s, objs[i]) {
        EntriesAreListed(objs, i);
      }
    }
  }

  /** A cluster's entries in the three maps. */
  predicate Shown(s: Summary, o: MemberCluster) {
    && s.nodeSummary.Some? && Entry(s.nodeSummary.value.clusters, o.name) == o.nodes
    && s.resourceSummary.Some? && Entry(s.resourceSummary.value.clusters, o.name) == o.resources
    && s.clusterSummary.Some? && Entry(s.clusterSummary.value.conditions, o.name) == o.conditions
  }

  /** Each of the three lists of totals is shown. */
  ghost predicate TotalsShown(objs: seq<MemberCluster>, total: ResourceStatistic) {
    && ListShown(objs, total.allocatableList, Allocatable)
    && ListShown(objs, total.allocatingList, Allocating)
    && ListShown(objs, total.allocatedList, Allocated)
  }

  /** If any cluster reports, there are five names, each with its sum; else there is no list. */
  ghost predicate ListShown(objs: seq<MemberCluster>, list: Option<Quantities>, kind: Kind) {
    && (list.None? <==> forall i :: 0 <= i < |objs| ==> objs[i].resources.None?)
    && (list.Some? ==>
          && list.value.Keys == {Cpu, Memory, Storage, EphemeralStorage, Pods}
          && forall name :: name in list.value ==> list.value[name] == ListSum(objs, AmountOf(kind, name)))
  }

  lemma ListIsShown(objs: seq<MemberCluster>, kind: Kind)
    requires DistinctNames(objs)
    ensures ListShown(objs, ListOf(ResourceTotals(ResourcesOf(objs)), kind), kind)
  {
    ResourceTotalsAreListSums(objs, kind);
  }

  lemma ShownByKind(objs: seq<MemberCluster>, total: ResourceStatistic)
    requires ListShown(objs, ListOf(total, Allocatable), Allocatable)
    requires ListShown(objs, ListOf(total, Allocating), Allocating)
    requires ListShown(objs, ListOf(total, Allocated), Allocated)
    ensures TotalsShown(objs, total)
  {
  }

  lemma TotalsAreShown(objs: seq<MemberCluster>)
    requires DistinctNames(objs)
    ensures TotalsShown(objs, ResourceTotals(ResourcesOf(objs)))
  {
    var total := ResourceTotals(ResourcesOf(objs));
    ListIsShown(objs, Allocatable);
    ListIsShown(objs, Allocating);
    ListIsShown(objs, Allocated);
    ShownByKind(objs, total);
  }

  /** Every list the summary is computed from is one the manager's informers hold. */
  lemma ListedAreRegistered(r: Resource)
    ensures r in Informers.CORE_RESOURCES || r in Informers.POLICY_RESOURCES || r == Clusters || r == Deployments
            <==> r in Informers.Collected()
  {
  }
}
