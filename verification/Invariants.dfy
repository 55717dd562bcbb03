/** The inductive invariant of the reconcile protocol, and the proof that every event keeps it. */
module Invariants {
  import opened Api
  import opened Protocol

  // ---- How versions evolve ----

  /** What a later version `y` keeps of an earlier version `x`. */
  ghost predicate Le(c: Config, x: Object, y: Object) {
    && (x.deleting ==> y.deleting && y.finalizers <= x.finalizers)
    && (x.status.conditions != [] ==> y.status.conditions != [])
    && (c.nsFixed && x.spec.namespace != "" ==> y.spec.namespace == x.spec.namespace)
    && (c.ryow && x.status.ready ==> y.status.ready)
  }

  ghost predicate ObjInv(c: Config, o: Object) {
    && StatusInv(o.status)
    && o.generation >= 1
    && (c.nsFixed && (InstallerFinalizer in o.finalizers || o.status.conditions != []) ==> o.spec.namespace != "")
    && (c.ryow && SummaryFinalizer in o.finalizers ==> o.status.ready)
  }

  ghost predicate Mono(c: Config, h: seq<Object>) {
    forall i, j {:trigger Le(c, h[i], h[j])} :: 0 <= i <= j < |h| ==> Le(c, h[i], h[j])
  }

  ghost predicate HistInv(c: Config, h: seq<Object>) {
    && h != []
    && Mono(c, h)
    && (forall i :: 0 <= i < |h| ==> ObjInv(c, h[i]))
    && (forall i :: 0 <= i < |h| - 1 ==> !Tomb(h[i]))
  }

  // ---- What the cache implies about the current version ----

  ghost predicate SeenDeleting(a: Store)
    requires a.seen <= |a.h|
  {
    a.seen > 0 && a.h[a.seen - 1].deleting
  }

  /** A finalizer that was ever there is still there, unless the cache shows the deletion. */
  ghost predicate Keeps(a: Store, f: Finalizer)
    requires a.h != [] && a.seen <= |a.h|
  {
    forall i :: 0 <= i < |a.h| && f in a.h[i].finalizers ==> f in Last(a.h).finalizers || SeenDeleting(a)
  }

  /** With fresh reads: the installer's own last write shows readiness and conditions once they exist. */
  ghost predicate OwnInv(c: Config, a: Store)
    requires a.h != [] && a.own <= |a.h|
  {
    c.ryow ==>
      && (Last(a.h).status.ready ==> a.own > 0 && a.h[a.own - 1].status.ready)
      && (Last(a.h).status.conditions != [] ==> a.own > 0 && a.h[a.own - 1].status.conditions != [])
  }

  ghost predicate StoreInv(c: Config, a: Store) {
    && HistInv(c, a.h)
    && a.told <= a.seen <= |a.h| && a.own <= |a.h|
    && Keeps(a, InstallerFinalizer) && Keeps(a, SummaryFinalizer)
    && OwnInv(c, a)
  }

  // ---- Installer ----

  predicate Deletes(pc: InstPc) {
    pc.Uninstalling? || pc.DropRead? || pc.DropWrite?
  }

  predicate Installs(pc: InstPc) {
    !Deletes(pc) && !pc.Defaulting? && !pc.FailWrite?
  }

  predicate PhaseAt(pc: InstPc, phase: Phase) {
    match pc
    case PreflightWrite => phase == Preflight
    case Fetching => phase == Preflight
    case DeployWrite => phase == Deploying
    case Helming => phase == Deploying
    case Completing => phase == Deploying
    case CompleteWrite => phase == Completed
    case ReadyWrite => phase == Completed
    case _ => true
  }

  /** This sync stored a status with phase Preflight, or found exactly that in place. */
  ghost predicate Preflighted(h: seq<Object>, i: Installer)
    requires i.Syncing?
  {
    exists p :: 0 <= p < |h| && i.begin <= p + 1 && h[p].status.phase == Preflight
  }

  /** A status with a condition and phase Deploying entered the history during this sync. */
  ghost predicate Logged(h: seq<Object>, i: Installer)
    requires i.Syncing?
  {
    && i.begin <= i.wal < |h|
    && h[i.wal].status.phase == Deploying && h[i.wal].status.conditions != []
  }

  ghost predicate DeletingInv(c: Config, a: Store, i: Installer)
    requires i.Syncing? && i.rv < a.seen <= |a.h|
  {
    && a.h[i.rv].deleting
    && (c.ryow && Last(a.h).status.conditions != [] ==> a.h[i.rv].status.conditions != [])
    && (i.pc.Uninstalling? ==> i.kmd == a.h[i.rv] && NeedsUninstall(i.kmd))
    && (!i.pc.Uninstalling? ==> (i.uninstalled <==> NeedsUninstall(a.h[i.rv])))
    && (i.pc.DropWrite? ==>
      && i.rv <= i.pc.newRv < a.seen
      && i.pc.newer == a.h[i.pc.newRv].(finalizers := a.h[i.pc.newRv].finalizers - {InstallerFinalizer}))
  }

  /** `k` is `o` with the installer finalizer, and with the default wherever `o` had no value; nothing else. */
  ghost predicate FillsGaps(name: string, o: Object, k: Object) {
    && k == o.(cascade := k.cascade, finalizers := o.finalizers + {InstallerFinalizer},
               spec := o.spec.(
                 namespace := k.spec.namespace, serviceType := k.spec.serviceType, images := k.spec.images))
    && k.cascade == Some(if o.cascade.Some? then o.cascade.value else "false")
    && k.spec.serviceType == (if o.spec.serviceType != "" then o.spec.serviceType else "ClusterIP")
    && (if o.spec.namespace != "" then k.spec.namespace == o.spec.namespace else name + "-" <= k.spec.namespace)
    && k.spec.images.Some?
    && (o.spec.images.None? ==> k.spec.images.value == Images("", "v1.5.0", "", "", ""))
    && (o.spec.images.Some? ==>
          && k.spec.images.value == o.spec.images.value.(karmadaVersion := k.spec.images.value.karmadaVersion)
          && k.spec.images.value.karmadaVersion
             == if o.spec.images.value.karmadaVersion != "" then o.spec.images.value.karmadaVersion else "v1.5.0")
  }

  ghost predicate DefaultingInv(c: Config, a: Store, i: Installer)
    requires i.Syncing? && i.rv < a.seen <= |a.h|
  {
    !a.h[i.rv].deleting && FillsGaps(c.name, a.h[i.rv], i.kmd)
  }

  ghost predicate InstallingInv(c: Config, a: Store, i: Installer)
    requires i.Syncing? && a.h != []
  {
    && i.kmd.status.conditions != []
    && InstallerFinalizer in Last(a.h).finalizers
    && (c.nsFixed ==> i.kmd.spec.namespace != "" && Last(a.h).spec.namespace == i.kmd.spec.namespace)
    && PhaseAt(i.pc, i.kmd.status.phase)
    && (i.pc.Fetching? || i.pc.DeployWrite? ==> Preflighted(a.h, i))
    && (i.pc.Helming? ==> Logged(a.h, i))
  }

  ghost predicate InstInv(c: Config, a: Store, i: Installer)
    requires a.h != [] && a.seen <= |a.h|
  {
    i.Syncing? ==>
      && i.rv < a.seen && 1 <= i.begin <= |a.h|
      && StatusInv(i.kmd.status) && i.kmd.generation >= 1
      && (c.ryow && Last(a.h).status.ready ==> i.kmd.status.ready)
      && (Deletes(i.pc) ==> DeletingInv(c, a, i))
      && (i.pc.Defaulting? ==> DefaultingInv(c, a, i))
      && (i.pc.FailWrite? ==>
        && i.kmd.status.conditions != []
        && (c.nsFixed ==> Last(a.h).spec.namespace != ""))
      && (Installs(i.pc) ==> InstallingInv(c, a, i))
  }

  // ---- Summary controller and workers ----

  /** The cache shows a version at or after the first completed one. */
  ghost predicate ReadySeen(c: Config, a: Store)
    requires a.h != [] && a.seen <= |a.h|
  {
    && a.seen > 0
    && a.h[a.seen - 1].status.conditions != []
    && (c.ryow ==> a.h[a.seen - 1].status.ready)
  }

  predicate RemovesSummary(pc: SumPc) {
    pc.SRemove? || pc.SUnfinal?
  }

  ghost predicate SyncInv(c: Config, a: Store, q: Summaries)
    requires a.h != [] && a.seen <= |a.h| && q.sum.SSync?
  {
    var pc, o := q.sum.pc, q.sum.obj;
    && ReadySeen(c, a)
    && q.sum.rv < |a.h| && o == a.h[q.sum.rv]
    && o.status.conditions != []
    && (c.ryow ==> o.status.ready && !pc.SPanic?)
    && (RemovesSummary(pc) <==> o.deleting)
    && (RemovesSummary(pc) ==> q.sum.rv < a.seen)
    && (pc.SUnfinal? ==> q.manager == None)
    && (pc.SCheck? || pc.SCreate? || pc.SRun? ==> SummaryFinalizer in Last(a.h).finalizers)
    && (pc.SRun? ==> q.manager == Some(pc.id))
  }

  ghost predicate SumInv(c: Config, a: Store, q: Summaries)
    requires a.h != [] && a.seen <= |a.h|
  {
    && (q.queued ==> ReadySeen(c, a) || (a.seen > 0 && Tomb(a.h[a.seen - 1])))
    && (q.sum.SSync? ==> SyncInv(c, a, q))
  }

  /** Managers and the finalizer that protects them. */
  ghost predicate ManagerInv(c: Config, a: Store, q: Summaries)
    requires a.h != [] && a.seen <= |a.h|
  {
    && (q.manager.Some? ==> SummaryFinalizer in Last(a.h).finalizers && q.manager.value < q.nextManager)
    && (forall id :: id in q.closed ==> id < q.nextManager)
    && (forall id: nat :: id < q.nextManager ==> (id !in q.closed <==> q.manager == Some(id)))
    && (q.nextManager > 0 ==> ReadySeen(c, a))
  }

  ghost predicate WorkerInv(c: Config, nextManager: nat, w: Worker) {
    && w.mgr < nextManager
    && (w.pc.WHas? ==> StatusInv(w.pc.status) && w.pc.status.conditions != [] && (c.ryow ==> w.pc.status.ready))
  }

  ghost predicate WorkersInv(c: Config, q: Summaries) {
    forall k :: 0 <= k < |q.workers| ==> WorkerInv(c, q.nextManager, q.workers[k])
  }

  /** With fresh reads, a deletion the summary controller was told about is never forgotten. */
  ghost predicate NoLostDeletion(c: Config, a: Store, q: Summaries)
    requires a.h != [] && a.told <= |a.h|
  {
    c.ryow && a.told > 0 && a.h[a.told - 1].deleting && SummaryFinalizer in Last(a.h).finalizers ==>
      q.queued || (q.sum.SSync? && RemovesSummary(q.sum.pc))
  }

  ghost predicate SumsInv(c: Config, a: Store, q: Summaries)
    requires a.h != [] && a.told <= a.seen <= |a.h|
  {
    && SumInv(c, a, q)
    && ManagerInv(c, a, q)
    && WorkersInv(c, q)
    && NoLostDeletion(c, a, q)
  }

  // ---- Helm and the namespaces ----

  ghost predicate HelmInv(c: Config, h: seq<Object>, m: Helm)
    requires h != []
  {
    && (m.deploys > 0 ==> Last(h).status.conditions != [])
    && (c.nsFixed ==>
      && (forall n :: n in m.touched ==> n != "" && Last(h).spec.namespace == n)
      && (m.release.Some? ==> m.release.value in m.touched))
  }

  ghost predicate Inv(c: Config, s: State) {
    && StoreInv(c, s.api)
    && InstInv(c, s.api, s.inst)
    && SumsInv(c, s.api, s.sums)
    && HelmInv(c, s.api.h, s.helm)
  }

  lemma InitInv(c: Config, s: State)
    requires Init(s)
    ensures Inv(c, s)
  {
  }

  // ---- Growing the history ----

  /** What every version appended to the history satisfies, whoever writes it. */
  ghost predicate MayWrite(c: Config, s: State, o: Object, mine: bool)
    requires s.api.h != [] && s.api.seen <= |s.api.h|
  {
    var last := Last(s.api.h);
    && Exists(s.api)
    && Le(c, last, o) && ObjInv(c, o)
    && (InstallerFinalizer in last.finalizers ==>
          InstallerFinalizer in o.finalizers || (SeenDeleting(s.api) && s.inst.Syncing? && s.inst.pc.DropWrite?))
    && (SummaryFinalizer in last.finalizers ==>
          SummaryFinalizer in o.finalizers || (SeenDeleting(s.api) && SumAt(s.sums, SUnfinal)))
    && (SummaryFinalizer in o.finalizers && SummaryFinalizer !in last.finalizers ==> !last.deleting)
    && (c.ryow && o.status.ready ==>
          last.status.ready || (mine && s.inst.Syncing? && s.inst.kmd.status.ready))
    && (c.ryow && o.status.conditions != [] ==>
          last.status.conditions != [] || (mine && s.inst.Syncing? && !Deletes(s.inst.pc)))
  }

  lemma LeTransitive(c: Config, x: Object, y: Object, z: Object)
    requires Le(c, x, y) && Le(c, y, z)
    ensures Le(c, x, z)
  {
  }

  lemma WriteHist(c: Config, h: seq<Object>, o: Object)
    requires HistInv(c, h) && !Tomb(Last(h)) && Le(c, Last(h), o) && ObjInv(c, o)
    ensures HistInv(c, Append(h, o))
  {
    var r := Append(h, o);
    forall i, j | 0 <= i <= j < |r| ensures Le(c, r[i], r[j]) {
      if j == |h| {
        if i < j {
          assert Le(c, h[i], Last(h));
          LeTransitive(c, h[i], Last(h), o);
        }
      } else {
        assert Le(c, h[i], h[j]);
      }
    }
  }

  lemma WriteStore(c: Config, s: State, o: Object, mine: bool)
    requires Inv(c, s) && MayWrite(c, s, o, mine)
    ensures StoreInv(c, Write(s.api, o, mine))
  {
    WriteHist(c, s.api.h, o);
  }

  lemma WriteInst(c: Config, s: State, o: Object, mine: bool)
    requires Inv(c, s) && MayWrite(c, s, o, mine)
    ensures InstInv(c, Write(s.api, o, mine), s.inst)
  {
  }

  lemma WriteSync(c: Config, s: State, o: Object, mine: bool)
    requires Inv(c, s) && MayWrite(c, s, o, mine)
    ensures SumInv(c, Write(s.api, o, mine), s.sums)
  {
  }

  lemma WriteManagers(c: Config, s: State, o: Object, mine: bool)
    requires Inv(c, s) && MayWrite(c, s, o, mine)
    ensures ManagerInv(c, Write(s.api, o, mine), s.sums) && NoLostDeletion(c, Write(s.api, o, mine), s.sums)
  {
    if s.api.told > 0 {
      assert Le(c, s.api.h[s.api.told - 1], Last(s.api.h));
    }
  }

  /** Appending an allowed version keeps the whole invariant. */
  lemma WriteInv(c: Config, s: State, o: Object, mine: bool)
    requires Inv(c, s) && MayWrite(c, s, o, mine)
    ensures Inv(c, s.(api := Write(s.api, o, mine)))
  {
    WriteStore(c, s, o, mine);
    WriteInst(c, s, o, mine);
    WriteSync(c, s, o, mine);
    WriteManagers(c, s, o, mine);
  }
}
