/** Every event of the protocol keeps the invariant. */
module Steps {
  import opened Api
  import opened Protocol
  import opened Invariants

  // ---- Installer: local steps ----

  /** Entering Sync with the defaults in place. */
  lemma EnterSyncInv(c: Config, a: Store, i: Installer)
    requires a.h != [] && i.Syncing? && i.rv < a.seen <= |a.h| && 1 <= i.begin <= |a.h|
    requires StatusInv(i.kmd.status) && i.kmd.generation >= 1
    requires c.ryow && Last(a.h).status.ready ==> i.kmd.status.ready
    requires InstallerFinalizer in Last(a.h).finalizers
    requires c.nsFixed ==> i.kmd.spec.namespace != "" && Last(a.h).spec.namespace == i.kmd.spec.namespace
    ensures InstInv(c, a, EnterSync(i))
  {
    if i.kmd.status.observedGeneration != i.kmd.generation {
      var st := i.kmd.status.(observedGeneration := i.kmd.generation);
      assert MarkProgressing(st).conditions == [Condition(Ready, ConditionUnknown, Progressing)];
    }
  }

  lemma DefaultedFillsGaps(name: string, o: Object, suffix: string)
    ensures FillsGaps(name, o, Defaulted(name, o, suffix)) && Defaulted(name, o, suffix).spec.namespace != ""
  {
  }

  lemma StartInv(c: Config, a: Store, suffix: string)
    requires StoreInv(c, a) && Lister(a).Some? && (c.ryow ==> a.own <= a.seen)
    ensures InstInv(c, a, StartSync(c, a, Lister(a).value, suffix))
  {
    var o := Lister(a).value;
    assert Le(c, o, Last(a.h));
    if a.own > 0 {
      assert a.own <= a.seen ==> Le(c, a.h[a.own - 1], o);
    }
    var k := Defaulted(c.name, o, suffix);
    DefaultedFillsGaps(c.name, o, suffix);
    if !o.deleting && !NeedsUpdate(o) {
      assert k.finalizers == o.finalizers;
      EnterSyncInv(c, a, Syncing(DropRead, k, a.seen - 1, |a.h|, false, 0));
    }
  }

  lemma FailInv(c: Config, a: Store, i: Installer, reason: Reason)
    requires StoreInv(c, a) && InstInv(c, a, i) && i.Syncing? && (i.pc.Uninstalling? || Installs(i.pc))
    ensures InstInv(c, a, Fail(i, reason))
  {
    SettersKeepInv(i.kmd.status, reason);
    assert Le(c, a.h[i.rv], Last(a.h));
  }

  lemma DeletionInv(c: Config, a: Store, i: Installer, r: UninstallResult)
    requires StoreInv(c, a) && InstInv(c, a, i) && i.Syncing?
    ensures i.pc.Uninstalling? ==> InstInv(c, a, AfterUninstall(i, r))
    ensures i.pc.DropRead? ==> InstInv(c, a, ReadForDrop(a, i))
  {
    if i.pc.Uninstalling? {
      FailInv(c, a, i, InstallModeFailed);
    }
  }

  lemma ChooseInv(c: Config, a: Store, i: Installer, ok: bool)
    requires StoreInv(c, a) && InstInv(c, a, i) && i.Syncing? && i.pc.Choosing?
    ensures InstInv(c, a, if ok then EnterInstall(i) else Fail(i, InstallModeFailed))
  {
    SettersKeepInv(i.kmd.status, Progressing);
    FailInv(c, a, i, InstallModeFailed);
  }

  lemma FetchInv(c: Config, a: Store, i: Installer, ok: bool)
    requires StoreInv(c, a) && InstInv(c, a, i) && i.Syncing? && i.pc.Fetching?
    ensures InstInv(c, a, if ok then SetPhase(i, Deploying, DeployWrite) else Fail(i, HelmChartFailed))
  {
    FailInv(c, a, i, HelmChartFailed);
  }

  lemma AfterHelmInv(c: Config, a: Store, i: Installer, r: HelmResult)
    requires StoreInv(c, a) && InstInv(c, a, i) && i.Syncing? && i.pc.Helming?
    ensures InstInv(c, a, AfterHelm(i, r))
  {
    FailInv(c, a, i, HelmInitFailed);
    FailInv(c, a, i, HelmReleaseFailed);
  }

  lemma CompleteInv(c: Config, a: Store, i: Installer, secret: SecretRef, kv: string)
    requires StoreInv(c, a) && InstInv(c, a, i) && i.Syncing? && i.pc.Completing?
    ensures InstInv(c, a, Complete(i, secret, kv))
  {
    var st := Complete(i, secret, kv).kmd.status;
    assert st.conditions == i.kmd.status.conditions;
  }

  lemma AfterStatusInv(c: Config, a: Store, i: Installer, ok: bool)
    requires StoreInv(c, a) && InstInv(c, a, i) && i.Syncing? && WritesStatus(i.pc)
    requires ok ==> Last(a.h).status == i.kmd.status
    ensures InstInv(c, a, AfterStatus(i, |a.h|, ok))
  {
    SettersKeepInv(i.kmd.status, Progressing);
    if ok && i.pc.PreflightWrite? {
      assert a.h[|a.h| - 1].status.phase == Preflight;
    }
  }

  // ---- Installer: events ----

  lemma DropStep(c: Config, s: State, e: Event)
    requires Inv(c, s) && Enabled(c, s, e) && e.InstDropWrite?
    ensures Inv(c, Do(c, s, e))
  {
    var a, i := s.api, s.inst;
    assert Le(c, a.h[i.rv], a.h[i.pc.newRv]);
    assert Le(c, a.h[i.pc.newRv], a.h[a.seen - 1]);
    if e.applied {
      WriteInv(c, s, Stored(Last(a.h), i.pc.newer), true);
    }
  }

  lemma DefaultStep(c: Config, s: State, e: Event)
    requires Inv(c, s) && Enabled(c, s, e) && e.InstDefault?
    ensures Inv(c, Do(c, s, e))
  {
    if e.applied {
      var o := Stored(Last(s.api.h), s.inst.kmd);
      WriteInv(c, s, o, true);
      if e.ok {
        EnterSyncInv(c, Write(s.api, o, true), s.inst);
      }
    }
  }

  lemma StatusStep(c: Config, s: State, e: Event)
    requires Inv(c, s) && Enabled(c, s, e) && e.InstStatus?
    ensures Inv(c, Do(c, s, e))
  {
    var o := Last(s.api.h).(status := s.inst.kmd.status);
    if e.applied {
      assert MayWrite(c, s, o, true) by {
        assert Le(c, s.api.h[s.inst.rv], Last(s.api.h));
      }
      WriteInv(c, s, o, true);
    }
    AfterStatusInv(c, WriteIf(s.api, e.applied, o, true), s.inst, e.ok);
  }

  lemma EntryStep(c: Config, s: State, e: Event)
    requires Inv(c, s) && Enabled(c, s, e)
    requires e.InstStart? || e.InstUninstall? || e.InstDropRead?
    ensures Inv(c, Do(c, s, e))
  {
    if e.InstStart? {
      StartInv(c, s.api, e.suffix);
    } else if e.InstUninstall? {
      DeletionInv(c, s.api, s.inst, e.result);
      assert Le(c, s.api.h[s.inst.rv], Last(s.api.h));
    } else {
      DeletionInv(c, s.api, s.inst, NoInstaller);
    }
  }

  lemma InstallStep(c: Config, s: State, e: Event)
    requires Inv(c, s) && Enabled(c, s, e)
    requires e.InstChoose? || e.InstFetch? || e.InstComplete?
    ensures Inv(c, Do(c, s, e))
  {
    if e.InstChoose? {
      ChooseInv(c, s.api, s.inst, e.ok);
    } else if e.InstFetch? {
      FetchInv(c, s.api, s.inst, e.ok);
    } else if e.secret.Some? {
      CompleteInv(c, s.api, s.inst, e.secret.value, e.kubeVersion);
    }
  }

  lemma HelmStep(c: Config, s: State, e: Event)
    requires Inv(c, s) && Enabled(c, s, e) && e.InstHelm?
    ensures Inv(c, Do(c, s, e))
  {
    AfterHelmInv(c, s.api, s.inst, e.outcome);
    assert Le(c, s.api.h[s.inst.wal], Last(s.api.h));
  }

  // ---- Users and the cache ----

  lemma UserStep(c: Config, s: State, e: Event)
    requires Inv(c, s) && Enabled(c, s, e) && OfUser(e)
    ensures Inv(c, Do(c, s, e))
  {
    match e
    case UserEdit(o) => WriteInv(c, s, o, false);
    case UserDelete => WriteInv(c, s, Deleted(Last(s.api.h)), false);
    case UserHelmDelete =>
  }

  lemma AdvanceStep(c: Config, s: State, e: Event)
    requires Inv(c, s) && Enabled(c, s, e) && e.CacheAdvance?
    ensures Inv(c, Do(c, s, e))
  {
    if s.api.seen > 0 {
      assert Le(c, s.api.h[s.api.seen - 1], s.api.h[e.upTo - 1]);
    }
    assert Le(c, s.api.h[e.upTo - 1], Last(s.api.h));
  }

  lemma NotifiedInv(c: Config, a: Store, q: Summaries, k: nat)
    requires StoreInv(c, a) && SumsInv(c, a, q) && a.told < k <= a.seen
    ensures SumsInv(c, a.(told := k), Notified(a, q, k))
  {
    assert Le(c, a.h[k - 1], a.h[a.seen - 1]);
    assert Le(c, a.h[k - 1], Last(a.h));
  }

  lemma NotifyStep(c: Config, s: State, e: Event)
    requires Inv(c, s) && Enabled(c, s, e) && e.CacheNotify?
    ensures Inv(c, Do(c, s, e))
  {
    NotifiedInv(c, s.api, s.sums, e.upTo);
  }

  // ---- Summary controller ----

  lemma SumStartInv(c: Config, a: Store, q: Summaries)
    requires StoreInv(c, a) && SumsInv(c, a, q) && q.sum.SIdle? && q.queued
    ensures SumsInv(c, a, q.(queued := false, sum := StartSummary(a)))
  {
    assert a.seen > 0 ==> Le(c, a.h[a.seen - 1], Last(a.h));
    assert a.told > 0 ==> Le(c, a.h[a.told - 1], a.h[a.seen - 1]);
  }

  lemma RemoveInv(c: Config, a: Store, q: Summaries)
    requires StoreInv(c, a) && SumsInv(c, a, q) && SumAt(q, SRemove)
    ensures SumsInv(c, a, RemoveManager(q))
  {
    var r := RemoveManager(q);
    forall k | 0 <= k < |r.workers| ensures WorkerInv(c, r.nextManager, r.workers[k]) {
      assert WorkerInv(c, q.nextManager, q.workers[k]);
    }
  }

  lemma CreateInv(c: Config, a: Store, q: Summaries, ok: bool)
    requires StoreInv(c, a) && SumsInv(c, a, q) && SumAt(q, SCreate)
    ensures SumsInv(c, a, CreateManager(q, ok))
  {
    var r := CreateManager(q, ok);
    forall k | 0 <= k < |r.workers| ensures WorkerInv(c, r.nextManager, r.workers[k]) {
      assert WorkerInv(c, q.nextManager, q.workers[k]);
    }
  }

  lemma StartWorkerInv(c: Config, a: Store, q: Summaries)
    requires StoreInv(c, a) && SumsInv(c, a, q) && q.sum.SSync?
    ensures q.sum.pc.SCheck? ==>
              SumsInv(c, a, q.(sum := q.sum.(pc := if q.manager.Some? then SRun(q.manager.value) else SCreate)))
    ensures q.sum.pc.SRun? ==>
              SumsInv(c, a, SumDone(q.(workers := q.workers + [Worker(q.sum.pc.id, WTop)]), false))
  {
  }

  lemma SummaryStep(c: Config, s: State, e: Event)
    requires Inv(c, s) && Enabled(c, s, e)
    requires e.SumStart? || e.SumRemove? || e.SumCheck? || e.SumCreate? || e.SumRun?
    ensures Inv(c, Do(c, s, e))
  {
    if e.SumStart? {
      SumStartInv(c, s.api, s.sums);
    } else if e.SumRemove? {
      RemoveInv(c, s.api, s.sums);
    } else if e.SumCreate? {
      CreateInv(c, s.api, s.sums, e.ok);
    } else {
      StartWorkerInv(c, s.api, s.sums);
    }
  }

  lemma UnfinalStep(c: Config, s: State, e: Event)
    requires Inv(c, s) && Enabled(c, s, e) && e.SumUnfinal?
    ensures Inv(c, Do(c, s, e))
  {
    assert Le(c, s.api.h[s.sums.sum.rv], s.api.h[s.api.seen - 1]);
    if e.applied {
      WriteInv(c, s, Stored(Last(s.api.h), WithoutSummary(s.sums.sum.obj)), false);
    }
  }

  lemma AddStep(c: Config, s: State, e: Event)
    requires Inv(c, s) && Enabled(c, s, e) && e.SumAdd?
    ensures Inv(c, Do(c, s, e))
  {
    if e.applied {
      WriteInv(c, s, Stored(Last(s.api.h), WithSummary(s.sums.sum.obj)), false);
    }
    if s.api.told > 0 {
      assert Le(c, s.api.h[s.api.told - 1], Last(s.api.h));
    }
  }

  lemma ReadTickInv(c: Config, a: Store, q: Summaries, w: Worker, computed: Option<Summary>)
    requires StoreInv(c, a) && SumsInv(c, a, q) && WorkerInv(c, q.nextManager, w) && w.pc.WTop?
    ensures WorkerInv(c, q.nextManager, ReadTick(a, w, computed))
  {
    assert ReadySeen(c, a);
  }

  lemma SetWorkerInv(c: Config, s: State, k: nat, w: Worker)
    requires Inv(c, s) && k < |s.sums.workers| && WorkerInv(c, s.sums.nextManager, w)
    ensures Inv(c, s.(sums := s.sums.(workers := s.sums.workers[k := w])))
  {
  }

  lemma WorkerReadLoopStep(c: Config, s: State, e: Event)
    requires Inv(c, s) && Enabled(c, s, e) && (e.WorkRead? || e.WorkLoop?)
    ensures Inv(c, Do(c, s, e))
  {
    var w := s.sums.workers[e.w];
    assert WorkerInv(c, s.sums.nextManager, w);
    match e
    case WorkRead(k, computed) =>
      ReadTickInv(c, s.api, s.sums, w, computed);
      SetWorkerInv(c, s, k, ReadTick(s.api, w, computed));
    case WorkLoop(k) =>
      SetWorkerInv(c, s, k, w.(pc := if w.mgr in s.sums.closed then WExit else WTop));
  }

  lemma WorkerWriteStep(c: Config, s: State, e: Event)
    requires Inv(c, s) && Enabled(c, s, e) && e.WorkWrite?
    ensures Inv(c, Do(c, s, e))
  {
    var a, q := s.api, s.sums;
    var w := q.workers[e.w];
    assert WorkerInv(c, q.nextManager, w);
    var o := Last(a.h).(status := w.pc.status);
    var t := s.(api := WriteIf(a, e.applied, o, false));
    if e.applied {
      assert Le(c, a.h[a.seen - 1], Last(a.h));
      WriteInv(c, s, o, false);
    }
    SetWorkerInv(c, t, e.w, Ticked(w));
  }

  lemma InstallerStep(c: Config, s: State, e: Event)
    requires Inv(c, s) && Enabled(c, s, e)
    requires OfInstaller(e)
    ensures Inv(c, Do(c, s, e))
  {
    if e.InstDropWrite? {
      DropStep(c, s, e);
    } else if e.InstDefault? {
      DefaultStep(c, s, e);
    } else if e.InstStatus? {
      StatusStep(c, s, e);
    } else if e.InstHelm? {
      HelmStep(c, s, e);
    } else if e.InstStart? || e.InstUninstall? || e.InstDropRead? {
      EntryStep(c, s, e);
    } else {
      InstallStep(c, s, e);
    }
  }

  lemma SummaryControllerStep(c: Config, s: State, e: Event)
    requires Inv(c, s) && Enabled(c, s, e)
    requires OfSummary(e)
    ensures Inv(c, Do(c, s, e))
  {
    if e.SumUnfinal? {
      UnfinalStep(c, s, e);
    } else if e.SumAdd? {
      AddStep(c, s, e);
    } else {
      SummaryStep(c, s, e);
    }
  }

  lemma CacheStep(c: Config, s: State, e: Event)
    requires Inv(c, s) && Enabled(c, s, e) && OfCache(e)
    ensures Inv(c, Do(c, s, e))
  {
    if e.CacheAdvance? {
      AdvanceStep(c, s, e);
    } else {
      NotifyStep(c, s, e);
    }
  }

  lemma WorkerStep(c: Config, s: State, e: Event)
    requires Inv(c, s) && Enabled(c, s, e) && OfWorker(e)
    ensures Inv(c, Do(c, s, e))
  {
    if e.WorkWrite? {
      WorkerWriteStep(c, s, e);
    } else {
      WorkerReadLoopStep(c, s, e);
    }
  }

  /** Every event keeps the invariant. */
  lemma StepInv(c: Config, s: State, e: Event)
    requires Inv(c, s) && Enabled(c, s, e)
    ensures Inv(c, Do(c, s, e))
  {
    if OfUser(e) {
      UserStep(c, s, e);
    } else if OfCache(e) {
      CacheStep(c, s, e);
    } else if OfSummary(e) {
      SummaryControllerStep(c, s, e);
    } else if OfWorker(e) {
      WorkerStep(c, s, e);
    } else {
      InstallerStep(c, s, e);
    }
  }

  /** Every state of every run satisfies the invariant. */
  lemma {:induction false} RunInv(c: Config, s: State, es: seq<Event>)
    requires Inv(c, s) && Exec(c, s, es).Some?
    ensures Inv(c, Exec(c, s, es).value)
    decreases |es|
  {
    if es == [] {
    } else {
      StepInv(c, s, es[0]);
      RunInv(c, Do(c, s, es[0]), es[1..]);
    }
  }

  lemma ReachableInv(c: Config, s: State)
    requires Reachable(c, s)
    ensures Inv(c, s)
  {
    var es :| Reaches(c, es, s);
    var s0 :| Init(s0) && Exec(c, s0, es) == Some(s);
    InitInv(c, s0);
    RunInv(c, s0, es);
  }
}
