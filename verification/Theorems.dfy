/** The promises of the reconcile protocol, for every reachable state and every run. */
module Theorems {
  import opened Api
  import opened Protocol
  import opened Invariants
  import opened Steps

  // ---- Every API version, however stale the writers ----

  /** Phase, readiness and secret reference agree in every version ever stored, and in every working
      copy, although each status write replaces the whole status by an arbitrarily old copy. */
  lemma EveryVersionIsCoherent(c: Config, s: State)
    requires Reachable(c, s)
    ensures forall i :: 0 <= i < |s.api.h| ==> Coherent(s.api.h[i].status)
    ensures s.inst.Syncing? ==> Coherent(s.inst.kmd.status)
    ensures forall k :: 0 <= k < |s.sums.workers| && s.sums.workers[k].pc.WHas? ==>
              Coherent(s.sums.workers[k].pc.status)
  {
    ReachableInv(c, s);
    forall k | 0 <= k < |s.sums.workers| && s.sums.workers[k].pc.WHas?
      ensures Coherent(s.sums.workers[k].pc.status)
    {
      assert WorkerInv(c, s.sums.nextManager, s.sums.workers[k]);
    }
  }

  /** Once a version is deleting, later ones are, and their finalizers only shrink; a condition once
      recorded stays recorded. */
  lemma DeletionOnlyShrinks(c: Config, s: State, i: nat, j: nat)
    requires Reachable(c, s) && i <= j < |s.api.h|
    ensures s.api.h[i].deleting ==> s.api.h[j].deleting && s.api.h[j].finalizers <= s.api.h[i].finalizers
    ensures s.api.h[i].status.conditions != [] ==> s.api.h[j].status.conditions != []
  {
    ReachableInv(c, s);
    assert Le(c, s.api.h[i], s.api.h[j]);
  }

  /** An `Update` that drops the installer finalizer drops nothing else: the summary finalizer, the
      spec, the label and the status survive, and the object was deleting. */
  lemma DropIsSurgical(c: Config, s: State, ok: bool)
    requires Reachable(c, s) && Enabled(c, s, InstDropWrite(true, ok, false))
    ensures var last := Last(s.api.h);
            && last.deleting
            && Last(Do(c, s, InstDropWrite(true, ok, false)).api.h) ==
               last.(finalizers := last.finalizers - {InstallerFinalizer})
  {
    ReachableInv(c, s);
    assert Le(c, s.api.h[s.inst.rv], Last(s.api.h));
  }

  /** The same for the summary controller's two updates, each on its own finalizer. */
  lemma UnfinalIsSurgical(c: Config, s: State, ok: bool)
    requires Reachable(c, s) && Enabled(c, s, SumUnfinal(true, ok))
    ensures var last := Last(s.api.h);
            && last.deleting
            && Last(Do(c, s, SumUnfinal(true, ok)).api.h) ==
               last.(finalizers := last.finalizers - {SummaryFinalizer})
  {
    ReachableInv(c, s);
  }

  lemma AddIsSurgical(c: Config, s: State, ok: bool)
    requires Reachable(c, s) && Enabled(c, s, SumAdd(true, ok))
    ensures var last := Last(s.api.h);
            && !last.deleting
            && Last(Do(c, s, SumAdd(true, ok)).api.h) == last.(finalizers := last.finalizers + {SummaryFinalizer})
  {
    ReachableInv(c, s);
  }

  lemma InstallerRemoves(c: Config, s: State, e: Event)
    requires Reachable(c, s) && Enabled(c, s, e) && Exists(s.api) && OfInstaller(e)
    ensures Do(c, s, e).api.h != [] && (!Exists(Do(c, s, e).api) <==>
              e.InstDropWrite? && e.applied && Last(s.api.h).finalizers == {InstallerFinalizer})
  {
    ReachableInv(c, s);
    if e.InstDropWrite? && e.applied {
      DropIsSurgical(c, s, e.ok);
    }
  }

  lemma SummaryRemoves(c: Config, s: State, e: Event)
    requires Reachable(c, s) && Enabled(c, s, e) && Exists(s.api) && OfSummary(e)
    ensures Do(c, s, e).api.h != [] && (!Exists(Do(c, s, e).api) <==>
              e.SumUnfinal? && e.applied && Last(s.api.h).finalizers == {SummaryFinalizer})
  {
    if e.SumUnfinal? && e.applied {
      UnfinalIsSurgical(c, s, e.ok);
    } else if e.SumAdd? && e.applied {
      AddIsSurgical(c, s, e.ok);
    }
  }

  /** An event makes the object vanish exactly when it takes away the last finalizer of a deleting object,
      or marks an object without finalizers for deletion. */
  lemma VanishesWithLastFinalizer(c: Config, s: State, e: Event)
    requires Reachable(c, s) && Enabled(c, s, e) && Exists(s.api)
    ensures var last := Last(s.api.h);
            Do(c, s, e).api.h != [] &&
            (!Exists(Do(c, s, e).api) <==>
              || (e.InstDropWrite? && e.applied && last.finalizers == {InstallerFinalizer})
              || (e.SumUnfinal? && e.applied && last.finalizers == {SummaryFinalizer})
              || (e.UserDelete? && last.finalizers == {})
              || (e.UserEdit? && last.deleting && e.edited.finalizers == {}))
  {
    if OfInstaller(e) {
      InstallerRemoves(c, s, e);
    } else if OfSummary(e) {
      SummaryRemoves(c, s, e);
    }
  }

  /** Both controllers are about to drop their finalizers from the current version. */
  predicate BothRemove(c: Config, s: State, ok: bool, ok': bool) {
    && Enabled(c, s, InstDropWrite(true, ok, false)) && Enabled(c, s, SumUnfinal(true, ok'))
    && InstallerFinalizer in Last(s.api.h).finalizers && SummaryFinalizer in Last(s.api.h).finalizers
  }

  /** The one that comes second conflicts, so neither overwrites the other. */
  lemma DropExcludesUnfinal(c: Config, s: State, ok: bool, ok': bool)
    requires Reachable(c, s) && BothRemove(c, s, ok, ok')
    ensures var t := Do(c, s, InstDropWrite(true, ok, false));
            && Exists(t.api) && SummaryFinalizer in Last(t.api.h).finalizers
            && !Enabled(c, t, SumUnfinal(true, ok')) && Enabled(c, t, SumUnfinal(false, false))
  {
    DropIsSurgical(c, s, ok);
    assert SummaryFinalizer in Last(Do(c, s, InstDropWrite(true, ok, false)).api.h).finalizers;
  }

  lemma UnfinalExcludesDrop(c: Config, s: State, ok: bool, ok': bool)
    requires Reachable(c, s) && BothRemove(c, s, ok, ok')
    ensures var t := Do(c, s, SumUnfinal(true, ok'));
            && Exists(t.api) && InstallerFinalizer in Last(t.api.h).finalizers
            && !Enabled(c, t, InstDropWrite(true, ok, false)) && Enabled(c, t, InstDropWrite(false, false, true))
  {
    UnfinalIsSurgical(c, s, ok');
    assert InstallerFinalizer in Last(Do(c, s, SumUnfinal(true, ok')).api.h).finalizers;
  }

  /** The defaulting update only fills gaps of the version it replaces, each with its default; the server
      counts a generation if that changed the spec. */
  lemma DefaultingFillsGaps(c: Config, s: State, ok: bool)
    requires Reachable(c, s) && Enabled(c, s, InstDefault(true, ok))
    ensures var last, next := Last(s.api.h), Last(Do(c, s, InstDefault(true, ok)).api.h);
            && !last.deleting && FillsGaps(c.name, last.(generation := next.generation), next)
            && next.generation == last.generation + if next.spec == last.spec then 0 else 1
  {
    DefaultingReads(c, s);
  }

  /** The update of the defaults only goes through for the version the sync has read. */
  lemma DefaultingReads(c: Config, s: State)
    requires Reachable(c, s) && InstAt(s, Defaulting)
    ensures s.inst.rv < |s.api.h| && !s.api.h[s.inst.rv].deleting && FillsGaps(c.name, s.api.h[s.inst.rv], s.inst.kmd)
  {
    ReachableInv(c, s);
  }

  // ---- Read-your-own-writes: readiness is absorbing ----

  lemma ReadyIsAbsorbing(c: Config, s: State, i: nat, j: nat)
    requires Reachable(c, s) && c.ryow && i <= j < |s.api.h|
    ensures s.api.h[i].status.ready ==> s.api.h[j].status.ready
  {
    ReachableInv(c, s);
    assert Le(c, s.api.h[i], s.api.h[j]);
  }

  /** No helm install is issued once any version is ready. */
  lemma NoInstallOnceReady(c: Config, s: State, r: HelmResult)
    requires Reachable(c, s) && c.ryow && Enabled(c, s, InstHelm(r))
    ensures forall i :: 0 <= i < |s.api.h| ==> !s.api.h[i].status.ready
  {
    ReachableInv(c, s);
    forall i | 0 <= i < |s.api.h| ensures !s.api.h[i].status.ready {
      assert Le(c, s.api.h[i], Last(s.api.h));
    }
  }

  lemma ReadyStep(c: Config, s: State, e: Event)
    requires Inv(c, s) && c.ryow && Last(s.api.h).status.ready && Enabled(c, s, e)
    ensures var t := Do(c, s, e); Inv(c, t) && Last(t.api.h).status.ready && t.helm.deploys == s.helm.deploys
    ensures !e.InstHelm?
  {
    var t := Do(c, s, e);
    StepInv(c, s, e);
    HistoryGrows(c, s, e);
    assert Le(c, t.api.h[|s.api.h| - 1], Last(t.api.h));
  }

  /** Over whole runs: from a ready state on, there is no helm install. */
  lemma {:induction false} ReadyRunsInstallNothing(c: Config, s: State, es: seq<Event>)
    requires Inv(c, s) && c.ryow && Last(s.api.h).status.ready && Exec(c, s, es).Some?
    ensures var t := Exec(c, s, es).value;
            t.helm.deploys == s.helm.deploys && t.api.h != [] && Last(t.api.h).status.ready
    ensures forall e :: e in es ==> !e.InstHelm?
    decreases |es|
  {
    if es == [] {
    } else {
      assert es == [es[0]] + es[1..];
      ReadyStep(c, s, es[0]);
      ReadyRunsInstallNothing(c, Do(c, s, es[0]), es[1..]);
    }
  }

  /** The secret reference GetSummaryManager dereferences is always there. */
  lemma NeverPanics(c: Config, s: State)
    requires Reachable(c, s) && c.ryow
    ensures !SumAt(s.sums, SPanic)
    ensures SumAt(s.sums, SCreate) ==> s.sums.sum.obj.status.secretRef.Some?
  {
    ReachableInv(c, s);
  }

  /** The deletion filter never drops an object that carries the summary finalizer, whichever two
      versions it compares. */
  lemma SummaryFinalizerMeansReady(c: Config, s: State, i: nat, j: nat)
    requires Reachable(c, s) && c.ryow && i < j < |s.api.h| && SummaryFinalizer in s.api.h[j].finalizers
    ensures s.api.h[j].status.ready
    ensures s.api.h[j].deleting && !s.api.h[i].deleting ==> Enqueues(Some(s.api.h[i]), s.api.h[j])
    ensures s.api.h[j].deleting ==> Enqueues(None, s.api.h[j])
  {
    ReachableInv(c, s);
  }

  /** A deletion the summary controller was notified of stays queued or under way until its finalizer
      is gone. */
  lemma DeletionIsNotForgotten(c: Config, s: State)
    requires Reachable(c, s) && c.ryow
    requires 0 < s.api.told <= |s.api.h| && s.api.h[s.api.told - 1].deleting
    requires SummaryFinalizer in Last(s.api.h).finalizers
    ensures s.sums.queued || (s.sums.sum.SSync? && RemovesSummary(s.sums.sum.pc))
  {
    ReachableInv(c, s);
  }

  // ---- The installer finalizer and the uninstall ----

  /** The snapshot that decided whether to uninstall in the sync now dropping the finalizer. */
  function Snapshot(s: State): Object
    requires s.inst.Syncing? && s.inst.rv < |s.api.h|
  {
    s.api.h[s.inst.rv]
  }

  /** With fresh reads, once Deploy reached helm the finalizer is only dropped after an Uninstall that
      returned nil, or with a failed install mode on record, or when the label disables the cascade. */
  lemma FinalizerDropIsJustified(c: Config, s: State, ok: bool)
    requires Reachable(c, s) && c.ryow && s.helm.deploys > 0
    requires Enabled(c, s, InstDropWrite(true, ok, false))
    ensures s.inst.rv < |s.api.h|
    ensures || s.inst.uninstalled
            || IsInstallModeFailed(Snapshot(s).status)
            || Snapshot(s).cascade != Some("false")
  {
    ReachableInv(c, s);
  }

  /** Without any freshness: the rule is broken exactly when the sync's snapshot predates every recorded
      condition and the label asks for the cascade. */
  lemma DropIsUnjustifiedIffSnapshotIsStale(c: Config, s: State, ok: bool)
    requires Reachable(c, s) && s.helm.deploys > 0
    requires Enabled(c, s, InstDropWrite(true, ok, false))
    ensures s.inst.rv < |s.api.h|
    ensures (!s.inst.uninstalled && !IsInstallModeFailed(Snapshot(s).status) && Snapshot(s).cascade == Some("false"))
       <==> (Snapshot(s).cascade == Some("false") && s.inst.rv < FirstCondition(s.api.h))
    ensures FirstCondition(s.api.h) < |s.api.h|
  {
    ReachableInv(c, s);
    FirstConditionSplits(c, s.api.h);
  }

  /** Index of the first version with a condition, |h| if there is none. */
  function FirstCondition(h: seq<Object>): (n: nat)
    ensures n <= |h|
    ensures forall i :: 0 <= i < n ==> h[i].status.conditions == []
    ensures n < |h| ==> h[n].status.conditions != []
  {
    if h == [] || h[0].status.conditions != [] then 0 else 1 + FirstCondition(h[1..])
  }

  lemma FirstConditionSplits(c: Config, h: seq<Object>)
    requires Mono(c, h)
    ensures forall i :: 0 <= i < |h| ==> (h[i].status.conditions == [] <==> i < FirstCondition(h))
  {
    var n := FirstCondition(h);
    forall i | n <= i < |h| ensures h[i].status.conditions != [] {
      assert Le(c, h[n], h[i]);
    }
  }

  // ---- One namespace ----

  /** If users leave the namespace alone, Deploy and Uninstall ever use one namespace: the one stored in
      the API, although every sync may generate a random name. */
  lemma OneNamespace(c: Config, s: State, n: string)
    requires Reachable(c, s) && c.nsFixed && n in s.helm.touched
    ensures n != "" && s.api.h != [] && Last(s.api.h).spec.namespace == n
    ensures forall i :: 0 <= i < |s.api.h| ==> s.api.h[i].spec.namespace in {"", n}
    ensures s.helm.touched == {n}
    ensures s.helm.release.Some? ==> s.helm.release.value == n
  {
    ReachableInv(c, s);
    forall i | 0 <= i < |s.api.h| ensures s.api.h[i].spec.namespace in {"", n} {
      assert Le(c, s.api.h[i], Last(s.api.h));
    }
  }

  /** A sync that generated a name for a snapshot without namespace loses the compare-and-swap if a
      namespace was stored meanwhile; it cannot get past the update of the defaults. */
  lemma StaleDefaultsLose(c: Config, s: State, i: nat, ok: bool)
    requires Reachable(c, s) && c.nsFixed && InstAt(s, Defaulting)
    requires i < |s.api.h| && s.api.h[i].spec.namespace != ""
    requires s.inst.rv < |s.api.h| && Snapshot(s).spec.namespace == ""
    ensures !Enabled(c, s, InstDefault(true, ok))
    ensures Enabled(c, s, InstDefault(false, ok)) ==> Do(c, s, InstDefault(false, ok)).inst == Idle
  {
    ReachableInv(c, s);
    assert Le(c, s.api.h[i], Last(s.api.h));
  }

  // ---- Write-ahead ----

  /** Whenever a helm install is issued the object still exists with the installer finalizer, and a
      version with a condition and phase Deploying was stored after the sync had begun. */
  lemma WriteAhead(c: Config, s: State, r: HelmResult)
    requires Reachable(c, s) && Enabled(c, s, InstHelm(r))
    ensures Exists(s.api) && InstallerFinalizer in Last(s.api.h).finalizers
    ensures exists k :: 0 <= k < |s.api.h| && s.inst.begin <= k
                     && s.api.h[k].status.phase == Deploying && s.api.h[k].status.conditions != []
    ensures Last(s.api.h).status.conditions != []
  {
    ReachableInv(c, s);
    assert Le(c, s.api.h[s.inst.wal], Last(s.api.h));
  }

  // ---- Summary managers ----

  /** A registered manager implies the object exists with the summary finalizer; the open managers are
      exactly the registered one. */
  lemma ManagersAreProtected(c: Config, s: State)
    requires Reachable(c, s)
    ensures s.sums.manager.Some? ==> Exists(s.api) && SummaryFinalizer in Last(s.api.h).finalizers
    ensures forall id: nat :: id < s.sums.nextManager && id !in s.sums.closed <==> s.sums.manager == Some(id)
    ensures !Exists(s.api) ==> forall id: nat :: id < s.sums.nextManager ==> id in s.sums.closed
  {
    ReachableInv(c, s);
  }
}
