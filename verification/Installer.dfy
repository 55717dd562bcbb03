/** The installer controller in its imperative form: one sync mutates its working copy step by step
    and talks to the API server while everybody else runs on. Each method is proved to perform exactly
    the protocol's events, so every theorem about reachable states holds while it runs. */
module InstallerController {
  import opened Api
  import opened Protocol
  import opened World
  import opened StatusWrites
  import opened Invariants
  import Theorems
  import WorkingCopies

  const MAX_UPDATE_ATTEMPTS: nat := 5

  /** The deep copy of the KarmadaDeployment a sync works on. */
  class KarmadaDeployment {
    var generation: int
    var deleting: bool
    var finalizers: set<Finalizer>
    var cascade: Option<string>
    var spec: Spec
    var status: Status

    constructor DeepCopy(o: Object)
      ensures Value() == o
    {
      generation, deleting, finalizers, cascade, spec, status :=
        o.generation, o.deleting, o.finalizers, o.cascade, o.spec, o.status;
    }

    function Value(): Object
      reads this
    {
      Object(generation, deleting, finalizers, cascade, spec, status)
    }
  }

  // ---- What a method has done, as events added to the installer's log ----

  /** One status write. */
  predicate Wrote(was: seq<Event>, now: seq<Event>) {
    |now| == |was| + 1 && was <= now && now[|was|].InstStatus?
  }

  /** The chart is fetched; a failure is written. */
  predicate FetchTrace(was: seq<Event>, now: seq<Event>, err: bool) {
    if err then Wrote(was + [InstFetch(false)], now) else now == was + [InstFetch(true)]
  }

  /** The phase is written; if, and only if, that is acknowledged the chart is fetched. */
  predicate PreflightTrace(was: seq<Event>, now: seq<Event>, err: bool) {
    && was < now
    && if |now| == |was| + 1 then err && now[|was|].InstStatus? && !now[|was|].ok
       else FetchTrace(was + [InstStatus(true, true)], now, err)
  }

  /** Helm is called; a failure, other than that of the namespace, is written. */
  predicate ReleaseTrace(was: seq<Event>, now: seq<Event>, err: bool) {
    && was < now && now[|was|].InstHelm? && (err <==> Fails(now[|was|]))
    && if !err || now[|was|].outcome.NamespaceError? then |now| == |was| + 1 else Wrote(was + [now[|was|]], now)
  }

  /** The phase is written; if, and only if, that is acknowledged helm is called. */
  predicate DeployTrace(was: seq<Event>, now: seq<Event>, err: bool) {
    && was < now
    && if |now| == |was| + 1 then err && now[|was|].InstStatus? && !now[|was|].ok
       else ReleaseTrace(was + [InstStatus(true, true)], now, err)
  }

  // ---- installWorkflow ----

  /** The phases of an installation. `release` is the release helm returned, once it did. */
  class InstallWorkflow {
    const w: Cluster

    constructor (w: Cluster)
      ensures this.w == w
    {
      this.w := w;
    }

    /** Records the failure and reports it whatever the write did. */
    method FailWith(kmd: KarmadaDeployment, reason: Reason, ghost i: Installer)
      requires w.Valid() && i.Syncing? && w.s.inst == Fail(i, reason) && kmd.Value() == i.kmd
      modifies w, kmd`status
      ensures w.Valid() && w.s.inst == Idle && old(w.run) <= w.run && Wrote(old(w.own), w.own)
      ensures kmd.status == MarkNotReady(old(kmd.status), reason)
      ensures Condition(Ready, ConditionFalse, reason) in kmd.status.conditions
      ensures w.own[|old(w.own)|].applied ==> Last(w.s.api.h).status == kmd.status
    {
      SetIsPresent(kmd.status.conditions, Condition(Ready, ConditionFalse, reason));
      kmd.status := MarkNotReady(kmd.status, reason);
      var _, _ := SetStatus(w, TheInstaller, kmd.status);
    }

    method Preflight(kmd: KarmadaDeployment, ghost i: Installer) returns (err: bool)
      requires w.Valid() && i.Syncing? && kmd.Value() == i.kmd
      requires w.s.inst == SetPhase(i, Phase.Preflight, PreflightWrite)
      modifies w, kmd`status
      ensures w.Valid() && old(w.run) <= w.run && PreflightTrace(old(w.own), w.own, err)
      ensures if err then w.s.inst == Idle
              else w.s.inst.Syncing? && kmd.Value().(status := kmd.status.(phase := Deploying)) == w.s.inst.kmd
                   && w.s.inst == SetPhase(w.s.inst, Deploying, DeployWrite)
    {
      kmd.status := kmd.status.(phase := Phase.Preflight);
      ghost var a;
      err, a := SetStatus(w, TheInstaller, kmd.status);
      if !err {
        err := Fetch(kmd);
      }
    }

    /** fetchChart, and what Preflight does when it fails. */
    method Fetch(kmd: KarmadaDeployment) returns (err: bool)
      requires w.Valid() && InstAt(w.s, Fetching) && kmd.Value() == w.s.inst.kmd
      modifies w, kmd`status
      ensures w.Valid() && old(w.run) <= w.run && FetchTrace(old(w.own), w.own, err)
      ensures if err then w.s.inst == Idle
              else w.s.inst == SetPhase(old(w.s.inst), Deploying, DeployWrite) && kmd.Value() == old(kmd.Value())
    {
      w.Others(TheInstaller);
      err := *;
      ghost var j := w.s.inst;
      w.Perform(InstFetch(!err));
      if err {
        FailWith(kmd, HelmChartFailed, j);
      }
    }

    method Deploy(kmd: KarmadaDeployment) returns (err: bool)
      requires w.Valid() && w.s.inst.Syncing? && kmd.Value().(status := kmd.status.(phase := Deploying)) == w.s.inst.kmd
      requires w.s.inst.pc.DeployWrite?
      modifies w, kmd`status
      ensures w.Valid() && old(w.run) <= w.run && DeployTrace(old(w.own), w.own, err)
      ensures if err then w.s.inst == Idle else InstAt(w.s, Completing) && kmd.Value() == w.s.inst.kmd
    {
      kmd.status := kmd.status.(phase := Deploying);
      ghost var a;
      err, a := SetStatus(w, TheInstaller, kmd.status);
      if !err {
        err := Release(kmd);
      }
    }

    /** The namespace, the values and the helm install itself. */
    method Release(kmd: KarmadaDeployment) returns (err: bool)
      requires w.Valid() && InstAt(w.s, Helming) && kmd.Value() == w.s.inst.kmd
      modifies w, kmd`status
      ensures w.Valid() && old(w.run) <= w.run && ReleaseTrace(old(w.own), w.own, err)
      ensures if err then w.s.inst == Idle else InstAt(w.s, Completing) && kmd.Value() == w.s.inst.kmd
    {
      w.Others(TheInstaller);
      var outcome := CallHelm();
      ghost var j := w.s.inst;
      w.Perform(InstHelm(outcome));
      assert w.own == old(w.own) + [InstHelm(outcome)];
      err := !outcome.Issued? || !outcome.ok;
      if outcome.ValuesError? {
        FailWith(kmd, HelmInitFailed, j);
      } else if outcome.Issued? && err {
        FailWith(kmd, HelmReleaseFailed, j);
      }
    }

    /** Anything helm and the namespace lookup may answer, except a success for a name in use. */
    method CallHelm() returns (outcome: HelmResult)
      ensures outcome.Issued? && outcome.ok ==> w.s.helm.release.None? && outcome.present
    {
      var namespaceOk: bool, valuesOk: bool, installed: bool, present: bool := *, *, *, *;
      if !namespaceOk {
        return NamespaceError;
      }
      if !valuesOk {
        return ValuesError;
      }
      if w.s.helm.release.Some? {
        installed := false;
      }
      outcome := Issued(installed, installed || present);
    }

    /** The fields of the status that Completed sets, one by one. */
    method Record(kmd: KarmadaDeployment, secret: SecretRef, kubeVersion: string)
      modifies kmd`status
      ensures kmd.status == old(kmd.status).(
                secretRef := Some(secret), ready := true, phase := Phase.Completed,
                karmadaVersion := DEFAULT_KARMADA_VERSION,
                kubernetesVersion := if kubeVersion == "" then old(kmd.status.kubernetesVersion) else kubeVersion)
    {
      if kubeVersion != "" {
        kmd.status := kmd.status.(kubernetesVersion := kubeVersion);
      }
      kmd.status := kmd.status.(karmadaVersion := DEFAULT_KARMADA_VERSION);
      kmd.status := kmd.status.(secretRef := Some(secret));
      kmd.status := kmd.status.(ready := true);
      kmd.status := kmd.status.(phase := Phase.Completed);
    }

    /** `secret` is where the kubeconfig ends up, None when collecting or storing it fails. */
    method Completed(kmd: KarmadaDeployment, secret: Option<SecretRef>, kubeVersion: string)
      returns (err: bool, ghost i: Installer)
      requires w.Valid() && InstAt(w.s, Completing) && kmd.Value() == w.s.inst.kmd
      modifies w, kmd`status
      ensures w.Valid() && old(w.run) <= w.run && CompletedTrace(old(w.own), w.own, err, secret, kubeVersion)
      ensures if err then w.s.inst == Idle else i.Syncing? && w.s.inst == Finish(i) && kmd.Value() == i.kmd
      ensures !err ==> kmd.status == old(kmd.status).(
                phase := Phase.Completed, ready := true, secretRef := secret, karmadaVersion := "v1.5.0",
                kubernetesVersion := if kubeVersion == "" then old(kmd.status.kubernetesVersion) else kubeVersion)
      ensures !err ==> Last(w.s.api.h).status == kmd.status
    {
      err := Collect(kmd, secret, kubeVersion);
      i := w.s.inst;
      if !err {
        ghost var a;
        err, a := SetStatus(w, TheInstaller, kmd.status);
      }
    }

    /** The kubeconfig becomes a secret, and the copy's status refers to it. */
    method Collect(kmd: KarmadaDeployment, secret: Option<SecretRef>, kubeVersion: string) returns (err: bool)
      requires w.Valid() && InstAt(w.s, Completing) && kmd.Value() == w.s.inst.kmd
      modifies w, kmd`status
      ensures w.Valid() && old(w.run) <= w.run && w.own == old(w.own) + [InstComplete(secret, kubeVersion)]
      ensures err <==> secret.None?
      ensures if err then w.s.inst == Idle else InstAt(w.s, CompleteWrite) && kmd.Value() == w.s.inst.kmd
      ensures !err ==> kmd.status == old(kmd.status).(
                phase := Phase.Completed, ready := true, secretRef := secret, karmadaVersion := "v1.5.0",
                kubernetesVersion := if kubeVersion == "" then old(kmd.status.kubernetesVersion) else kubeVersion)
    {
      w.Others(TheInstaller);
      w.Perform(InstComplete(secret, kubeVersion));
      if secret.None? {
        return true;
      }
      Record(kmd, secret.value, kubeVersion);
      err := false;
    }

    method Install(kmd: KarmadaDeployment, secret: Option<SecretRef>, kubeVersion: string, ghost before: Installer)
      returns (err: bool, ghost i: Installer)
      requires w.Valid() && before.Syncing? && w.s.inst == EnterInstall(before) && kmd.Value() == before.kmd
      modifies w, kmd`status
      ensures w.Valid() && old(w.run) <= w.run
      ensures if err then w.s.inst == Idle else i.Syncing? && w.s.inst == Finish(i) && kmd.Value() == i.kmd
      ensures InstallTrace(old(kmd.status.phase), old(w.own), w.own, err, secret, kubeVersion)
    {
      i := before;
      match kmd.status.phase {
        case NoPhase | Preflight | Deploying => err, i := RunPhases(kmd, secret, kubeVersion, before);
        case Completed => err := false;
        case _ => err := false;
      }
    }

    /** The three phases, each only if the one before it succeeded. */
    method RunPhases(kmd: KarmadaDeployment, secret: Option<SecretRef>, kubeVersion: string, ghost before: Installer)
      returns (err: bool, ghost i: Installer)
      requires w.Valid() && before.Syncing? && kmd.Value() == before.kmd
      requires w.s.inst == SetPhase(before, Phase.Preflight, PreflightWrite)
      modifies w, kmd`status
      ensures w.Valid() && old(w.run) <= w.run
      ensures if err then w.s.inst == Idle else i.Syncing? && w.s.inst == Finish(i) && kmd.Value() == i.kmd
      ensures PhasesTrace(old(w.own), w.own, err, secret, kubeVersion)
    {
      i := before;
      ghost var was := w.own;
      err := Preflight(kmd, before);
      ghost var p := w.own;
      if err {
        return;
      }
      err := Deploy(kmd);
      ghost var d := w.own;
      if !err {
        err, i := Completed(kmd, secret, kubeVersion);
      }
      PartsInstall(was, p, d, w.own, err, secret, kubeVersion);
    }
  }

  /** The secret is collected; if there is one the completed status is written. */
  predicate CompletedTrace(was: seq<Event>, now: seq<Event>, err: bool,
                           secret: Option<SecretRef>, kubeVersion: string)
  {
    var first := was + [InstComplete(secret, kubeVersion)];
    if secret.None? then err && now == first else Wrote(first, now) && now[|was| + 1].ok == !err
  }

  /** In the phases that install: the parts one after the other, up to the first that fails; in any other
      phase nothing at all. */
  ghost predicate InstallTrace(phase: Phase, was: seq<Event>, now: seq<Event>, err: bool,
                               secret: Option<SecretRef>, kubeVersion: string)
  {
    if !(phase.NoPhase? || phase.Preflight? || phase.Deploying?) then now == was && !err
    else PhasesTrace(was, now, err, secret, kubeVersion)
  }

  ghost predicate PhasesTrace(was: seq<Event>, now: seq<Event>, err: bool,
                              secret: Option<SecretRef>, kubeVersion: string)
  {
    (err && PreflightTrace(was, now, true)) || AfterPreflight(was, now, err, secret, kubeVersion)
  }

  ghost predicate AfterPreflight(was: seq<Event>, now: seq<Event>, err: bool,
                                 secret: Option<SecretRef>, kubeVersion: string)
  {
    exists p, d :: Parts(was, p, d, now, err, secret, kubeVersion)
  }

  predicate Parts(was: seq<Event>, p: seq<Event>, d: seq<Event>, now: seq<Event>, err: bool,
                  secret: Option<SecretRef>, kubeVersion: string)
  {
    && PreflightTrace(was, p, false)
    && if d == now then err && DeployTrace(p, d, true)
       else DeployTrace(p, d, false) && CompletedTrace(d, now, err, secret, kubeVersion)
  }

  lemma PartsInstall(was: seq<Event>, p: seq<Event>, d: seq<Event>, now: seq<Event>, err: bool,
                     secret: Option<SecretRef>, kubeVersion: string)
    requires Parts(was, p, d, now, err, secret, kubeVersion)
    ensures AfterPreflight(was, now, err, secret, kubeVersion)
  {
  }

  lemma InstallFails(phase: Phase, was: seq<Event>, now: seq<Event>, secret: Option<SecretRef>, kubeVersion: string)
    requires InstallTrace(phase, was, now, true, secret, kubeVersion)
    ensures was <= now && FailedSince(now, |was|)
  {
    if PreflightTrace(was, now, true) {
      PreflightFails(was, now);
    } else {
      var p, d :| Parts(was, p, d, now, true, secret, kubeVersion);
      if d == now {
        DeployFails(p, d);
        FailedGrows(d, now, |p|, |was|);
      } else {
        CompletedFails(d, now, secret, kubeVersion);
        DeployGrows(p, d);
        FailedGrows(now, now, |d|, |was|);
      }
    }
  }

  lemma PreflightFails(was: seq<Event>, now: seq<Event>)
    requires PreflightTrace(was, now, true)
    ensures FailedSince(now, |was|)
  {
    if |now| == |was| + 1 {
      JustFailed(now, |was|);
    } else {
      assert now[|was| + 1] == InstFetch(false);
      assert Fails(now[|was| + 1]);
    }
  }

  lemma DeployGrows(was: seq<Event>, now: seq<Event>)
    requires DeployTrace(was, now, false)
    ensures was <= now
  {
  }

  lemma DeployFails(was: seq<Event>, now: seq<Event>)
    requires DeployTrace(was, now, true)
    ensures was <= now && FailedSince(now, |was|)
  {
    if |now| == |was| + 1 {
      JustFailed(now, |was|);
    } else {
      assert Fails(now[|was| + 1]);
    }
  }

  lemma CompletedFails(was: seq<Event>, now: seq<Event>, secret: Option<SecretRef>, kubeVersion: string)
    requires CompletedTrace(was, now, true, secret, kubeVersion)
    ensures was <= now && FailedSince(now, |was|)
  {
    JustFailed(now, |was|);
  }

  // ---- uninstallWorkflow ----

  /** Returns nil when the release is already gone, else whatever deleting its namespace returned. */
  method Uninstall(w: Cluster, kmd: KarmadaDeployment) returns (err: bool, ghost r: UninstallResult)
    requires w.Valid() && InstAt(w.s, Uninstalling) && kmd.Value() == w.s.inst.kmd
    requires InstallerAvailable(kmd.spec)
    modifies w
    ensures w.Valid() && old(w.run) <= w.run && w.own == old(w.own) + [InstUninstall(r)]
    ensures if err then w.s.inst == Idle
            else w.s.inst.Syncing? && w.s.inst == old(w.s.inst).(pc := DropRead, uninstalled := true)
    ensures !r.NoInstaller? && (!err <==> r.Ran? && (!r.found || r.nsDeleted))
  {
    w.Others(TheInstaller);
    var lookup: bool, found: bool, released: bool, nsDeleted: bool := *, *, *, *;
    if !lookup {
      w.Perform(InstUninstall(LookupFailed));
      return true, LookupFailed;
    }
    if w.s.helm.release.None? {
      found := false;
    }
    w.Perform(InstUninstall(Ran(found, released, nsDeleted)));
    err, r := found && !nsDeleted, Ran(found, released, nsDeleted);
  }

  // ---- InstallerFactory ----

  /** Whether an installer for the object's mode can be built; unknown modes never can. */
  method GetInstaller(spec: Spec) returns (ok: bool)
    ensures ok ==> spec.mode in {"", "Helm"}
  {
    if spec.mode == "" || spec.mode == "Helm" {
      ok := *;
    } else {
      ok := false;
    }
  }

  /** Without an installer the failed mode is written, else the workflow runs. */
  ghost predicate SyncInstallTrace(phase: Phase, was: seq<Event>, now: seq<Event>, err: bool,
                                   secret: Option<SecretRef>, kubeVersion: string)
  {
    && was < now && now[|was|].InstChoose?
    && if now[|was|].ok then InstallTrace(phase, was + [InstChoose(true)], now, err, secret, kubeVersion)
       else err && Wrote(was + [InstChoose(false)], now)
  }

  /** The copy shows a failed install mode in an otherwise unchanged status, and so does the stored object if the
      write that followed was applied. */
  ghost predicate RecordsFailedMode(w: Cluster, was: seq<Event>, before: Status, after: Status)
    reads w
  {
    && after == before.(conditions := after.conditions) && IsInstallModeFailed(after)
    && |w.own| == |was| + 2 && w.own[|was| + 1].InstStatus?
    && (w.own[|was| + 1].applied ==> w.s.api.h != [] && IsInstallModeFailed(Last(w.s.api.h).status))
  }

  /** SyncWithAction for the install action, reached with the generation observed. */
  method SyncInstall(w: Cluster, kmd: KarmadaDeployment, secret: Option<SecretRef>, kubeVersion: string)
    returns (err: bool, ghost i: Installer)
    requires w.Valid() && InstAt(w.s, Choosing) && kmd.Value() == w.s.inst.kmd
    modifies w, kmd`status
    ensures w.Valid() && old(w.run) <= w.run
    ensures SyncInstallTrace(old(kmd.status.phase), old(w.own), w.own, err, secret, kubeVersion)
    ensures if err then w.s.inst == Idle else i.Syncing? && w.s.inst == Finish(i) && kmd.Value() == i.kmd
    ensures old(kmd.spec.mode) !in {"", "Helm"} ==> !w.own[|old(w.own)|].ok
    ensures !w.own[|old(w.own)|].ok ==> RecordsFailedMode(w, old(w.own), old(kmd.status), kmd.status)
  {
    w.Others(TheInstaller);
    ghost var j := w.s.inst;
    i := j;
    var workflow := new InstallWorkflow(w);
    var ok := GetInstaller(kmd.spec);
    w.Perform(InstChoose(ok));
    ghost var chosen := w.own;
    if !ok {
      workflow.FailWith(kmd, InstallModeFailed, j);
      return true, i;
    }
    ghost var phase := kmd.status.phase;
    err, i := workflow.Install(kmd, secret, kubeVersion, j);
    InstallGrows(phase, chosen, w.own, err, secret, kubeVersion);
  }

  lemma InstallGrows(phase: Phase, was: seq<Event>, now: seq<Event>, err: bool,
                     secret: Option<SecretRef>, kubeVersion: string)
    requires InstallTrace(phase, was, now, err, secret, kubeVersion)
    ensures was <= now
  {
    if !PreflightTrace(was, now, true) && (phase.NoPhase? || phase.Preflight? || phase.Deploying?) {
      var p, d :| Parts(was, p, d, now, err, secret, kubeVersion);
      assert p <= d <= now;
    }
  }

  /** SyncWithAction for the uninstall action. */
  method SyncUninstall(w: Cluster, kmd: KarmadaDeployment) returns (err: bool, ghost r: UninstallResult)
    requires w.Valid() && InstAt(w.s, Uninstalling) && kmd.Value() == w.s.inst.kmd
    modifies w, kmd`status
    ensures w.Valid() && old(w.run) <= w.run
    ensures if err then w.s.inst == Idle
            else w.s.inst.Syncing? && w.s.inst == old(w.s.inst).(pc := DropRead, uninstalled := true)
    ensures !err <==> r.Ran? && (!r.found || r.nsDeleted)
    ensures if r.NoInstaller?
            then Wrote(old(w.own) + [InstUninstall(r)], w.own)
                 && RecordsFailedMode(w, old(w.own), old(kmd.status), kmd.status)
            else w.own == old(w.own) + [InstUninstall(r)]
    ensures old(kmd.spec.mode) !in {"", "Helm"} ==> r.NoInstaller?
  {
    ghost var j := w.s.inst;
    var ok := GetInstaller(kmd.spec);
    if !ok {
      w.Perform(InstUninstall(NoInstaller));
      var workflow := new InstallWorkflow(w);
      workflow.FailWith(kmd, InstallModeFailed, j);
      return true, NoInstaller;
    }
    err, r := Uninstall(w, kmd);
  }

  /** A new generation resets the conditions to Progressing; whether that is stored does not matter. */
  method Observe(w: Cluster, kmd: KarmadaDeployment, ghost i: Installer)
    requires w.Valid() && i.Syncing? && w.s.inst == EnterSync(i) && kmd.Value() == i.kmd
    modifies w, kmd`status
    ensures w.Valid() && old(w.run) <= w.run
    ensures InstAt(w.s, Choosing) && kmd.Value() == w.s.inst.kmd && w.s.inst.kmd == EnterSync(i).kmd
    ensures if old(kmd.status.observedGeneration) == kmd.generation then w.own == old(w.own)
            else Wrote(old(w.own), w.own)
  {
    if kmd.status.observedGeneration != kmd.generation {
      kmd.status := kmd.status.(observedGeneration := kmd.generation);
      kmd.status := MarkProgressing(kmd.status);
      var _, _ := SetStatus(w, TheInstaller, kmd.status);
    }
  }

  /** Observes the generation, runs the workflow, records Ready. */
  method Sync(w: Cluster, kmd: KarmadaDeployment, secret: Option<SecretRef>, kubeVersion: string, ghost i: Installer)
    returns (err: bool)
    requires w.Valid() && i.Syncing? && w.s.inst == EnterSync(i) && kmd.Value() == i.kmd
    modifies w, kmd`status
    ensures w.Valid() && w.s.inst == Idle && old(w.run) <= w.run && old(w.own) <= w.own
    ensures !err ==> IsReadyTrue(Last(w.s.api.h).status) && Last(w.s.api.h).status.phase == Phase.Completed
    ensures !err ==> Last(w.s.api.h).status.observedGeneration == old(kmd.generation)
    ensures err ==> FailedSince(w.own, |old(w.own)|)
  {
    Observe(w, kmd, i);
    ghost var j;
    ghost var phase, observed := kmd.status.phase, w.own;
    err, j := SyncInstall(w, kmd, secret, kubeVersion);
    SyncInstallGrows(phase, observed, w.own, err, secret, kubeVersion);
    if err {
      FailedGrows(w.own, w.own, |observed|, |old(w.own)|);
      return;
    }
    err := RecordReady(w, kmd, j);
    if err {
      JustFailed(w.own, |old(w.own)|);
    }
  }

  /** The last step of Sync. */
  method RecordReady(w: Cluster, kmd: KarmadaDeployment, ghost i: Installer) returns (err: bool)
    requires w.Valid() && i.Syncing? && w.s.inst == Finish(i) && kmd.Value() == i.kmd
    modifies w, kmd`status
    ensures w.Valid() && w.s.inst == Idle && old(w.run) <= w.run
    ensures Wrote(old(w.own), w.own) && w.own[|old(w.own)|].ok == !err
    ensures !err ==> IsReadyTrue(Last(w.s.api.h).status) && Last(w.s.api.h).status.phase == Phase.Completed
    ensures !err ==> Last(w.s.api.h).status.observedGeneration == kmd.generation
  {
    ReadyIsObserved(w);
    kmd.status := MarkReady(kmd.status);
    ghost var a;
    err, a := SetStatus(w, TheInstaller, kmd.status);
    if !err {
      ReadyIsRecorded(w, i.kmd.status);
    }
  }

  lemma SyncInstallGrows(phase: Phase, was: seq<Event>, now: seq<Event>, err: bool,
                         secret: Option<SecretRef>, kubeVersion: string)
    requires SyncInstallTrace(phase, was, now, err, secret, kubeVersion)
    ensures was <= now && (err ==> FailedSince(now, |was|))
  {
    if now[|was|].ok {
      if err {
        InstallFails(phase, was + [InstChoose(true)], now, secret, kubeVersion);
        FailedGrows(now, now, |was| + 1, |was|);
      }
    } else {
      assert Fails(now[|was|]);
    }
  }

  lemma ReadyIsObserved(w: Cluster)
    requires w.Valid() && InstAt(w.s, ReadyWrite)
    ensures w.s.inst.kmd.status.observedGeneration == w.s.inst.kmd.generation
  {
    w.ValidReaches();
    WorkingCopies.ReachableCopy(w.c, w.s);
  }

  lemma ReadyIsRecorded(w: Cluster, st: Status)
    requires w.Valid() && Last(w.s.api.h).status == MarkReady(st)
    ensures IsReadyTrue(Last(w.s.api.h).status) && Last(w.s.api.h).status.phase == Phase.Completed
  {
    w.ValidReaches();
    Theorems.EveryVersionIsCoherent(w.c, w.s);
    SetIsPresent(st.conditions, Condition(Ready, ConditionTrue, ReconciliationSucceeded));
  }

  // ---- Controller ----

  /** The in-place half of initDefaultValues; `suffix` is the random part of a generated namespace. */
  method FillDefaults(kmd: KarmadaDeployment, name: string, suffix: string) returns (isUpdate: bool)
    requires !kmd.deleting
    modifies kmd
    ensures kmd.Value() == Defaulted(name, old(kmd.Value()), suffix)
    ensures FillsGaps(name, old(kmd.Value()), kmd.Value())
    ensures isUpdate <==> old(kmd.cascade).None? || InstallerFinalizer !in old(kmd.finalizers)
  {
    isUpdate := false;
    if kmd.cascade.None? {
      kmd.cascade := Some("false");
      isUpdate := true;
    }
    if kmd.spec.namespace == "" {
      kmd.spec := kmd.spec.(namespace := name + "-" + suffix);
    }
    if kmd.spec.serviceType == "" {
      kmd.spec := kmd.spec.(serviceType := "ClusterIP");
    }
    if kmd.spec.images.None? {
      kmd.spec := kmd.spec.(images := Some(Images("", DEFAULT_KARMADA_VERSION, "", "", "")));
    } else if kmd.spec.images.value.karmadaVersion == "" {
      kmd.spec := kmd.spec.(images := Some(kmd.spec.images.value.(karmadaVersion := DEFAULT_KARMADA_VERSION)));
    }
    assert InstallerFinalizer in kmd.finalizers ==> kmd.finalizers == kmd.finalizers + {InstallerFinalizer};
    if InstallerFinalizer !in kmd.finalizers && !kmd.deleting {
      kmd.finalizers := kmd.finalizers + {InstallerFinalizer};
      isUpdate := true;
    }
  }

  /** Fills in the defaults and updates the object when the label or the finalizer was missing. `i` is
      the protocol's view of the sync with the defaults in place. */
  method InitDefaultValues(w: Cluster, kmd: KarmadaDeployment, suffix: string, ghost i: Installer)
    returns (err: bool, ghost applied: bool)
    requires w.Valid() && !kmd.deleting && i.Syncing? && i.kmd == Defaulted(w.c.name, kmd.Value(), suffix)
    requires w.s.inst == if NeedsUpdate(kmd.Value()) then At(i, Defaulting) else EnterSync(i)
    modifies w, kmd
    ensures w.Valid() && old(w.run) <= w.run
    ensures if err then w.s.inst == Idle
            else kmd.Value() == i.kmd && w.s.inst == EnterSync(i)
    ensures kmd.generation == old(kmd.generation)
    ensures if old(NeedsUpdate(kmd.Value())) then w.own == old(w.own) + [InstDefault(applied, !err)]
            else w.own == old(w.own) && !err
  {
    var isUpdate := FillDefaults(kmd, w.c.name, suffix);
    err, applied := false, false;
    if isUpdate {
      w.Others(TheInstaller);
      var done, reply := w.Decide(w.s.inst.rv);
      w.Perform(InstDefault(done, reply.Ok?));
      err, applied := !reply.Ok?, done;
    }
  }

  /** The lister has no such object or no installer finalizer on it, or the current version lost it. */
  predicate FinalizerGone(s: State) {
    && s.api.h != []
    && (|| Lister(s.api).None?
        || InstallerFinalizer !in Lister(s.api).value.finalizers
        || InstallerFinalizer !in Last(s.api.h).finalizers)
  }

  /** Reads and updates alternate, and there are at most `attempts` updates. */
  predicate DropTrace(was: seq<Event>, now: seq<Event>, attempts: nat) {
    && was <= now && |now| <= |was| + 2 * attempts
    && forall k :: |was| <= k < |now| ==> if (k - |was|) % 2 == 0 then now[k].InstDropRead? else now[k].InstDropWrite?
  }

  lemma DropTraceOne(was: seq<Event>, now: seq<Event>, attempts: nat, write: Event)
    requires DropTrace(was, now, attempts) && |now| == |was| + 2 * attempts && write.InstDropWrite?
    ensures DropTrace(was, now + [InstDropRead], attempts + 1)
    ensures DropTrace(was, now + [InstDropRead] + [write], attempts + 1)
  {
  }

  lemma DropRemoves(c: Config, s: State, applied: bool, ok: bool, again: bool)
    requires Reachable(c, s) && Enabled(c, s, InstDropWrite(applied, ok, again))
    ensures var t := Do(c, s, InstDropWrite(applied, ok, again));
            (applied && !again ==> FinalizerGone(t)) && if again then InstAt(t, DropRead) else t.inst == Idle
  {
    if applied && !again {
      Theorems.DropIsSurgical(c, s, ok);
    }
  }

  /** The update of an attempt; another attempt follows a conflict, unless this is the last. */
  method UpdateDrop(w: Cluster, last: bool) returns (done: bool, err: bool, ghost write: Event, ghost reply: Reply)
    requires w.Valid() && w.s.inst.Syncing? && w.s.inst.pc.DropWrite?
    modifies w
    ensures w.Valid() && old(w.run) <= w.run && write.InstDropWrite? && w.own == old(w.own) + [write]
    ensures if done then w.s.inst == Idle else InstAt(w.s, DropRead) && !last
    ensures done && !err ==> FinalizerGone(w.s)
    ensures done && err ==> Fails(write)
    ensures !done ==> reply.Conflict?
    ensures done && reply.Conflict? ==> last
  {
    w.Others(TheInstaller);
    var applied, answer := w.Decide(w.s.inst.pc.newRv);
    reply := answer;
    var again := answer.Conflict? && !last;
    w.ValidReaches();
    DropRemoves(w.c, w.s, applied, answer.Ok?, again);
    w.Perform(InstDropWrite(applied, answer.Ok?, again));
    done, err, write := !again, !answer.Ok?, InstDropWrite(applied, answer.Ok?, again);
  }

  /** One attempt: read the lister, and update what it shows. */
  method TryDrop(w: Cluster, last: bool) returns (done: bool, err: bool, ghost write: Event, ghost reply: Reply)
    requires w.Valid() && InstAt(w.s, DropRead)
    modifies w
    ensures w.Valid() && old(w.run) <= w.run && write.InstDropWrite?
    ensures w.own in {old(w.own) + [InstDropRead], old(w.own) + [InstDropRead] + [write]}
    ensures if done then w.s.inst == Idle
            else InstAt(w.s, DropRead) && !last && w.own == old(w.own) + [InstDropRead] + [write]
    ensures done && !err ==> FinalizerGone(w.s)
    ensures done && err ==> w.own == old(w.own) + [InstDropRead] + [write] && Fails(write)
    ensures done && reply.Conflict? ==> last && w.own == old(w.own) + [InstDropRead] + [write]
  {
    w.Others(TheInstaller);
    w.Perform(InstDropRead);
    if w.s.inst.Idle? {
      return true, false, InstDropWrite(false, false, false), Ok;
    }
    done, err, write, reply := UpdateDrop(w, last);
  }

  /** The retry loop that drops the installer finalizer, reading the lister on every attempt. */
  method DropFinalizer(w: Cluster) returns (err: bool, ghost reply: Reply)
    requires w.Valid() && InstAt(w.s, DropRead)
    modifies w
    ensures w.Valid() && w.s.inst == Idle && old(w.run) <= w.run
    ensures !err ==> FinalizerGone(w.s)
    ensures DropTrace(old(w.own), w.own, 5) && (err ==> FailedSince(w.own, |old(w.own)|))
    ensures reply.Conflict? ==> |w.own| == |old(w.own)| + 10
  {
    var attempt := 0;
    while true
      invariant w.Valid() && InstAt(w.s, DropRead) && old(w.run) <= w.run && attempt < MAX_UPDATE_ATTEMPTS
      invariant DropTrace(old(w.own), w.own, attempt) && |w.own| == |old(w.own)| + 2 * attempt
      decreases MAX_UPDATE_ATTEMPTS - attempt
    {
      ghost var own, write := w.own, InstDropRead;
      var done;
      done, err, write, reply := TryDrop(w, attempt + 1 == MAX_UPDATE_ATTEMPTS);
      DropTraceOne(old(w.own), own, attempt, write);
      if done {
        if err {
          JustFailed(w.own, |old(w.own)|);
        }
        return;
      }
      attempt := attempt + 1;
    }
  }

  /** The deletion branch of syncHandler. */
  method SyncDeleting(w: Cluster, kmd: KarmadaDeployment) returns (err: bool)
    requires w.Valid() && w.s.inst.Syncing? && kmd.Value() == w.s.inst.kmd
    requires w.s.inst.pc == if NeedsUninstall(kmd.Value()) then Uninstalling else DropRead
    modifies w, kmd`status
    ensures w.Valid() && w.s.inst == Idle && old(w.run) <= w.run && old(w.own) <= w.own
    ensures !err ==> FinalizerGone(w.s)
    ensures old(NeedsUninstall(kmd.Value())) <==> old(w.own) < w.own && w.own[|old(w.own)|].InstUninstall?
    ensures err ==> FailedSince(w.own, |old(w.own)|)
  {
    if !IsInstallModeFailed(kmd.status) && !IsConditionEmpty(kmd.status) {
      if kmd.cascade == Some("false") {
        ghost var r;
        err, r := SyncUninstall(w, kmd);
        if err {
          assert Fails(w.own[|old(w.own)|]);
          return;
        }
      }
    }
    ghost var n := |w.own|;
    ghost var reply;
    err, reply := DropFinalizer(w);
    if err {
      FailedGrows(w.own, w.own, n, |old(w.own)|);
    }
  }

  /** The rest of syncHandler, for an object that is not deleting. */
  method SyncLive(w: Cluster, kmd: KarmadaDeployment, suffix: string, secret: Option<SecretRef>, kubeVersion: string,
                  ghost i: Installer)
    returns (err: bool)
    requires w.Valid() && !kmd.deleting && i.Syncing? && i.kmd == Defaulted(w.c.name, kmd.Value(), suffix)
    requires w.s.inst == if NeedsUpdate(kmd.Value()) then At(i, Defaulting) else EnterSync(i)
    modifies w, kmd
    ensures w.Valid() && w.s.inst == Idle && old(w.run) <= w.run && old(w.own) <= w.own
    ensures !err ==> IsReadyTrue(Last(w.s.api.h).status) && Last(w.s.api.h).status.phase == Phase.Completed
    ensures !err ==> Last(w.s.api.h).status.observedGeneration == old(kmd.generation)
    ensures err ==> FailedSince(w.own, |old(w.own)|)
  {
    ghost var applied;
    err, applied := InitDefaultValues(w, kmd, suffix, i);
    if err {
      JustFailed(w.own, |old(w.own)|);
      return;
    }
    ghost var n := |w.own|;
    err := Sync(w, kmd, secret, kubeVersion, i);
    if err {
      FailedGrows(w.own, w.own, n, |old(w.own)|);
    }
  }

  /** Reads the lister and copies what it shows. */
  method Begin(w: Cluster, suffix: string) returns (kmd: KarmadaDeployment?, ghost a: Store)
    requires w.Valid() && w.s.inst == Idle && (w.c.ryow ==> w.s.api.own <= w.s.api.seen)
    modifies w
    ensures w.Valid() && old(w.run) <= w.run && w.s.api == a && a.own == old(w.s.api.own)
    ensures if kmd == null then w.s.inst == Idle && w.own == old(w.own) && Lister(a).None?
            else fresh(kmd) && Lister(a) == Some(kmd.Value()) && a.seen > 0
                 && w.s.inst == StartSync(w.c, a, kmd.Value(), suffix) && w.own == old(w.own) + [InstStart(suffix)]
  {
    w.Others(TheInstaller);
    a := w.s.api;
    var found := Lister(w.s.api);
    kmd := null;
    if found.Some? {
      kmd := new KarmadaDeployment.DeepCopy(found.value);
      w.Perform(InstStart(suffix));
    }
  }

  /** One sync of the key. `suffix`, `secret` and `kubeVersion` are what randomness and the destination
      cluster will supply. With c.ryow the caller promises a lister that includes the own writes. */
  method SyncHandler(w: Cluster, suffix: string, secret: Option<SecretRef>, kubeVersion: string)
    returns (err: bool, ghost o: Option<Object>)
    requires w.Valid() && w.s.inst == Idle && (w.c.ryow ==> w.s.api.own <= w.s.api.seen)
    modifies w
    ensures w.Valid() && w.s.inst == Idle && old(w.run) <= w.run && old(w.own) <= w.own
    ensures o.None? ==> !err && w.own == old(w.own) && Lister(w.s.api).None? && w.s.api.own == old(w.s.api.own)
    ensures o.Some? ==>
              o.value in w.s.api.h && |w.own| > |old(w.own)| && w.own[|old(w.own)|] == InstStart(suffix)
    ensures err ==> FailedSince(w.own, |old(w.own)|)
    ensures !err && o.Some? && !o.value.deleting ==>
              && IsReadyTrue(Last(w.s.api.h).status) && Last(w.s.api.h).status.phase == Phase.Completed
              && Last(w.s.api.h).status.observedGeneration == o.value.generation
    ensures !err && o.Some? && o.value.deleting ==> FinalizerGone(w.s)
  {
    var kmd;
    ghost var a;
    kmd, a := Begin(w, suffix);
    o := Lister(a);
    if kmd == null {
      return false, o;
    }
    ghost var begun, n := w.run, |w.own|;
    assert Exec(w.c, w.s0, begun) == Some(w.s);
    if kmd.deleting {
      err := SyncDeleting(w, kmd);
    } else {
      ghost var i := Syncing(DropRead, Defaulted(w.c.name, kmd.Value(), suffix), a.seen - 1, |a.h|, false, 0);
      err := SyncLive(w, kmd, suffix, secret, kubeVersion, i);
    }
    RunsGrow(w.c, w.s0, begun, w.run);
    if err {
      FailedGrows(w.own, w.own, n, |old(w.own)|);
    }
  }
}
