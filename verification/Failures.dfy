/** How a failed installation is recorded, and what the record means for a later deletion. */
module Failures {
  import opened Api
  import opened Protocol
  import opened Invariants
  import opened Steps

  // ---- Under which reason ----

  /** The failures of a sync that are recorded in the status. */
  predicate RecordsFailure(e: Event) {
    match e
    case InstChoose(ok) => !ok
    case InstUninstall(r) => r.NoInstaller?
    case InstFetch(ok) => !ok
    case InstHelm(r) => r.ValuesError? || (r.Issued? && !r.ok)
    case _ => false
  }

  /** Only a missing installer, of an installation or of a removal, counts as a failed install mode. */
  function ReasonFor(e: Event): Reason
    requires RecordsFailure(e)
  {
    match e
    case InstChoose(_) => InstallModeFailed
    case InstUninstall(_) => InstallModeFailed
    case InstFetch(_) => HelmChartFailed
    case InstHelm(r) => if r.ValuesError? then HelmInitFailed else HelmReleaseFailed
  }

  /** A sync gets to its failure write exactly by one of these events, with the one condition Ready=False for
      the reason of that event, in a status otherwise as it was. */
  lemma FailuresAreRecorded(c: Config, s: State, e: Event)
    requires Inv(c, s) && Enabled(c, s, e) && OfInstaller(e)
    ensures InstAt(Do(c, s, e), FailWrite) <==> RecordsFailure(e)
    ensures RecordsFailure(e) ==>
              s.inst.Syncing? && Do(c, s, e).inst.kmd ==
              s.inst.kmd.(status := s.inst.kmd.status.(conditions := [Condition(Ready, ConditionFalse, ReasonFor(e))]))
  {
    if RecordsFailure(e) {
      SettersKeepInv(s.inst.kmd.status, ReasonFor(e));
    }
  }

  // ---- Where a failed install mode comes from ----

  /** GetInstaller failed. */
  predicate NoInstallerFound(e: Event) {
    e == InstChoose(false) || e == InstUninstall(NoInstaller)
  }

  ghost predicate NobodyHolds(workers: seq<Worker>) {
    forall k :: 0 <= k < |workers| && workers[k].pc.WHas? ==> !IsInstallModeFailed(workers[k].pc.status)
  }

  /** No version, no working copy and no worker's status shows a failed install mode. */
  ghost predicate Unfailed(s: State) {
    && (forall i :: 0 <= i < |s.api.h| ==> !IsInstallModeFailed(s.api.h[i].status))
    && (s.inst.Syncing? ==> !IsInstallModeFailed(s.inst.kmd.status))
    && NobodyHolds(s.sums.workers)
  }

  lemma ProgressingIsUnfailed(st: Status)
    ensures !IsInstallModeFailed(MarkProgressing(st))
  {
    assert MarkProgressing(st).conditions == [Condition(Ready, ConditionUnknown, Progressing)];
  }

  lemma SyncIsUnfailed(i: Installer)
    requires i.Syncing? && StatusInv(i.kmd.status) && !IsInstallModeFailed(i.kmd.status)
    ensures !IsInstallModeFailed(EnterSync(i).kmd.status) && !IsInstallModeFailed(EnterInstall(i).kmd.status)
    ensures !IsInstallModeFailed(Finish(i).kmd.status)
  {
    ProgressingIsUnfailed(i.kmd.status.(observedGeneration := i.kmd.generation));
    SettersKeepInv(i.kmd.status, Progressing);
  }

  lemma CopyStaysUnfailed(c: Config, s: State, e: Event)
    requires Inv(c, s) && Unfailed(s) && Enabled(c, s, e) && OfInstaller(e) && !NoInstallerFound(e)
    ensures Do(c, s, e).inst.Syncing? ==> !IsInstallModeFailed(Do(c, s, e).inst.kmd.status)
  {
    if e.InstStart? {
      var o := Lister(s.api).value;
      var i := Syncing(DropRead, Defaulted(c.name, o, e.suffix), s.api.seen - 1, |s.api.h|, false, 0);
      SyncIsUnfailed(i);
    } else if RecordsFailure(e) {
      SettersKeepInv(s.inst.kmd.status, ReasonFor(e));
    } else {
      SyncIsUnfailed(s.inst);
    }
  }

  lemma OthersStayUnfailed(c: Config, s: State, e: Event)
    requires Unfailed(s) && Enabled(c, s, e) && (OfUser(e) || OfCache(e))
    ensures Unfailed(Do(c, s, e))
  {
  }

  lemma SummaryStaysUnfailed(c: Config, s: State, e: Event)
    requires Unfailed(s) && Enabled(c, s, e) && OfSummary(e)
    ensures Unfailed(Do(c, s, e))
  {
  }

  lemma WorkersStayUnfailed(c: Config, s: State, e: Event)
    requires Unfailed(s) && Enabled(c, s, e) && OfWorker(e)
    ensures Unfailed(Do(c, s, e))
  {
  }

  lemma InstallerStaysUnfailed(c: Config, s: State, e: Event)
    requires Inv(c, s) && Unfailed(s) && Enabled(c, s, e) && OfInstaller(e) && !NoInstallerFound(e)
    ensures Unfailed(Do(c, s, e))
  {
    CopyStaysUnfailed(c, s, e);
  }

  lemma StaysUnfailed(c: Config, s: State, e: Event)
    requires Inv(c, s) && Unfailed(s) && Enabled(c, s, e) && !NoInstallerFound(e)
    ensures Unfailed(Do(c, s, e))
  {
    if OfInstaller(e) {
      InstallerStaysUnfailed(c, s, e);
    } else if OfWorker(e) {
      WorkersStayUnfailed(c, s, e);
    } else if OfSummary(e) {
      SummaryStaysUnfailed(c, s, e);
    } else {
      OthersStayUnfailed(c, s, e);
    }
  }

  lemma {:induction false} WithoutFailedChoice(c: Config, s: State, es: seq<Event>)
    requires Inv(c, s) && Unfailed(s) && Exec(c, s, es).Some? && forall e :: e in es ==> !NoInstallerFound(e)
    ensures Unfailed(Exec(c, s, es).value)
    decreases |es|
  {
    if es == [] {
    } else {
      assert es[0] in es;
      StepInv(c, s, es[0]);
      StaysUnfailed(c, s, es[0]);
      WithoutFailedChoice(c, Do(c, s, es[0]), es[1..]);
    }
  }

  /** A version shows a failed install mode only if GetInstaller has failed in the run: a failed download or a
      failed helm install is never taken for one. */
  lemma FailedModeHasACause(c: Config, s0: State, es: seq<Event>, i: nat)
    requires Init(s0) && Exec(c, s0, es).Some? && i < |Exec(c, s0, es).value.api.h|
    requires IsInstallModeFailed(Exec(c, s0, es).value.api.h[i].status)
    ensures exists e :: e in es && NoInstallerFound(e)
  {
    if forall e :: e in es ==> !NoInstallerFound(e) {
      InitInv(c, s0);
      WithoutFailedChoice(c, s0, es);
    }
  }

  // ---- What a deletion makes of it ----

  /** A sync that reads a deleting version uninstalls first exactly if the cascade label is "false", some
      condition was recorded, and none of them is a failed install mode. */
  lemma DeletionDecision(c: Config, s: State, suffix: string)
    requires Enabled(c, s, InstStart(suffix)) && Lister(s.api).value.deleting
    ensures var o, t := Lister(s.api).value, Do(c, s, InstStart(suffix));
            && t.inst.Syncing? && t.inst.pc in {Uninstalling, DropRead}
            && (t.inst.pc.Uninstalling? <==>
                  && o.cascade == Some("false") && o.status.conditions != []
                  && Condition(Ready, ConditionFalse, InstallModeFailed) !in o.status.conditions)
  {
  }

  /** So an object whose install mode failed can be deleted without any installer: its next three steps drop
      the finalizer, and the object is gone. */
  lemma FailedModeIsDeletable(c: Config, s: State, suffix: string)
    requires Reachable(c, s) && Enabled(c, s, InstStart(suffix)) && s.api.seen == |s.api.h|
    requires var o := Last(s.api.h);
             o.deleting && o.finalizers == {InstallerFinalizer} && IsInstallModeFailed(o.status)
    ensures var r := Exec(c, s, [InstStart(suffix), InstDropRead, InstDropWrite(true, true, false)]);
            r.Some? && !Exists(r.value.api)
  {
    var e, f, g := InstStart(suffix), InstDropRead, InstDropWrite(true, true, false);
    var t := Do(c, s, e);
    var u := Do(c, t, f);
    ExecOne(c, u, g);
    assert [e, f, g][1..] == [f, g] && [f, g][1..] == [g];
    assert Last(Do(c, u, g).api.h).finalizers == {};
  }

  /** Recorded under any other reason it could not: without an installer the uninstall fails every time. */
  lemma NoInstallerNoUninstall(c: Config, s: State, r: UninstallResult)
    requires Enabled(c, s, InstUninstall(r)) && s.inst.kmd.spec.mode !in {"", "Helm"}
    ensures r.NoInstaller? && InstAt(Do(c, s, InstUninstall(r)), FailWrite)
  {
  }
}
