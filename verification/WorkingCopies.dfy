/** What a sync of the installer works on: the version it read, the defaults, and its own status; nothing else. */
module WorkingCopies {
  import opened Api
  import opened Protocol
  import opened Invariants
  import opened Steps

  /** GetInstaller has returned an installer in this sync. */
  predicate Chosen(pc: InstPc) {
    Installs(pc) && !pc.ProgressWrite? && !pc.Choosing?
  }

  /** The sync has looked at the generation. */
  predicate Observed(pc: InstPc) {
    Installs(pc) || pc.FailWrite?
  }

  ghost predicate CopyOf(c: Config, h: seq<Object>, i: Installer) {
    i.Syncing? ==>
      && i.rv < |h|
      && (if h[i.rv].deleting
          then i.kmd == h[i.rv].(status := i.kmd.status) && (Deletes(i.pc) || i.pc.FailWrite?)
          else FillsGaps(c.name, h[i.rv], i.kmd.(status := h[i.rv].status)) && !Deletes(i.pc))
      && (Observed(i.pc) && !h[i.rv].deleting ==> i.kmd.status.observedGeneration == i.kmd.generation)
      && (i.pc.ProgressWrite? ==> i.kmd.status.conditions == [Condition(Ready, ConditionUnknown, Progressing)])
      && (Chosen(i.pc) ==> i.kmd.spec.mode == "" || i.kmd.spec.mode == "Helm")
  }

  lemma LaterCopy(c: Config, h: seq<Object>, g: seq<Object>, i: Installer)
    requires h <= g && CopyOf(c, h, i)
    ensures CopyOf(c, g, i)
  {
  }

  lemma StatusCopy(c: Config, h: seq<Object>, i: Installer, j: Installer)
    requires CopyOf(c, h, i) && i.Syncing? && j.Syncing? && j.rv == i.rv && j.kmd == i.kmd.(status := j.kmd.status)
    requires if h[i.rv].deleting then Deletes(j.pc) || j.pc.FailWrite? else !Deletes(j.pc)
    requires Observed(j.pc) && !h[i.rv].deleting ==> j.kmd.status.observedGeneration == j.kmd.generation
    requires j.pc.ProgressWrite? ==> j.kmd.status.conditions == [Condition(Ready, ConditionUnknown, Progressing)]
    requires Chosen(j.pc) ==> Chosen(i.pc) || InstallerAvailable(i.kmd.spec)
    ensures CopyOf(c, h, j)
  {
  }

  /** Entering Sync, the conditions are reset exactly if the generation is new. */
  lemma EnterSyncObserves(i: Installer)
    requires i.Syncing?
    ensures var j := EnterSync(i);
            && j.Syncing? && j.rv == i.rv && j.kmd == i.kmd.(status := j.kmd.status)
            && j.kmd.status.observedGeneration == i.kmd.generation
            && (if i.kmd.status.observedGeneration == i.kmd.generation then j.pc.Choosing? && j.kmd == i.kmd
                else j.pc.ProgressWrite? && j.kmd.status == i.kmd.status.(
                       observedGeneration := i.kmd.generation,
                       conditions := [Condition(Ready, ConditionUnknown, Progressing)]))
  {
    assert MarkProgressing(i.kmd.status).conditions == [Condition(Ready, ConditionUnknown, Progressing)];
  }

  lemma StartCopy(c: Config, a: Store, suffix: string)
    requires Lister(a).Some?
    ensures CopyOf(c, a.h, StartSync(c, a, Lister(a).value, suffix))
  {
    var o := Lister(a).value;
    if !o.deleting {
      var k := Defaulted(c.name, o, suffix);
      DefaultedFillsGaps(c.name, o, suffix);
      EnterSyncObserves(Syncing(DropRead, k, a.seen - 1, |a.h|, false, 0));
    }
  }

  lemma OwnCopy(c: Config, s: State, e: Event)
    requires CopyOf(c, s.api.h, s.inst) && Enabled(c, s, e) && OfInstaller(e) && !e.InstStart?
    ensures CopyOf(c, s.api.h, Do(c, s, e).inst)
  {
    var i, j := s.inst, Do(c, s, e).inst;
    if e.InstDefault? {
      EnterSyncObserves(i);
    }
    if j.Syncing? {
      StatusCopy(c, s.api.h, i, j);
    }
  }

  lemma StepCopy(c: Config, s: State, e: Event)
    requires CopyOf(c, s.api.h, s.inst) && Enabled(c, s, e)
    ensures CopyOf(c, Do(c, s, e).api.h, Do(c, s, e).inst)
  {
    var t := Do(c, s, e);
    HistoryGrows(c, s, e);
    if e.InstStart? {
      StartCopy(c, s.api, e.suffix);
    } else if OfInstaller(e) {
      OwnCopy(c, s, e);
      LaterCopy(c, s.api.h, t.api.h, t.inst);
    } else {
      OthersKeepInst(c, s, e);
      LaterCopy(c, s.api.h, t.api.h, s.inst);
    }
  }

  lemma {:induction false} RunCopy(c: Config, s: State, es: seq<Event>)
    requires CopyOf(c, s.api.h, s.inst) && Exec(c, s, es).Some?
    ensures CopyOf(c, Exec(c, s, es).value.api.h, Exec(c, s, es).value.inst)
    decreases |es|
  {
    if es == [] {
    } else {
      StepCopy(c, s, es[0]);
      RunCopy(c, Do(c, s, es[0]), es[1..]);
    }
  }

  lemma ReachableCopy(c: Config, s: State)
    requires Reachable(c, s)
    ensures CopyOf(c, s.api.h, s.inst)
  {
    var es :| Reaches(c, es, s);
    var s0 :| Init(s0) && Exec(c, s0, es) == Some(s);
    RunCopy(c, s0, es);
  }

  // ---- What follows ----

  /** What helm is asked to install is a stored version that was not deleting, with every gap filled by its
      default, for a mode that has an installer, and with its generation observed; and phase Preflight was
      stored before the chart was fetched for it. */
  lemma InstallsWhatWasRead(c: Config, s: State, r: HelmResult)
    requires Reachable(c, s) && Enabled(c, s, InstHelm(r))
    ensures s.inst.rv < |s.api.h|
    ensures var o, k := s.api.h[s.inst.rv], s.inst.kmd;
            && !o.deleting && FillsGaps(c.name, o, k.(status := o.status))
            && o.spec.mode in {"", "Helm"}
            && k.status.observedGeneration == o.generation
  {
    ReachableCopy(c, s);
  }

  lemma FetchesAfterPreflight(c: Config, s: State, ok: bool)
    requires Reachable(c, s) && Enabled(c, s, InstFetch(ok))
    ensures exists p :: 0 <= p < |s.api.h| && s.inst.begin <= p + 1 && s.api.h[p].status.phase == Preflight
  {
    ReachableInv(c, s);
  }

  /** Every status a sync of a live version writes says that the generation it read is observed. */
  lemma WritesObserved(c: Config, s: State, applied: bool, ok: bool)
    requires Reachable(c, s) && Enabled(c, s, InstStatus(applied, ok))
    ensures s.inst.rv < |s.api.h|
    ensures !s.api.h[s.inst.rv].deleting ==>
              s.inst.kmd.status.observedGeneration == s.api.h[s.inst.rv].generation
  {
    ReachableCopy(c, s);
  }

  /** A sync of a live version begins with an update exactly if the version lacks the cascade label or the
      finalizer; and once past it the sync resets the conditions exactly if the generation is new. */
  lemma StartUpdatesIff(c: Config, s: State, suffix: string)
    requires Enabled(c, s, InstStart(suffix)) && !Lister(s.api).value.deleting
    ensures var o, i := Lister(s.api).value, Do(c, s, InstStart(suffix)).inst;
            && i.Syncing? && i.rv == s.api.seen - 1
            && (i.pc.Defaulting? <==> o.cascade == None || InstallerFinalizer !in o.finalizers)
            && (i.pc.ProgressWrite? || i.pc.Choosing? || i.pc.Defaulting?)
            && (!i.pc.Defaulting? ==> (i.pc.ProgressWrite? <==> o.status.observedGeneration != o.generation))
  {
  }
}
