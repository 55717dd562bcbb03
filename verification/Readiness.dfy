/** When exactly readiness is lost, for every cache, however stale. */
module Readiness {
  import opened Api
  import opened Protocol
  import opened Invariants
  import opened Steps

  predicate Finishes(pc: InstPc) {
    pc.CompleteWrite? || pc.ReadyWrite?
  }

  /** A sync writes a ready status exactly if it started from one or has completed the installation itself. */
  ghost predicate Reads(h: seq<Object>, i: Installer) {
    i.Syncing? ==> i.rv < |h| && (i.kmd.status.ready <==> h[i.rv].status.ready || Finishes(i.pc))
  }

  /** A worker about to write holds the status of the version it read, with another summary. */
  ghost predicate WorkerReads(h: seq<Object>, w: Worker) {
    w.pc.WHas? ==> w.pc.rv < |h| && w.pc.status == h[w.pc.rv].status.(summary := w.pc.status.summary)
  }

  ghost predicate WorkersRead(h: seq<Object>, workers: seq<Worker>) {
    forall k :: 0 <= k < |workers| ==> WorkerReads(h, workers[k])
  }

  ghost predicate FromSnapshot(s: State) {
    Reads(s.api.h, s.inst) && WorkersRead(s.api.h, s.sums.workers)
  }

  lemma StartReads(c: Config, a: Store, suffix: string)
    requires Lister(a).Some?
    ensures Reads(a.h, StartSync(c, a, Lister(a).value, suffix))
  {
  }

  lemma AfterStatusReads(c: Config, a: Store, i: Installer, versions: nat, ok: bool)
    requires a.h != [] && a.seen <= |a.h| && i.Syncing? && InstInv(c, a, i) && Reads(a.h, i)
    requires WritesStatus(i.pc) && versions > 0
    ensures Reads(a.h, AfterStatus(i, versions, ok))
  {
  }

  lemma LocalReads(c: Config, a: Store, i: Installer)
    requires a.h != [] && a.seen <= |a.h| && i.Syncing? && InstInv(c, a, i) && Reads(a.h, i)
    ensures i.pc.Defaulting? ==> Reads(a.h, EnterSync(i))
    ensures i.pc.Choosing? ==> Reads(a.h, EnterInstall(i))
    ensures !Finishes(i.pc) ==> forall r :: Reads(a.h, Fail(i, r))
    ensures i.pc.Fetching? ==> Reads(a.h, SetPhase(i, Deploying, DeployWrite))
    ensures forall r, v :: Reads(a.h, Complete(i, r, v))
  {
  }

  lemma InstallerReads(c: Config, s: State, e: Event)
    requires Inv(c, s) && FromSnapshot(s) && Enabled(c, s, e) && OfInstaller(e)
    ensures Reads(Do(c, s, e).api.h, Do(c, s, e).inst)
  {
    HistoryGrows(c, s, e);
    if e.InstStart? {
      StartReads(c, s.api, e.suffix);
    } else if e.InstStatus? {
      AfterStatusReads(c, s.api, s.inst, |Do(c, s, e).api.h|, e.ok);
    } else {
      LocalReads(c, s.api, s.inst);
    }
  }

  lemma LaterWorkersRead(h: seq<Object>, g: seq<Object>, workers: seq<Worker>)
    requires h <= g && WorkersRead(h, workers)
    ensures WorkersRead(g, workers)
  {
    forall k | 0 <= k < |workers| ensures WorkerReads(g, workers[k]) {
      assert WorkerReads(h, workers[k]);
    }
  }

  lemma OwnWorkersRead(c: Config, s: State, e: Event)
    requires FromSnapshot(s) && Enabled(c, s, e) && OfWorker(e)
    ensures WorkersRead(s.api.h, Do(c, s, e).sums.workers)
  {
  }

  lemma OthersKeepWorkers(c: Config, s: State, e: Event)
    requires Enabled(c, s, e) && !OfWorker(e)
    ensures var t := Do(c, s, e);
            t.sums.workers == s.sums.workers || (e.SumRun? && |t.sums.workers| == |s.sums.workers| + 1
              && t.sums.workers[..|s.sums.workers|] == s.sums.workers && t.sums.workers[|s.sums.workers|].pc.WTop?)
  {
  }

  lemma StepWorkersRead(c: Config, s: State, e: Event)
    requires FromSnapshot(s) && Enabled(c, s, e)
    ensures WorkersRead(Do(c, s, e).api.h, Do(c, s, e).sums.workers)
  {
    var t := Do(c, s, e);
    HistoryGrows(c, s, e);
    if OfWorker(e) {
      OwnWorkersRead(c, s, e);
      LaterWorkersRead(s.api.h, t.api.h, t.sums.workers);
    } else {
      OthersKeepWorkers(c, s, e);
      LaterWorkersRead(s.api.h, t.api.h, s.sums.workers);
      forall k | 0 <= k < |t.sums.workers| ensures WorkerReads(t.api.h, t.sums.workers[k]) {
        assert k < |s.sums.workers| ==>
            WorkerReads(t.api.h, s.sums.workers[k]) && t.sums.workers[k] == s.sums.workers[k];
      }
    }
  }

  lemma StepReads(c: Config, s: State, e: Event)
    requires Inv(c, s) && FromSnapshot(s) && Enabled(c, s, e)
    ensures FromSnapshot(Do(c, s, e))
  {
    StepWorkersRead(c, s, e);
    if OfInstaller(e) {
      InstallerReads(c, s, e);
    } else {
      HistoryGrows(c, s, e);
      OthersKeepInst(c, s, e);
    }
  }

  lemma {:induction false} RunReads(c: Config, s: State, es: seq<Event>)
    requires Inv(c, s) && FromSnapshot(s) && Exec(c, s, es).Some?
    ensures FromSnapshot(Exec(c, s, es).value)
    decreases |es|
  {
    if es == [] {
    } else {
      StepInv(c, s, es[0]);
      StepReads(c, s, es[0]);
      RunReads(c, Do(c, s, es[0]), es[1..]);
    }
  }

  lemma ReachableReads(c: Config, s: State)
    requires Reachable(c, s)
    ensures FromSnapshot(s)
  {
    var es :| Reaches(c, es, s);
    var s0 :| Init(s0) && Exec(c, s0, es) == Some(s);
    InitInv(c, s0);
    RunReads(c, s0, es);
  }

  /** The version the writer read. */
  predicate ReadUnready(h: seq<Object>, rv: nat) {
    rv < |h| && !h[rv].status.ready
  }

  /** The event is a status write on behalf of a version that was not ready. */
  predicate WritesUnready(s: State, e: Event) {
    || (e.InstStatus? && e.applied && s.inst.Syncing? && ReadUnready(s.api.h, s.inst.rv) && !Finishes(s.inst.pc))
    || (e.WorkWrite? && e.applied && e.w < |s.sums.workers| && s.sums.workers[e.w].pc.WHas?
        && ReadUnready(s.api.h, s.sums.workers[e.w].pc.rv))
  }

  /** Whatever the caches, one step takes readiness away if and only if it is a status write by somebody who
      read a version that was not ready, and has not itself completed the installation since. */
  lemma ReadyIsLostIff(c: Config, s: State, e: Event)
    requires Reachable(c, s) && Enabled(c, s, e) && Last(s.api.h).status.ready
    ensures Do(c, s, e).api.h != []
    ensures !Last(Do(c, s, e).api.h).status.ready <==> WritesUnready(s, e)
  {
    ReachableReads(c, s);
    HistoryGrows(c, s, e);
    if e.WorkWrite? {
      assert WorkerReads(s.api.h, s.sums.workers[e.w]);
    }
  }
}
