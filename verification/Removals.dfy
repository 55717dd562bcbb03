/** The two controllers' finalizer removals over whole runs: their order does not matter. */
module Removals {
  import opened Api
  import opened Protocol
  import opened Invariants
  import opened Steps
  import opened Theorems

  /** The finalizer an event takes from the stored object. */
  function RemovedBy(e: Event): set<Finalizer> {
    if e.InstDropWrite? && e.applied then {InstallerFinalizer}
    else if e.SumUnfinal? && e.applied then {SummaryFinalizer}
    else {}
  }

  /** The finalizers that applied writes of the run have taken. */
  ghost function Removed(es: seq<Event>): set<Finalizer> {
    set e, f | e in es && f in RemovedBy(e) :: f
  }

  /** The event stores a version, but not by removing a finalizer. */
  predicate WritesOtherwise(e: Event) {
    || e.UserEdit? || e.UserDelete?
    || ((e.InstDefault? || e.InstStatus? || e.SumAdd? || e.WorkWrite?) && e.applied)
  }

  function Without(o: Object, fs: set<Finalizer>): Object {
    o.(finalizers := o.finalizers - fs)
  }

  lemma RemovedHead(es: seq<Event>)
    requires es != []
    ensures Removed(es) == RemovedBy(es[0]) + Removed(es[1..])
  {
    assert es == [es[0]] + es[1..];
  }

  lemma WithoutTwice(o: Object, fs: set<Finalizer>, gs: set<Finalizer>)
    ensures Without(Without(o, fs), gs) == Without(o, fs + gs)
  {
    assert o.finalizers - fs - gs == o.finalizers - (fs + gs);
  }

  lemma ReachableStep(c: Config, s: State, e: Event)
    requires Reachable(c, s) && Enabled(c, s, e)
    ensures Reachable(c, Do(c, s, e))
  {
    var es :| Reaches(c, es, s);
    var s0 :| Init(s0) && Exec(c, s0, es) == Some(s);
    ExecSnoc(c, s0, es, e);
    assert Reaches(c, es + [e], Do(c, s, e));
  }

  lemma StepRemoves(c: Config, s: State, e: Event)
    requires Reachable(c, s) && Enabled(c, s, e) && !WritesOtherwise(e)
    ensures s.api.h != [] && Do(c, s, e).api.h != []
    ensures Last(Do(c, s, e).api.h) == Without(Last(s.api.h), RemovedBy(e))
  {
    if e.InstDropWrite? && e.applied {
      DropIsSurgical(c, s, e.ok);
    } else if e.SumUnfinal? && e.applied {
      UnfinalIsSurgical(c, s, e.ok);
    }
  }

  /** In every run whose only applied writes are removals, the object loses exactly the finalizers
      removed in the run, whichever controller came first and however often either had to retry. */
  lemma {:induction false} RunRemoves(c: Config, s: State, es: seq<Event>)
    requires Reachable(c, s) && Exec(c, s, es).Some? && forall e :: e in es ==> !WritesOtherwise(e)
    ensures s.api.h != [] && Exec(c, s, es).value.api.h != []
    ensures Last(Exec(c, s, es).value.api.h) == Without(Last(s.api.h), Removed(es))
    decreases |es|
  {
    if es == [] {
      ReachableInv(c, s);
    } else {
      assert es[0] in es;
      StepRemoves(c, s, es[0]);
      ReachableStep(c, s, es[0]);
      RunRemoves(c, Do(c, s, es[0]), es[1..]);
      WithoutTwice(Last(s.api.h), RemovedBy(es[0]), Removed(es[1..]));
      RemovedHead(es);
    }
  }

  /** Two such runs with the same removals leave the same object. */
  lemma RemovalsCommute(c: Config, s: State, es: seq<Event>, fs: seq<Event>)
    requires Reachable(c, s) && Exec(c, s, es).Some? && Exec(c, s, fs).Some?
    requires forall e :: e in es + fs ==> !WritesOtherwise(e)
    requires Removed(es) == Removed(fs)
    ensures Exec(c, s, es).value.api.h != [] && Exec(c, s, fs).value.api.h != []
    ensures Last(Exec(c, s, es).value.api.h) == Last(Exec(c, s, fs).value.api.h)
  {
    assert forall e :: e in es || e in fs ==> e in es + fs;
    RunRemoves(c, s, es);
    RunRemoves(c, s, fs);
  }

  // ---- The loser of the race gets its turn ----

  /** The conflict of the summary controller, and its next sync. */
  function SummaryRetries(n: nat, ok: bool): seq<Event> {
    [SumUnfinal(false, false), CacheAdvance(n)] + [SumStart, SumRemove, SumUnfinal(true, ok)]
  }

  /** The conflict of the installer, and the next round of its retry loop. */
  function InstallerRetries(n: nat, ok: bool): seq<Event> {
    [InstDropWrite(false, false, true), CacheAdvance(n)] + [InstDropRead, InstDropWrite(true, ok, false)]
  }

  /** The installer's removal wins; the summary controller conflicts, is queued again and reads the new version. */
  function InstallerFirst(s: State, ok: bool, ok': bool): seq<Event> {
    [InstDropWrite(true, ok, false)] + SummaryRetries(|s.api.h| + 1, ok')
  }

  /** The summary controller's removal wins; the installer conflicts and its retry loop reads the new version. */
  function SummaryFirst(s: State, ok: bool, ok': bool): seq<Event> {
    [SumUnfinal(true, ok')] + InstallerRetries(|s.api.h| + 1, ok)
  }

  /** The summary controller conflicts and the cache catches up. */
  lemma SummaryLoses(c: Config, t: State) returns (u: State)
    requires t.api.h != [] && t.api.seen < |t.api.h| && SumAt(t.sums, SUnfinal)
    ensures Exec(c, t, [SumUnfinal(false, false), CacheAdvance(|t.api.h|)]) == Some(u)
    ensures u.api == t.api.(seen := |t.api.h|) && u.sums.sum.SIdle? && u.sums.queued
  {
    var v := Do(c, t, SumUnfinal(false, false));
    u := Do(c, v, CacheAdvance(|t.api.h|));
    ExecOne(c, v, CacheAdvance(|t.api.h|));
  }

  /** The installer conflicts and the cache catches up. */
  lemma InstallerLoses(c: Config, t: State) returns (u: State)
    requires t.api.h != [] && t.api.seen < |t.api.h| && t.inst.Syncing? && t.inst.pc.DropWrite?
    ensures Exec(c, t, [InstDropWrite(false, false, true), CacheAdvance(|t.api.h|)]) == Some(u)
    ensures u.api == t.api.(seen := |t.api.h|) && InstAt(u, DropRead)
  {
    var v := Do(c, t, InstDropWrite(false, false, true));
    u := Do(c, v, CacheAdvance(|t.api.h|));
    ExecOne(c, v, CacheAdvance(|t.api.h|));
  }

  /** The first removal makes a new version, which the cache has not seen. */
  lemma DropWins(c: Config, s: State, ok: bool, ok': bool)
    requires Reachable(c, s) && BothRemove(c, s, ok, ok')
    ensures var t := Do(c, s, InstDropWrite(true, ok, false));
            && |t.api.h| == |s.api.h| + 1 && t.api.seen < |t.api.h| && SumAt(t.sums, SUnfinal)
            && Last(t.api.h).deleting && SummaryFinalizer in Last(t.api.h).finalizers
  {
    DropIsSurgical(c, s, ok);
    ReachableInv(c, s);
    assert Last(Do(c, s, InstDropWrite(true, ok, false)).api.h) != Last(s.api.h);
  }

  lemma UnfinalWins(c: Config, s: State, ok: bool, ok': bool)
    requires Reachable(c, s) && BothRemove(c, s, ok, ok')
    ensures var t := Do(c, s, SumUnfinal(true, ok'));
            && |t.api.h| == |s.api.h| + 1 && t.api.seen < |t.api.h| && t.inst == s.inst
            && Last(t.api.h).deleting && InstallerFinalizer in Last(t.api.h).finalizers
  {
    UnfinalIsSurgical(c, s, ok');
    ReachableInv(c, s);
    assert Last(Do(c, s, SumUnfinal(true, ok')).api.h) != Last(s.api.h);
  }

  /** A summary sync that reads the current, deleting version drops its finalizer from it. */
  lemma SummaryTurn(c: Config, t: State, ok: bool)
    requires t.api.h != [] && t.api.seen == |t.api.h| && t.sums.sum.SIdle? && t.sums.queued
    requires Last(t.api.h).deleting && SummaryFinalizer in Last(t.api.h).finalizers
    ensures Exec(c, t, [SumStart, SumRemove, SumUnfinal(true, ok)]).Some?
  {
    assert Lister(t.api) == Some(Last(t.api.h));
    var u := Do(c, t, SumStart);
    var v := Do(c, u, SumRemove);
    ExecOne(c, v, SumUnfinal(true, ok));
    assert Exec(c, u, [SumRemove, SumUnfinal(true, ok)]) == Exec(c, v, [SumUnfinal(true, ok)]);
  }

  lemma SummaryRetriesRun(c: Config, t: State, ok: bool)
    requires t.api.h != [] && t.api.seen < |t.api.h| && SumAt(t.sums, SUnfinal)
    requires Last(t.api.h).deleting && SummaryFinalizer in Last(t.api.h).finalizers
    ensures Exec(c, t, SummaryRetries(|t.api.h|, ok)).Some?
  {
    var u := SummaryLoses(c, t);
    SummaryTurn(c, u, ok);
    ExecAppend(c, t, [SumUnfinal(false, false), CacheAdvance(|t.api.h|)], [SumStart, SumRemove, SumUnfinal(true, ok)]);
  }

  lemma InstallerFirstRuns(c: Config, s: State, ok: bool, ok': bool)
    requires Reachable(c, s) && BothRemove(c, s, ok, ok')
    ensures Exec(c, s, InstallerFirst(s, ok, ok')).Some?
  {
    DropWins(c, s, ok, ok');
    SummaryRetriesRun(c, Do(c, s, InstDropWrite(true, ok, false)), ok');
    ExecOne(c, s, InstDropWrite(true, ok, false));
    ExecAppend(c, s, [InstDropWrite(true, ok, false)], SummaryRetries(|s.api.h| + 1, ok'));
  }

  /** Another round of the installer's retry loop, on the current version. */
  lemma InstallerTurn(c: Config, t: State, ok: bool)
    requires t.api.h != [] && t.api.seen == |t.api.h| && InstAt(t, DropRead)
    requires Last(t.api.h).deleting && InstallerFinalizer in Last(t.api.h).finalizers
    ensures Exec(c, t, [InstDropRead, InstDropWrite(true, ok, false)]).Some?
  {
    assert Lister(t.api) == Some(Last(t.api.h));
    ExecOne(c, Do(c, t, InstDropRead), InstDropWrite(true, ok, false));
  }

  lemma InstallerRetriesRun(c: Config, t: State, ok: bool)
    requires t.api.h != [] && t.api.seen < |t.api.h| && t.inst.Syncing? && t.inst.pc.DropWrite?
    requires Last(t.api.h).deleting && InstallerFinalizer in Last(t.api.h).finalizers
    ensures Exec(c, t, InstallerRetries(|t.api.h|, ok)).Some?
  {
    var u := InstallerLoses(c, t);
    InstallerTurn(c, u, ok);
    ExecAppend(c, t, [InstDropWrite(false, false, true), CacheAdvance(|t.api.h|)],
               [InstDropRead, InstDropWrite(true, ok, false)]);
  }

  lemma SummaryFirstRuns(c: Config, s: State, ok: bool, ok': bool)
    requires Reachable(c, s) && BothRemove(c, s, ok, ok')
    ensures Exec(c, s, SummaryFirst(s, ok, ok')).Some?
  {
    UnfinalWins(c, s, ok, ok');
    InstallerRetriesRun(c, Do(c, s, SumUnfinal(true, ok')), ok);
    ExecOne(c, s, SumUnfinal(true, ok'));
    ExecAppend(c, s, [SumUnfinal(true, ok')], InstallerRetries(|s.api.h| + 1, ok));
  }

  lemma RemovesBoth(s: State, ok: bool, ok': bool)
    ensures Removed(InstallerFirst(s, ok, ok')) == Removed(SummaryFirst(s, ok, ok'))
            == {InstallerFinalizer, SummaryFinalizer}
  {
    var es, fs := InstallerFirst(s, ok, ok'), SummaryFirst(s, ok, ok');
    var drop, unfinal := InstDropWrite(true, ok, false), SumUnfinal(true, ok');
    assert drop == es[0] && unfinal == es[5] && drop == fs[4] && unfinal == fs[0];
    assert drop in es && unfinal in es && drop in fs && unfinal in fs;
    assert InstallerFinalizer in RemovedBy(drop) && SummaryFinalizer in RemovedBy(unfinal);
    assert forall e, f :: f in RemovedBy(e) ==> f in {InstallerFinalizer, SummaryFinalizer};
  }

  lemma NothingElseStores(s: State, ok: bool, ok': bool)
    ensures forall e :: e in InstallerFirst(s, ok, ok') || e in SummaryFirst(s, ok, ok') ==> !WritesOtherwise(e)
  {
  }

  /** The object after a run has lost both finalizers and nothing else. */
  ghost predicate LostBoth(c: Config, s: State, es: seq<Event>) {
    && s.api.h != [] && Exec(c, s, es).Some? && Exec(c, s, es).value.api.h != []
    && Last(Exec(c, s, es).value.api.h) == Without(Last(s.api.h), {InstallerFinalizer, SummaryFinalizer})
  }

  lemma InstallerMayWin(c: Config, s: State, ok: bool, ok': bool)
    requires Reachable(c, s) && BothRemove(c, s, ok, ok')
    ensures LostBoth(c, s, InstallerFirst(s, ok, ok'))
  {
    InstallerFirstRuns(c, s, ok, ok');
    RemovesBoth(s, ok, ok');
    NothingElseStores(s, ok, ok');
    RunRemoves(c, s, InstallerFirst(s, ok, ok'));
  }

  lemma SummaryMayWin(c: Config, s: State, ok: bool, ok': bool)
    requires Reachable(c, s) && BothRemove(c, s, ok, ok')
    ensures LostBoth(c, s, SummaryFirst(s, ok, ok'))
  {
    SummaryFirstRuns(c, s, ok, ok');
    RemovesBoth(s, ok, ok');
    NothingElseStores(s, ok, ok');
    RunRemoves(c, s, SummaryFirst(s, ok, ok'));
  }

  /** Whoever wins, the other conflicts, reads the new version and removes its own finalizer from it; both
      ways end in the same object. */
  lemma EitherMayWin(c: Config, s: State, ok: bool, ok': bool)
    requires Reachable(c, s) && BothRemove(c, s, ok, ok')
    ensures LostBoth(c, s, InstallerFirst(s, ok, ok')) && LostBoth(c, s, SummaryFirst(s, ok, ok'))
    ensures Last(Exec(c, s, InstallerFirst(s, ok, ok')).value.api.h) ==
            Last(Exec(c, s, SummaryFirst(s, ok, ok')).value.api.h)
  {
    InstallerMayWin(c, s, ok, ok');
    SummaryMayWin(c, s, ok, ok');
  }
}
