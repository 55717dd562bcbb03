/** With fresh reads every summary manager is run by one goroutine only, although each successful
    sync of the summary controller starts another. */
module SingleWorker {
  import opened Api
  import opened Protocol
  import opened Invariants
  import opened Steps

  /** The sync under way may start a worker. */
  predicate MayStart(q: Summaries) {
    q.sum.SSync? && !RemovesSummary(q.sum.pc)
  }

  ghost predicate ToldOver(a: Store)
    requires a.told <= |a.h|
  {
    a.told > 0 && (a.h[a.told - 1].deleting || Tomb(a.h[a.told - 1]))
  }

  ghost predicate ToldReady(a: Store)
    requires a.told <= |a.h|
  {
    a.told > 0 && (a.h[a.told - 1].status.ready || Tomb(a.h[a.told - 1]))
  }

  /** At most one worker; while there is one, or one may be started, the key is queued again only by
      the deletion. */
  ghost predicate OneInv(a: Store, q: Summaries)
    requires a.told <= |a.h|
  {
    && |q.workers| <= 1
    && (q.queued || q.sum.SSync? || q.workers != [] ==> ToldReady(a))
    && (MayStart(q) ==> q.workers == [])
    && (q.queued && MayStart(q) ==> ToldOver(a))
    && (q.workers != [] && (q.queued || q.sum.SSync?) ==> ToldOver(a))
  }

  lemma StartOne(c: Config, a: Store, q: Summaries)
    requires StoreInv(c, a) && OneInv(a, q) && q.queued && q.sum.SIdle?
    ensures OneInv(a, q.(queued := false, sum := StartSummary(a)))
  {
    assert a.told > 0 && a.seen > 0 ==> Le(c, a.h[a.told - 1], a.h[a.seen - 1]);
  }

  lemma LocalOne(c: Config, a: Store, q: Summaries, ok: bool, requeue: bool)
    requires StoreInv(c, a) && SumsInv(c, a, q) && OneInv(a, q) && q.sum.SSync?
    ensures q.sum.pc.SRemove? ==> OneInv(a, RemoveManager(q))
    ensures q.sum.pc.SCreate? ==> OneInv(a, CreateManager(q, ok))
    ensures OneInv(a, SumDone(q, requeue))
  {
  }

  lemma SummaryWrites(c: Config, s: State, e: Event)
    requires Inv(c, s) && OneInv(s.api, s.sums) && Enabled(c, s, e) && (e.SumUnfinal? || e.SumAdd?)
    ensures s.api.told <= |Do(c, s, e).api.h| && OneInv(Do(c, s, e).api, Do(c, s, e).sums)
  {
    HistoryGrows(c, s, e);
    LocalOne(c, s.api, s.sums, e.ok, if e.SumUnfinal? then !e.ok else true);
  }

  lemma SummaryEvents(c: Config, s: State, e: Event)
    requires Inv(c, s) && c.ryow && OneInv(s.api, s.sums) && Enabled(c, s, e) && OfSummary(e)
    ensures s.api.told <= |Do(c, s, e).api.h| && OneInv(Do(c, s, e).api, Do(c, s, e).sums)
  {
    var a, q := s.api, s.sums;
    if e.SumStart? {
      StartOne(c, a, q);
    } else if e.SumUnfinal? || e.SumAdd? {
      SummaryWrites(c, s, e);
    } else if e.SumCreate? {
      LocalOne(c, a, q, e.ok, false);
    } else if e.SumRemove? {
      LocalOne(c, a, q, true, false);
    }
  }

  lemma NotifyEvent(c: Config, s: State, k: nat)
    requires Inv(c, s) && c.ryow && OneInv(s.api, s.sums) && Enabled(c, s, CacheNotify(k))
    ensures OneInv(s.api.(told := k), Notified(s.api, s.sums, k))
  {
    var a := s.api;
    if a.told > 0 {
      assert Le(c, a.h[a.told - 1], a.h[k - 1]);
    }
  }

  lemma OtherEvents(c: Config, s: State, e: Event)
    requires Enabled(c, s, e) && !OfSummary(e) && !e.CacheNotify?
    ensures var t := Do(c, s, e);
            && s.api.h <= t.api.h && t.api.told == s.api.told
            && t.sums == s.sums.(workers := t.sums.workers) && |t.sums.workers| == |s.sums.workers|
  {
    HistoryGrows(c, s, e);
  }

  lemma StepOne(c: Config, s: State, e: Event)
    requires Inv(c, s) && c.ryow && OneInv(s.api, s.sums) && Enabled(c, s, e)
    ensures var t := Do(c, s, e); t.api.told <= |t.api.h| && OneInv(t.api, t.sums)
  {
    if OfSummary(e) {
      SummaryEvents(c, s, e);
    } else if e.CacheNotify? {
      NotifyEvent(c, s, e.upTo);
    } else {
      OtherEvents(c, s, e);
    }
  }

  lemma {:induction false} RunOne(c: Config, s: State, es: seq<Event>)
    requires Inv(c, s) && c.ryow && OneInv(s.api, s.sums) && Exec(c, s, es).Some?
    ensures var t := Exec(c, s, es).value; t.api.told <= |t.api.h| && OneInv(t.api, t.sums)
    decreases |es|
  {
    if es == [] {
    } else {
      StepInv(c, s, es[0]);
      StepOne(c, s, es[0]);
      RunOne(c, Do(c, s, es[0]), es[1..]);
    }
  }

  /** At most one worker ever runs for the object. */
  lemma OneWorker(c: Config, s: State)
    requires Reachable(c, s) && c.ryow
    ensures |s.sums.workers| <= 1
  {
    var es :| Reaches(c, es, s);
    var s0 :| Init(s0) && Exec(c, s0, es) == Some(s);
    InitInv(c, s0);
    RunOne(c, s0, es);
  }
}
