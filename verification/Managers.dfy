/** Summary managers do start: an object that became ready is never lost, whatever the cache. */
module Managers {
  import opened Api
  import opened Protocol
  import opened Invariants
  import opened Steps

  /** A worker of the registered manager was started. */
  ghost predicate Started(q: Summaries) {
    exists k :: 0 <= k < |q.workers| && Some(q.workers[k].mgr) == q.manager
  }

  /** The controller was told of a ready version: it is still to work on it, it is at work, it has started a
      worker, or the cache already shows the deletion. */
  ghost predicate NoLostReady(a: Store, q: Summaries)
    requires a.told <= |a.h| && a.seen <= |a.h|
  {
    a.told > 0 && a.h[a.told - 1].status.ready ==> q.queued || q.sum.SSync? || Started(q) || SeenDeleting(a)
  }

  /** Told that the object became ready, the controller queues it, whatever it was told of before. */
  lemma BecomingReadyQueues(c: Config, s: State, k: nat)
    requires Enabled(c, s, CacheNotify(k)) && s.api.h[k - 1].status.ready
    requires s.api.told == 0 || !s.api.h[s.api.told - 1].status.ready
    ensures Do(c, s, CacheNotify(k)).sums.queued
  {
  }

  /** Told of the removal, or of the deletion of a ready object, it queues it too; of anything else that was
      ready before, it does not. */
  lemma OnlyDeletionQueuesAgain(c: Config, s: State, k: nat)
    requires Enabled(c, s, CacheNotify(k)) && s.api.told > 0 && !s.sums.queued
    requires var older := s.api.h[s.api.told - 1]; older.status.ready && !older.deleting
    requires s.api.h[k - 1].status.ready
    ensures Do(c, s, CacheNotify(k)).sums.queued <==> s.api.h[k - 1].deleting
  {
  }

  lemma UnreadyIsIgnored(c: Config, s: State, k: nat)
    requires Enabled(c, s, CacheNotify(k)) && !s.api.h[k - 1].status.ready && !s.sums.queued
    ensures Do(c, s, CacheNotify(k)).sums.queued <==> s.api.h[k - 1].deleting && s.api.h[k - 1].finalizers == {}
  {
  }

  /** With fresh reads the deletion of an object that carries the summary finalizer always queues it, whichever
      live version the controller was told of before. */
  lemma DeletionQueues(c: Config, s: State, k: nat)
    requires Reachable(c, s) && c.ryow && Enabled(c, s, CacheNotify(k))
    requires s.api.h[k - 1].deleting && SummaryFinalizer in s.api.h[k - 1].finalizers
    requires s.api.told == 0 || !s.api.h[s.api.told - 1].deleting
    ensures Do(c, s, CacheNotify(k)).sums.queued
  {
    ReachableInv(c, s);
  }

  /** A sync of the controller ends at once without a listed object, takes a deleting one down, adds its finalizer
      to a live one that lacks it, and otherwise goes straight to the manager. */
  lemma StartDecides(c: Config, s: State)
    requires Enabled(c, s, SumStart)
    ensures var q, o := Do(c, s, SumStart).sums, Lister(s.api);
            && !q.queued
            && (q.sum.SIdle? <==> o.None?)
            && (o.Some? ==>
                  && q.sum.obj == o.value == s.api.h[q.sum.rv]
                  && (q.sum.pc.SRemove? <==> o.value.deleting)
                  && (q.sum.pc.SAdd? <==> !o.value.deleting && SummaryFinalizer !in o.value.finalizers)
                  && (q.sum.pc.SCheck? <==> !o.value.deleting && SummaryFinalizer in o.value.finalizers))
  {
  }

  lemma StartKeepsReady(c: Config, s: State)
    requires Inv(c, s) && Enabled(c, s, SumStart)
    ensures NoLostReady(s.api, Do(c, s, SumStart).sums)
  {
  }

  lemma LocalKeepsReady(c: Config, s: State, e: Event)
    requires Inv(c, s) && Enabled(c, s, e) && (e.SumRemove? || e.SumCheck? || e.SumCreate?)
    ensures Do(c, s, e).api == s.api && NoLostReady(s.api, Do(c, s, e).sums)
  {
  }

  lemma WritesKeepReady(c: Config, s: State, e: Event)
    requires Inv(c, s) && Enabled(c, s, e) && (e.SumUnfinal? || e.SumAdd?)
    ensures var t := Do(c, s, e);
            t.api.told <= |t.api.h| && t.api.seen <= |t.api.h| && NoLostReady(t.api, t.sums)
  {
    HistoryGrows(c, s, e);
    if e.SumUnfinal? {
      UnfinalSeesDeletion(c, s);
    }
  }

  /** A sync ends with the key queued again, a worker started, or on a version that is being deleted. */
  lemma SummaryKeepsReady(c: Config, s: State, e: Event)
    requires Inv(c, s) && Enabled(c, s, e) && OfSummary(e)
    ensures var t := Do(c, s, e);
            t.api.told <= |t.api.h| && t.api.seen <= |t.api.h| && NoLostReady(t.api, t.sums)
  {
    if e.SumStart? {
      StartKeepsReady(c, s);
    } else if e.SumUnfinal? || e.SumAdd? {
      WritesKeepReady(c, s, e);
    } else if e.SumRun? {
      RunStarts(c, s);
    } else {
      LocalKeepsReady(c, s, e);
    }
  }

  lemma UnfinalSeesDeletion(c: Config, s: State)
    requires Inv(c, s) && SumAt(s.sums, SUnfinal)
    ensures SeenDeleting(s.api)
  {
    assert Le(c, s.api.h[s.sums.sum.rv], s.api.h[s.api.seen - 1]);
  }

  lemma RunStarts(c: Config, s: State)
    requires Inv(c, s) && Enabled(c, s, SumRun)
    ensures Started(Do(c, s, SumRun).sums)
  {
    assert Some(Do(c, s, SumRun).sums.workers[|s.sums.workers|].mgr) == s.sums.manager;
  }

  lemma CacheKeepsReady(c: Config, s: State, e: Event)
    requires Inv(c, s) && Enabled(c, s, e) && OfCache(e) && NoLostReady(s.api, s.sums)
    ensures NoLostReady(Do(c, s, e).api, Do(c, s, e).sums)
  {
    if e.CacheAdvance? {
      if s.api.seen > 0 {
        assert Le(c, s.api.h[s.api.seen - 1], s.api.h[e.upTo - 1]);
      }
    }
  }

  lemma OthersKeepStarted(c: Config, s: State, e: Event)
    requires Enabled(c, s, e) && !OfSummary(e) && !OfCache(e) && Started(s.sums)
    ensures Started(Do(c, s, e).sums)
  {
    var q, r := s.sums, Do(c, s, e).sums;
    var k :| 0 <= k < |q.workers| && Some(q.workers[k].mgr) == q.manager;
    assert Some(r.workers[k].mgr) == r.manager;
  }

  lemma OthersKeepReady(c: Config, s: State, e: Event)
    requires StoreInv(c, s.api) && Enabled(c, s, e) && !OfSummary(e) && !OfCache(e) && NoLostReady(s.api, s.sums)
    ensures var t := Do(c, s, e);
            t.api.told <= |t.api.h| && t.api.seen <= |t.api.h| && NoLostReady(t.api, t.sums)
  {
    HistoryGrows(c, s, e);
    if Started(s.sums) {
      OthersKeepStarted(c, s, e);
    }
  }

  lemma StepKeepsReady(c: Config, s: State, e: Event)
    requires Inv(c, s) && Enabled(c, s, e) && NoLostReady(s.api, s.sums)
    ensures var t := Do(c, s, e);
            t.api.told <= |t.api.h| && t.api.seen <= |t.api.h| && NoLostReady(t.api, t.sums)
  {
    if OfSummary(e) {
      SummaryKeepsReady(c, s, e);
    } else if OfCache(e) {
      CacheKeepsReady(c, s, e);
    } else {
      OthersKeepReady(c, s, e);
    }
  }

  lemma {:induction false} RunKeepsReady(c: Config, s: State, es: seq<Event>)
    requires Inv(c, s) && NoLostReady(s.api, s.sums) && Exec(c, s, es).Some?
    ensures var t := Exec(c, s, es).value;
            t.api.told <= |t.api.h| && t.api.seen <= |t.api.h| && NoLostReady(t.api, t.sums)
    decreases |es|
  {
    if es == [] {
    } else {
      StepInv(c, s, es[0]);
      StepKeepsReady(c, s, es[0]);
      RunKeepsReady(c, Do(c, s, es[0]), es[1..]);
    }
  }

  /** In every reachable state, for every cache: once the controller was told of a ready version, the key is
      queued, or a sync is under way, or a worker of the registered manager was started, or the cache shows
      that the object is being deleted. */
  lemma ReadyIsServed(c: Config, s: State)
    requires Reachable(c, s) && 0 < s.api.told <= |s.api.h| && s.api.h[s.api.told - 1].status.ready
    ensures || s.sums.queued || s.sums.sum.SSync?
            || (exists k :: 0 <= k < |s.sums.workers| && Some(s.sums.workers[k].mgr) == s.sums.manager)
            || (0 < s.api.seen <= |s.api.h| && s.api.h[s.api.seen - 1].deleting)
  {
    var es :| Reaches(c, es, s);
    var s0 :| Init(s0) && Exec(c, s0, es) == Some(s);
    InitInv(c, s0);
    RunKeepsReady(c, s0, es);
  }

  // ---- Ticks ----

  /** A tick of a manager decides to write exactly if the lister has the object, the lists could be read, and
      the stored summary is not the one just computed; what it will write is the status it read with that
      summary. */
  lemma TickDecides(c: Config, s: State, k: nat, computed: Option<Summary>)
    requires Enabled(c, s, WorkRead(k, computed))
    ensures var pc := Do(c, s, WorkRead(k, computed)).sums.workers[k].pc;
            && (pc.WSelect? || pc.WHas?)
            && (pc.WHas? <==>
                  Lister(s.api).Some? && computed.Some? && Lister(s.api).value.status.summary != computed)
            && (pc.WHas? ==> pc.status == Lister(s.api).value.status.(summary := computed))
  {
  }

  /** An applied write of that tick leaves the summary it computed, whatever was stored meanwhile. */
  lemma WriteStoresSummary(c: Config, s: State, k: nat)
    requires Enabled(c, s, WorkWrite(k, true))
    ensures var t := Do(c, s, WorkWrite(k, true));
            && t.api.h != [] && Last(t.api.h) == Last(s.api.h).(status := s.sums.workers[k].pc.status)
            && t.sums.workers[k].pc.WSelect?
  {
  }
}
