/** The summary managers fall silent: once a summary is stored and visible, computing it again starts no
    write, whatever users, the cache, the installer and the summary controller do meanwhile. */
module Quiescence {
  import opened Api
  import opened Protocol
  import opened Steps

  /** Every version from `n` on has summary `x`. */
  ghost predicate StoredFrom(h: seq<Object>, n: nat, x: Summary) {
    n < |h| && forall i :: n <= i < |h| ==> h[i].status.summary == Some(x)
  }

  /** A sync under way works on a copy with summary `x`. */
  predicate Copied(i: Installer, x: Summary) {
    i.Syncing? ==> i.kmd.status.summary == Some(x)
  }

  predicate Holds(w: Worker, x: Summary) {
    w.pc.WHas? ==> w.pc.status.summary == Some(x)
  }

  /** Whoever is about to write a summary is about to write `x`. */
  ghost predicate Held(workers: seq<Worker>, x: Summary) {
    forall k :: 0 <= k < |workers| ==> Holds(workers[k], x)
  }

  /** Stored, visible, and nobody has anything else in hand. */
  ghost predicate Settled(s: State, x: Summary) {
    && 0 < s.api.seen <= |s.api.h| && StoredFrom(s.api.h, s.api.seen - 1, x)
    && Copied(s.inst, x)
    && Held(s.sums.workers, x)
  }

  /** If the event is a tick it computes `x`, or fails to list. */
  predicate Computes(e: Event, x: Summary) {
    e.WorkRead? ==> e.computed in {None, Some(x)}
  }

  // ---- Counting writes ----

  /** How many workers are about to write a status. */
  function Pending(workers: seq<Worker>): nat {
    if workers == [] then 0
    else Pending(workers[..|workers| - 1]) + if workers[|workers| - 1].pc.WHas? then 1 else 0
  }

  lemma {:induction false} PendingUpdate(workers: seq<Worker>, k: nat, w: Worker)
    requires k < |workers|
    ensures Pending(workers[k := w]) + (if workers[k].pc.WHas? then 1 else 0) ==
            Pending(workers) + (if w.pc.WHas? then 1 else 0)
  {
    var before, after := workers[..|workers| - 1], workers[k := w][..|workers| - 1];
    if k == |workers| - 1 {
      assert after == before;
    } else {
      PendingUpdate(before, k, w);
      assert after == before[k := w];
    }
  }

  lemma PendingNew(workers: seq<Worker>, w: Worker)
    ensures Pending(workers + [w]) == Pending(workers) + if w.pc.WHas? then 1 else 0
  {
    assert (workers + [w])[..|workers|] == workers;
  }

  /** How many of the events are status writes of workers. */
  function Writes(es: seq<Event>): nat {
    if es == [] then 0 else Writes(es[1..]) + if es[0].WorkWrite? then 1 else 0
  }

  lemma {:induction false} NoWrites(es: seq<Event>)
    ensures Writes(es) == 0 <==> forall e :: e in es ==> !e.WorkWrite?
  {
    if es == [] {
    } else {
      NoWrites(es[1..]);
      assert es == [es[0]] + es[1..];
    }
  }

  // ---- Steps ----

  /** A sync takes the summary from the version it reads and never changes it. */
  lemma InstallerKeepsSummary(c: Config, s: State, e: Event, x: Summary)
    requires Enabled(c, s, e) && OfInstaller(e) && !e.InstStart? && Copied(s.inst, x)
    ensures Copied(Do(c, s, e).inst, x)
  {
  }

  lemma StartCopies(c: Config, s: State, e: Event, x: Summary)
    requires Enabled(c, s, e) && e.InstStart? && 0 < s.api.seen <= |s.api.h| && StoredFrom(s.api.h, s.api.seen - 1, x)
    ensures Copied(Do(c, s, e).inst, x)
  {
  }

  /** An applied status write of a sync carries `x`. */
  predicate WritesCopy(s: State, e: Event, x: Summary) {
    e.InstStatus? && e.applied ==> Copied(s.inst, x)
  }

  /** Whatever is stored next has summary `x` too. */
  lemma StoresMore(c: Config, s: State, e: Event, n: nat, x: Summary)
    requires Enabled(c, s, e) && StoredFrom(s.api.h, n, x) && Held(s.sums.workers, x) && WritesCopy(s, e, x)
    ensures StoredFrom(Do(c, s, e).api.h, n, x)
  {
    if e.WorkWrite? {
      assert Holds(s.sums.workers[e.w], x);
    }
  }

  lemma HoldsMore(c: Config, s: State, e: Event, x: Summary)
    requires Enabled(c, s, e) && Held(s.sums.workers, x) && Computes(e, x)
    ensures Held(Do(c, s, e).sums.workers, x)
  {
    if OfWorker(e) {
      WorkerHolds(c, s, e, x);
    } else if OfSummary(e) {
      SummaryHolds(c, s, e, x);
    }
  }

  lemma WorkerHolds(c: Config, s: State, e: Event, x: Summary)
    requires Enabled(c, s, e) && Held(s.sums.workers, x) && Computes(e, x) && OfWorker(e)
    ensures Held(Do(c, s, e).sums.workers, x)
  {
  }

  lemma SummaryHolds(c: Config, s: State, e: Event, x: Summary)
    requires Enabled(c, s, e) && Held(s.sums.workers, x) && OfSummary(e)
    ensures Held(Do(c, s, e).sums.workers, x)
  {
  }

  /** In a settled state no event makes a worker want to write, and a write is one of those wanted before. */
  lemma StepCounts(c: Config, s: State, e: Event, x: Summary)
    requires Enabled(c, s, e) && Settled(s, x) && Computes(e, x)
    ensures Pending(Do(c, s, e).sums.workers) + Writes([e]) == Pending(s.sums.workers)
  {
    var workers := s.sums.workers;
    if OfWorker(e) {
      var k := EventWorker(e);
      PendingUpdate(workers, k, Do(c, s, e).sums.workers[k]);
    } else if e.SumRun? {
      PendingNew(workers, Worker(s.sums.sum.pc.id, WTop));
    }
  }

  lemma StepSettles(c: Config, s: State, e: Event, x: Summary)
    requires Enabled(c, s, e) && Settled(s, x) && Computes(e, x)
    ensures Settled(Do(c, s, e), x)
  {
    StoresMore(c, s, e, s.api.seen - 1, x);
    HoldsMore(c, s, e, x);
    if e.InstStart? {
      StartCopies(c, s, e, x);
    } else if OfInstaller(e) {
      InstallerKeepsSummary(c, s, e, x);
    } else {
      OthersKeepInst(c, s, e);
    }
    SeenGrows(c, s, e);
  }

  lemma SeenGrows(c: Config, s: State, e: Event)
    requires Enabled(c, s, e) && s.api.seen <= |s.api.h|
    ensures s.api.seen <= Do(c, s, e).api.seen <= |Do(c, s, e).api.h|
  {
    HistoryGrows(c, s, e);
  }

  // ---- Runs ----

  /** From a settled state on, in every run whose ticks compute `x`, there are at most as many status writes
      of workers as workers that had one in hand at the start: none, if none had. */
  lemma {:induction false} SettledRunsAreQuiet(c: Config, s: State, es: seq<Event>, x: Summary)
    requires Settled(s, x) && Exec(c, s, es).Some? && forall e :: e in es ==> Computes(e, x)
    ensures var t := Exec(c, s, es).value;
            Settled(t, x) && Writes(es) + Pending(t.sums.workers) == Pending(s.sums.workers)
    ensures Pending(s.sums.workers) == 0 ==> forall e :: e in es ==> !e.WorkWrite?
    decreases |es|
  {
    NoWrites(es);
    if es == [] {
    } else {
      var e := es[0];
      assert e in es;
      StepCounts(c, s, e, x);
      StepSettles(c, s, e, x);
      SettledRunsAreQuiet(c, Do(c, s, e), es[1..], x);
      assert Writes([e]) == if e.WorkWrite? then 1 else 0;
    }
  }

  // ---- After a write ----

  /** Every tick of the run computes `x`, and every status write of a sync carries it. */
  ghost predicate Undisturbed(c: Config, s: State, es: seq<Event>, x: Summary)
    decreases |es|
  {
    es != [] && Enabled(c, s, es[0]) ==>
      Computes(es[0], x) && WritesCopy(s, es[0], x) && Undisturbed(c, Do(c, s, es[0]), es[1..], x)
  }

  lemma {:induction false} UndisturbedRun(c: Config, s: State, es: seq<Event>, n: nat, x: Summary)
    requires StoredFrom(s.api.h, n, x) && Held(s.sums.workers, x) && s.api.seen <= |s.api.h|
    requires Exec(c, s, es).Some? && Undisturbed(c, s, es, x)
    ensures var t := Exec(c, s, es).value;
            StoredFrom(t.api.h, n, x) && Held(t.sums.workers, x) && t.api.seen <= |t.api.h|
    decreases |es|
  {
    if es == [] {
    } else {
      StoresMore(c, s, es[0], n, x);
      HoldsMore(c, s, es[0], x);
      SeenGrows(c, s, es[0]);
      UndisturbedRun(c, Do(c, s, es[0]), es[1..], n, x);
    }
  }

  lemma AfterWrite(c: Config, s: State, k: nat, x: Summary)
    requires Reachable(c, s) && Enabled(c, s, WorkWrite(k, true))
    requires s.sums.workers[k].pc.status.summary == Some(x) && Held(s.sums.workers, x)
    ensures var t := Do(c, s, WorkWrite(k, true));
            && t.api.h != [] && Last(t.api.h) == Last(s.api.h).(status := s.sums.workers[k].pc.status)
            && StoredFrom(t.api.h, |t.api.h| - 1, x) && Held(t.sums.workers, x) && t.api.seen <= |t.api.h|
  {
    ReachableInv(c, s);
  }

  /** A write of `x`, while nobody is about to write another summary, changes the status alone. Let the cache
      catch up with it in any run that computes and writes no other summary, ticks and further writes of `x`
      included. From then on, unless a sync still works on an older copy, no run whose ticks compute `x` has
      more status writes of workers than were in hand at that moment. */
  lemma QuietAfterWrite(c: Config, s: State, k: nat, x: Summary, gap: seq<Event>, es: seq<Event>)
    requires Reachable(c, s) && Enabled(c, s, WorkWrite(k, true))
    requires s.sums.workers[k].pc.status.summary == Some(x) && Held(s.sums.workers, x)
    requires Undisturbed(c, Do(c, s, WorkWrite(k, true)), gap, x)
    requires forall e :: e in es ==> Computes(e, x)
    ensures var t := Do(c, s, WorkWrite(k, true));
            && t.api.h != [] && Last(t.api.h) == Last(s.api.h).(status := s.sums.workers[k].pc.status)
            && (Exec(c, t, gap).Some? ==>
                  var u := Exec(c, t, gap).value;
                  u.api.seen >= |t.api.h| && Copied(u.inst, x) && Exec(c, u, es).Some? ==>
                    Writes(es) <= Pending(u.sums.workers))
  {
    AfterWrite(c, s, k, x);
    var t := Do(c, s, WorkWrite(k, true));
    if Exec(c, t, gap).Some? {
      UndisturbedRun(c, t, gap, |t.api.h| - 1, x);
      var u := Exec(c, t, gap).value;
      if u.api.seen >= |t.api.h| && Copied(u.inst, x) && Exec(c, u, es).Some? {
        SettledRunsAreQuiet(c, u, es, x);
      }
    }
  }
}
