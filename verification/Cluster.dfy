/** The shared world the operator's code runs in: the API server, the cache and everybody else. Its
    state is that of the protocol, and `run` records how it was reached. */
module World {
  import opened Api
  import opened Protocol

  datatype Reply = Ok | Conflict | Failed

  /** The three kinds of goroutine of the operator. */
  datatype Actor = TheInstaller | TheSummaryController | OneWorker(w: nat)

  predicate By(who: Actor, e: Event) {
    match who
    case TheInstaller => OfInstaller(e)
    case TheSummaryController => OfSummary(e)
    case OneWorker(w) => OfWorker(e) && EventWorker(e) == w
  }

  /** What everybody else leaves alone while `who` is between two steps. */
  ghost predicate Untouched(who: Actor, s: State, t: State) {
    && s.api.h <= t.api.h && s.api.seen <= t.api.seen && s.sums.closed <= t.sums.closed
    && |s.sums.workers| <= |t.sums.workers|
    && match who
       case TheInstaller => t.inst == s.inst && t.api.own == s.api.own && t.helm.deploys == s.helm.deploys
       case TheSummaryController =>
         && t.sums.sum == s.sums.sum && t.sums.manager == s.sums.manager
         && t.sums.nextManager == s.sums.nextManager && t.sums.closed == s.sums.closed
         && (s.sums.queued ==> t.sums.queued)
       case OneWorker(w) => w < |s.sums.workers| ==> t.sums.workers[w] == s.sums.workers[w]
  }

  lemma InstallerKeeps(c: Config, s: State, e: Event)
    requires Enabled(c, s, e) && OfInstaller(e)
    ensures Do(c, s, e).sums == s.sums && Do(c, s, e).api.seen == s.api.seen
  {
  }

  lemma SummaryKeeps(c: Config, s: State, e: Event)
    requires Enabled(c, s, e) && OfSummary(e)
    ensures var t := Do(c, s, e);
            && t.inst == s.inst && t.helm == s.helm && t.api.own == s.api.own && t.api.seen == s.api.seen
            && s.sums.closed <= t.sums.closed && s.sums.workers <= t.sums.workers
  {
  }

  lemma WorkerKeeps(c: Config, s: State, e: Event)
    requires Enabled(c, s, e) && OfWorker(e)
    ensures var t := Do(c, s, e);
            && t.inst == s.inst && t.helm == s.helm && t.api.own == s.api.own && t.api.seen == s.api.seen
            && t.sums == s.sums.(workers := t.sums.workers) && |t.sums.workers| == |s.sums.workers|
            && forall k :: 0 <= k < |s.sums.workers| && k != EventWorker(e) ==> t.sums.workers[k] == s.sums.workers[k]
  {
  }

  lemma OtherStep(c: Config, who: Actor, s: State, e: Event)
    requires Enabled(c, s, e) && !By(who, e)
    ensures Untouched(who, s, Do(c, s, e))
  {
    HistoryGrows(c, s, e);
    if OfInstaller(e) {
      InstallerKeeps(c, s, e);
    } else if OfSummary(e) {
      SummaryKeeps(c, s, e);
    } else if OfWorker(e) {
      WorkerKeeps(c, s, e);
    }
  }

  /** The outcome of this installer event is a failure that a sync reports. */
  predicate Fails(e: Event) {
    match e
    case InstUninstall(r) => r.NoInstaller? || r.LookupFailed? || (r.found && !r.nsDeleted)
    case InstDropWrite(_, ok, conflict) => !ok && !conflict
    case InstDefault(_, ok) => !ok
    case InstStatus(_, ok) => !ok
    case InstChoose(ok) => !ok
    case InstFetch(ok) => !ok
    case InstHelm(r) => !r.Issued? || !r.ok
    case InstComplete(secret, _) => secret.None?
    case _ => false
  }

  /** Something failed at or after position `n` of a log. */
  ghost predicate FailedSince(es: seq<Event>, n: nat) {
    exists k :: n <= k < |es| && Fails(es[k])
  }

  lemma JustFailed(es: seq<Event>, n: nat)
    requires n < |es| && Fails(es[|es| - 1])
    ensures FailedSince(es, n)
  {
  }

  lemma FailedGrows(was: seq<Event>, es: seq<Event>, n: nat, m: nat)
    requires was <= es && m <= n && FailedSince(was, n)
    ensures FailedSince(es, m)
  {
    var k :| n <= k < |was| && Fails(was[k]);
    assert es[k] == was[k];
  }

  /** The events of a run that `who` performed. */
  ghost function Mine(who: Actor, run: seq<Event>): seq<Event> {
    if run == [] then []
    else Mine(who, run[..|run| - 1]) + if By(who, run[|run| - 1]) then [run[|run| - 1]] else []
  }

  lemma MineOne(who: Actor, run: seq<Event>, e: Event)
    ensures Mine(who, run + [e]) == Mine(who, run) + if By(who, e) then [e] else []
  {
    assert (run + [e])[..|run|] == run;
  }

  ghost function TicksOf(ticks: map<nat, seq<Event>>, k: nat): seq<Event> {
    if k in ticks then ticks[k] else []
  }

  ghost function WithTick(ticks: map<nat, seq<Event>>, e: Event): map<nat, seq<Event>> {
    if OfWorker(e) then ticks[EventWorker(e) := TicksOf(ticks, EventWorker(e)) + [e]] else ticks
  }

  /** The logs hold exactly the installer's and the workers' parts of the run. */
  ghost predicate Recorded(run: seq<Event>, own: seq<Event>, ticks: map<nat, seq<Event>>) {
    forall who: Actor {:trigger Mine(who, run)} ::
      && (who.TheInstaller? ==> Mine(who, run) == own)
      && (who.OneWorker? ==> Mine(who, run) == TicksOf(ticks, who.w))
  }

  lemma RecordedOne(run: seq<Event>, own: seq<Event>, ticks: map<nat, seq<Event>>, e: Event)
    requires Recorded(run, own, ticks)
    ensures Recorded(run + [e], own + if OfInstaller(e) then [e] else [], WithTick(ticks, e))
  {
    forall who: Actor
      ensures who.TheInstaller? ==> Mine(who, run + [e]) == own + if OfInstaller(e) then [e] else []
      ensures who.OneWorker? ==> Mine(who, run + [e]) == TicksOf(WithTick(ticks, e), who.w)
    {
      MineOne(who, run, e);
    }
  }

  /** `who` has done nothing between the two pairs of logs. */
  ghost predicate Silent(who: Actor, own: seq<Event>, ticks: map<nat, seq<Event>>,
                         now: seq<Event>, ticksNow: map<nat, seq<Event>>)
  {
    && (who.TheInstaller? ==> now == own)
    && (who.OneWorker? ==> TicksOf(ticksNow, who.w) == TicksOf(ticks, who.w))
  }

  /** The run leads from an initial state to `s`. The quantifier keeps the run folded until somebody asks
      where it leads. */
  ghost predicate Legal(c: Config, s0: State, run: seq<Event>, s: State) {
    Init(s0) && s.api.h != [] && forall q {:trigger Exec(c, q, run)} :: q == s0 ==> Exec(c, q, run) == Some(s)
  }

  class Cluster {
    const c: Config
    ghost const s0: State
    ghost var run: seq<Event>
    ghost var own: seq<Event>                 // the installer's part of the run
    ghost var ticks: map<nat, seq<Event>>     // each worker's part of the run
    var s: State

    /** The current state is reached by a run of the protocol, and the logs are parts of that run. */
    ghost predicate Valid()
      reads this
    {
      Legal(c, s0, run, s) && Recorded(run, own, ticks)
    }

    lemma ValidReaches()
      requires Valid()
      ensures Reachable(c, s)
    {
      assert Reaches(c, run, s);
    }

    constructor (c: Config, s0: State)
      requires Init(s0)
      ensures Valid() && this.c == c && this.s == s0 && run == [] && own == [] && ticks == map[]
    {
      this.c, this.s0, this.s, run, own, ticks := c, s0, s0, [], [], map[];
    }

    method Perform(e: Event)
      requires Valid() && Enabled(c, s, e)
      modifies this
      ensures Valid() && s == Do(c, old(s), e) && run == old(run) + [e]
      ensures own == old(own) + if OfInstaller(e) then [e] else []
      ensures ticks == WithTick(old(ticks), e)
    {
      ExecSnoc(c, s0, run, e);
      RecordedOne(run, own, ticks, e);
      run := run + [e];
      s := Do(c, s, e);
      own := own + if OfInstaller(e) then [e] else [];
      ticks := WithTick(ticks, e);
    }

    /** Any number of events of everybody but `who`: users, the cache, the operator's other goroutines. */
    method Others(who: Actor)
      requires Valid()
      modifies this
      ensures Valid() && old(run) <= run && Untouched(who, old(s), s) && Silent(who, old(own), old(ticks), own, ticks)
    {
      var n: nat := *;
      while n > 0
        invariant Valid() && old(run) <= run && Untouched(who, old(s), s)
        invariant Silent(who, old(own), old(ticks), own, ticks)
      {
        var e: Event := *;
        if !By(who, e) && Enabled(c, s, e) {
          OtherStep(c, who, s, e);
          Perform(e);
        }
        n := n - 1;
      }
    }

    /** What the server does with a compare-and-swap on version `rv`: a version that is not current
        conflicts, a removed object is not found, and the answer to an accepted write may be lost. */
    method Decide(rv: nat) returns (applied: bool, reply: Reply)
      requires s.api.h != []
      ensures applied ==> Exists(s.api) && rv == |s.api.h| - 1
      ensures reply.Ok? ==> applied
      ensures reply.Conflict? ==> !applied && rv != |s.api.h| - 1
    {
      applied, reply := false, Failed;
      if Exists(s.api) {
        if rv != |s.api.h| - 1 {
          reply := Conflict;
        } else {
          applied := *;
          var answered: bool := *;
          if applied && answered {
            reply := Ok;
          }
        }
      }
    }
  }
}
