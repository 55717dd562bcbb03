/** The summary controller and its managers in their imperative form: the lock-protected map of
    managers, the sync of one key, and the worker loop of a manager. */
module SummaryControllers {
  import opened Api
  import opened Protocol
  import opened World
  import opened StatusWrites
  import Aggregation
  import Theorems

  class SummaryManager {
    const id: nat
    var closed: bool          // the close channel
    var once: bool            // closeOnce has run
    ghost var closes: nat     // how often the channel was closed; twice would panic

    ghost predicate Valid()
      reads this
    {
      once == closed && closes == if once then 1 else 0
    }

    constructor (id: nat)
      ensures Valid() && !closed && this.id == id
    {
      this.id, closed, once, closes := id, false, false, 0;
    }

    /** Closes the channel, once however often it is called. */
    method Shuntdown()
      requires Valid()
      modifies this
      ensures Valid() && closed && closes == 1
    {
      if !once {
        once := true;
        closed := true;
        closes := closes + 1;
      }
    }
  }

  /** From position `n` of the run on, a worker was started or the summary finalizer was dropped. */
  ghost predicate Served(run: seq<Event>, n: nat) {
    exists k :: n <= k < |run| && (run[k].SumRun? || (run[k].SumUnfinal? && run[k].ok))
  }

  /** Adds the summary finalizer unless the snapshot has it. */
  method EnsureFinalizer(w: Cluster) returns (err: bool)
    requires w.Valid() && (SumAt(w.s.sums, SAdd) || SumAt(w.s.sums, SCheck))
    modifies w
    ensures w.Valid() && old(w.run) <= w.run && w.s.sums.manager == old(w.s.sums.manager)
    ensures if err then w.s.sums.sum.SIdle? && w.s.sums.queued else SumAt(w.s.sums, SCheck)
  {
    err := false;
    if w.s.sums.sum.pc.SAdd? {
      var applied, reply := w.Decide(w.s.sums.sum.rv);
      w.Perform(SumAdd(applied, reply.Ok?));
      err := !reply.Ok?;
    }
  }

  /** Updates the object as it was read, without the summary finalizer. */
  method DropFinalizer(w: Cluster) returns (err: bool)
    requires w.Valid() && SumAt(w.s.sums, SUnfinal)
    modifies w
    ensures w.Valid() && old(w.run) < w.run && w.s.sums.manager == old(w.s.sums.manager) && w.s.sums.sum.SIdle?
    ensures if err then w.s.sums.queued else Served(w.run, |old(w.run)|)
  {
    var applied, reply := w.Decide(w.s.sums.sum.rv);
    w.Perform(SumUnfinal(applied, reply.Ok?));
    err := !reply.Ok?;
    assert w.run[|w.run| - 1] == SumUnfinal(applied, !err);
  }

  class SummaryController {
    var managers: map<string, SummaryManager>

    /** Every registered manager is open, and no two names share one. */
    ghost predicate Valid()
      reads this, managers.Values
    {
      && (forall n :: n in managers ==> managers[n].Valid() && !managers[n].closed)
      && (forall n, m :: n in managers && m in managers && n != m ==> managers[n] != managers[m])
    }

    constructor ()
      ensures Valid() && managers == map[]
    {
      managers := map[];
    }

    /** Shuts the manager down and forgets it. */
    method RemoveKarmadaDeployment(name: string)
      requires Valid()
      modifies this, managers.Values
      ensures Valid() && managers == old(managers) - {name}
      ensures name in old(managers) ==> old(managers)[name].closed && old(managers)[name].closes == 1
      ensures forall m :: m in old(managers) && m != name ==> unchanged(old(managers)[m])
    {
      if name !in managers {
        return;
      }
      managers[name].Shuntdown();
      managers := managers - {name};
    }

    /** Finds or makes the manager; making one dereferences the secret reference. */
    method GetSummaryManager(name: string, secretRef: Option<SecretRef>, clientOk: bool, id: nat)
      returns (m: SummaryManager?, panicked: bool)
      requires Valid()
      modifies this
      ensures Valid()
      ensures panicked <==> name !in old(managers) && secretRef.None?
      ensures name in old(managers) ==> m == old(managers)[name] && managers == old(managers)
      ensures name !in old(managers) && (secretRef.None? || !clientOk) ==> m == null && managers == old(managers)
      ensures name !in old(managers) && secretRef.Some? && clientOk ==>
                m != null && fresh(m) && m.id == id && managers == old(managers)[name := m]
    {
      m, panicked := null, false;
      if name in managers {
        m := managers[name];
      } else if secretRef.None? {
        panicked := true;
      } else if clientOk {
        m := new SummaryManager(id);
        managers := managers[name := m];
      }
    }

    /** The map agrees with the protocol on the world's object. */
    ghost predicate Agrees(w: Cluster)
      reads this, w
    {
      w.s.sums.manager == if w.c.name in managers then Some(managers[w.c.name].id) else None
    }

    /** One sync of the world's key. `clientOk` says whether a client can be built from the secret. */
    method SyncKmdStatusResource(w: Cluster, clientOk: bool) returns (err: bool, panicked: bool)
      requires Valid() && Agrees(w) && w.Valid() && w.s.sums.sum.SIdle? && w.s.sums.queued
      modifies this, managers.Values, w
      ensures Valid() && w.Valid() && Agrees(w) && old(w.run) < w.run
      ensures if panicked then SumAt(w.s.sums, SPanic) else w.s.sums.sum.SIdle?
      ensures w.c.ryow ==> !panicked
      ensures err ==> w.s.sums.queued
      ensures !err && !panicked ==> Lister(w.s.api).None? || Served(w.run, |old(w.run)|)
      ensures managers - {w.c.name} == old(managers) - {w.c.name}
    {
      panicked, err := false, false;
      w.Others(TheSummaryController);
      w.Perform(SumStart);
      if w.s.sums.sum.SIdle? {
        return;
      }
      w.Others(TheSummaryController);
      if w.s.sums.sum.obj.deleting {
        ghost var n := |w.run|;
        err := SyncDeleted(w);
        assert !err ==> Served(w.run, n);
      } else {
        ghost var n := |w.run|;
        err, panicked := SyncLive(w, clientOk);
        assert !err && !panicked ==> Served(w.run, n);
      }
    }

    method SyncLive(w: Cluster, clientOk: bool) returns (err: bool, panicked: bool)
      requires Valid() && Agrees(w) && w.Valid() && (SumAt(w.s.sums, SAdd) || SumAt(w.s.sums, SCheck))
      modifies this, w
      ensures Valid() && w.Valid() && Agrees(w) && old(w.run) <= w.run
      ensures if panicked then SumAt(w.s.sums, SPanic) else w.s.sums.sum.SIdle?
      ensures w.c.ryow ==> !panicked
      ensures err ==> w.s.sums.queued
      ensures !err && !panicked ==> Served(w.run, |old(w.run)|)
      ensures managers - {w.c.name} == old(managers) - {w.c.name}
    {
      panicked := false;
      err := EnsureFinalizer(w);
      if !err {
        w.Others(TheSummaryController);
        ghost var n := |w.run|;
        err, panicked := StartManager(w, w.s.sums.sum.obj, clientOk);
        assert !err && !panicked ==> Served(w.run, n);
      }
    }

    method SyncDeleted(w: Cluster) returns (err: bool)
      requires Valid() && Agrees(w) && w.Valid() && SumAt(w.s.sums, SRemove)
      modifies this, managers.Values, w
      ensures Valid() && w.Valid() && Agrees(w) && old(w.run) < w.run && w.s.sums.sum.SIdle?
      ensures err ==> w.s.sums.queued
      ensures !err ==> Served(w.run, |old(w.run)|)
      ensures managers == old(managers) - {w.c.name}
    {
      w.Perform(SumRemove);
      RemoveKarmadaDeployment(w.c.name);
      w.Others(TheSummaryController);
      ghost var n := |w.run|;
      err := DropFinalizer(w);
      assert !err ==> Served(w.run, n);
    }

    /** GetSummaryManager for the world's key, and the start of a worker for what it returns. */
    method StartManager(w: Cluster, kmd: Object, clientOk: bool) returns (err: bool, panicked: bool)
      requires Valid() && Agrees(w) && w.Valid() && SumAt(w.s.sums, SCheck) && kmd == w.s.sums.sum.obj
      modifies this, w
      ensures Valid() && w.Valid() && Agrees(w) && old(w.run) < w.run
      ensures if panicked then SumAt(w.s.sums, SPanic) else w.s.sums.sum.SIdle?
      ensures w.c.ryow ==> !panicked
      ensures err ==> w.s.sums.queued
      ensures !err && !panicked ==> Served(w.run, |old(w.run)|)
      ensures managers - {w.c.name} == old(managers) - {w.c.name}
    {
      w.Perform(SumCheck);
      w.Others(TheSummaryController);
      err, panicked := false, false;
      if w.s.sums.sum.pc.SCreate? {
        err, panicked := CreateManager(w, kmd, clientOk);
      } else {
        var _, _ := GetSummaryManager(w.c.name, kmd.status.secretRef, clientOk, 0);
      }
      if !err && !panicked {
        w.Perform(SumRun);
        assert w.run[|w.run| - 1] == SumRun;
      }
    }

    method CreateManager(w: Cluster, kmd: Object, clientOk: bool) returns (err: bool, panicked: bool)
      requires Valid() && Agrees(w) && w.Valid() && SumAt(w.s.sums, SCreate) && kmd == w.s.sums.sum.obj
      requires w.s.sums.manager.None?
      modifies this, w
      ensures Valid() && w.Valid() && Agrees(w) && old(w.run) <= w.run
      ensures err ==> !panicked
      ensures if panicked then SumAt(w.s.sums, SPanic)
              else if err then w.s.sums.sum.SIdle? && w.s.sums.queued
              else w.s.sums.sum.SSync? && w.s.sums.sum.pc.SRun?
      ensures w.c.ryow ==> !panicked
      ensures managers - {w.c.name} == old(managers) - {w.c.name}
    {
      var m;
      if w.c.ryow {
        w.ValidReaches();
        Theorems.NeverPanics(w.c, w.s);
      }
      m, panicked := GetSummaryManager(w.c.name, kmd.status.secretRef, clientOk, w.s.sums.nextManager);
      w.Perform(SumCreate(clientOk));
      err := m == null && !panicked;
    }
  }

  // ---- The worker loop of a manager ----

  /** One tick: read the object, compute the summary, write the status if the summary changed. `read` is what the
      lister showed. */
  method ProcessNext(w: Cluster, k: nat, l: Aggregation.Listing)
    returns (ghost write: seq<Event>, ghost read: Option<Object>)
    requires w.Valid() && k < |w.s.sums.workers| && w.s.sums.workers[k].pc.WTop?
    modifies w
    ensures w.Valid() && old(w.run) < w.run
    ensures k < |w.s.sums.workers| && w.s.sums.workers[k].pc.WSelect? && old(w.s.sums.closed) <= w.s.sums.closed
    ensures w.s.sums.workers[k].mgr == old(w.s.sums.workers[k].mgr)
    ensures TicksOf(w.ticks, k) == old(TicksOf(w.ticks, k)) + [WorkRead(k, Aggregation.SummaryOf(l))] + write
    ensures write in {[], [WorkWrite(k, true)], [WorkWrite(k, false)]}
    ensures read.Some? ==> read.value in w.s.api.h
    ensures write == [] <==>
              read.None? || Aggregation.SummaryOf(l).None? || read.value.status.summary == Aggregation.SummaryOf(l)
    ensures write == [WorkWrite(k, true)] ==>
              Last(w.s.api.h).status == read.value.status.(summary := Aggregation.SummaryOf(l))
  {
    read := Compare(w, k, l);
    write := [];
    if w.s.sums.workers[k].pc.WHas? {
      var _, applied := SetStatus(w, OneWorker(k), w.s.sums.workers[k].pc.status);
      write := [WorkWrite(k, applied)];
    }
  }

  /** The first half of a tick: nothing is written yet. */
  method Compare(w: Cluster, k: nat, l: Aggregation.Listing) returns (ghost read: Option<Object>)
    requires w.Valid() && k < |w.s.sums.workers| && w.s.sums.workers[k].pc.WTop?
    modifies w
    ensures w.Valid() && old(w.run) < w.run
    ensures k < |w.s.sums.workers| && old(w.s.sums.closed) <= w.s.sums.closed
    ensures w.s.sums.workers[k].mgr == old(w.s.sums.workers[k].mgr)
    ensures TicksOf(w.ticks, k) == old(TicksOf(w.ticks, k)) + [WorkRead(k, Aggregation.SummaryOf(l))]
    ensures read.Some? ==> read.value in w.s.api.h
    ensures var pc, x := w.s.sums.workers[k].pc, Aggregation.SummaryOf(l);
            if read.None? || x.None? || read.value.status.summary == x then pc.WSelect?
            else pc.WHas? && pc.status == read.value.status.(summary := x)
  {
    w.Others(OneWorker(k));
    read := Lister(w.s.api);
    var computed := Aggregation.SyncHandler(l);
    w.Perform(WorkRead(k, computed));
  }

  /** The events of a worker's log without its status writes. */
  ghost function Rounds(es: seq<Event>): seq<Event> {
    if es == [] then []
    else Rounds(es[..|es| - 1]) + if es[|es| - 1].WorkWrite? then [] else [es[|es| - 1]]
  }

  lemma RoundsOne(es: seq<Event>, e: Event)
    ensures Rounds(es + [e]) == Rounds(es) + if e.WorkWrite? then [] else [e]
  {
    assert (es + [e])[..|es|] == es;
  }

  /** A tick on each of the lists, each followed by a turn of the loop. */
  ghost function TickEach(k: nat, lists: seq<Aggregation.Listing>): seq<Event> {
    if lists == [] then []
    else TickEach(k, lists[..|lists| - 1])
         + [WorkRead(k, Aggregation.SummaryOf(lists[|lists| - 1])), WorkLoop(k)]
  }

  lemma RoundsThree(was: seq<Event>, read: Event, write: seq<Event>, k: nat)
    requires read.WorkRead? && (write == [] || (|write| == 1 && write[0].WorkWrite?))
    ensures Rounds(was + [read] + write + [WorkLoop(k)]) == Rounds(was) + [read, WorkLoop(k)]
  {
    RoundsOne(was, read);
    if write == [] {
      assert was + [read] + write == was + [read];
    } else {
      assert write == [write[0]];
      RoundsOne(was + [read], write[0]);
    }
    RoundsOne(was + [read] + write, WorkLoop(k));
  }

  lemma TickOne(k: nat, lists: seq<Aggregation.Listing>, n: nat)
    requires n < |lists|
    ensures TickEach(k, lists[..n + 1]) ==
            TickEach(k, lists[..n]) + [WorkRead(k, Aggregation.SummaryOf(lists[n])), WorkLoop(k)]
  {
    assert lists[..n + 1][..n] == lists[..n];
  }

  /** One round of the loop. */
  method Round(w: Cluster, k: nat, l: Aggregation.Listing)
    requires w.Valid() && k < |w.s.sums.workers| && w.s.sums.workers[k].pc.WTop?
    modifies w
    ensures w.Valid() && k < |w.s.sums.workers| && old(w.s.sums.closed) <= w.s.sums.closed
    ensures Rounds(TicksOf(w.ticks, k)) ==
            Rounds(old(TicksOf(w.ticks, k))) + [WorkRead(k, Aggregation.SummaryOf(l)), WorkLoop(k)]
    ensures w.s.sums.workers[k] ==
            old(w.s.sums.workers[k]).(pc := if old(w.s.sums.workers[k].mgr) in w.s.sums.closed then WExit else WTop)
  {
    ghost var was, write, read := TicksOf(w.ticks, k), [], None;
    write, read := ProcessNext(w, k, l);
    RoundsThree(was, WorkRead(k, Aggregation.SummaryOf(l)), write, k);
    w.Others(OneWorker(k));
    w.Perform(WorkLoop(k));
  }

  /** SummaryManager.worker, for at most as many rounds as there are `lists`: a manager already shut down gets
      one tick. Each round is a tick on the next list and a turn of the loop, besides status writes. */
  method Worker(w: Cluster, k: nat, lists: seq<Aggregation.Listing>) returns (ticks: nat)
    requires w.Valid() && k < |w.s.sums.workers| && w.s.sums.workers[k].pc.WTop?
    modifies w
    ensures w.Valid() && ticks <= |lists|
    ensures Rounds(TicksOf(w.ticks, k)) == Rounds(old(TicksOf(w.ticks, k))) + TickEach(k, lists[..ticks])
    ensures old(w.s.sums.workers[k].mgr in w.s.sums.closed) ==> ticks <= 1
    ensures k < |w.s.sums.workers|
    ensures ticks < |lists| ==> w.s.sums.workers[k].pc.WExit? && w.s.sums.workers[k].mgr in w.s.sums.closed
  {
    ticks := 0;
    ghost var mgr, was := w.s.sums.workers[k].mgr, Rounds(TicksOf(w.ticks, k));
    assert was + TickEach(k, lists[..0]) == was;
    while ticks < |lists|
      invariant w.Valid() && ticks <= |lists| && k < |w.s.sums.workers|
      invariant w.s.sums.workers[k].pc.WTop? && w.s.sums.workers[k].mgr == mgr
      invariant old(w.s.sums.closed) <= w.s.sums.closed
      invariant mgr in old(w.s.sums.closed) ==> ticks == 0
      invariant Rounds(TicksOf(w.ticks, k)) == was + TickEach(k, lists[..ticks])
    {
      Round(w, k, lists[ticks]);
      TickOne(k, lists, ticks);
      ticks := ticks + 1;
      if w.s.sums.workers[k].pc.WExit? {
        return;
      }
    }
  }
}
