/** pkg/status: the one way any goroutine writes a status. */
module StatusWrites {
  import opened Api
  import opened Protocol
  import opened World

  const MAX_STATUS_ATTEMPTS: nat := 4

  function StatusEvent(who: Actor, applied: bool, ok: bool): Event {
    if who.OneWorker? then WorkWrite(who.w, applied) else InstStatus(applied, ok)
  }

  /** `who` is about to write exactly `status`. */
  predicate Pending(s: State, who: Actor, status: Status) {
    match who
    case TheInstaller => s.inst.Syncing? && WritesStatus(s.inst.pc) && s.inst.kmd.status == status
    case TheSummaryController => false
    case OneWorker(w) => w < |s.sums.workers| && s.sums.workers[w].pc.WHas? && s.sums.workers[w].pc.status == status
  }

  /** The retry loop: reads the current version and writes it back with the new status until the server
      does not answer with a conflict, four times at most. Whether the write was applied is left to the event
      that follows. */
  method TryUpdate(w: Cluster, who: Actor) returns (applied: bool, ok: bool, ghost last: Reply, ghost conflicts: nat)
    requires w.Valid()
    modifies w
    ensures w.Valid() && old(w.run) <= w.run && Untouched(who, old(w.s), w.s)
    ensures Silent(who, old(w.own), old(w.ticks), w.own, w.ticks)
    ensures (ok ==> applied) && (applied ==> Exists(w.s.api))
    ensures (ok <==> last.Ok?) && conflicts <= 4 && (last.Conflict? <==> conflicts == 4)
  {
    var attempt := 0;
    var reply := Failed;
    applied, conflicts := false, 0;
    while attempt < MAX_STATUS_ATTEMPTS
      invariant w.Valid() && old(w.run) <= w.run && Untouched(who, old(w.s), w.s) && !applied && !reply.Ok?
      invariant Silent(who, old(w.own), old(w.ticks), w.own, w.ticks)
      invariant conflicts == attempt <= MAX_STATUS_ATTEMPTS && (reply.Conflict? <==> attempt > 0)
    {
      w.Others(who);
      if !Exists(w.s.api) {
        reply := Failed;
        break;
      }
      var rv := |w.s.api.h| - 1;
      w.Others(who);
      applied, reply := w.Decide(rv);
      if !reply.Conflict? {
        break;
      }
      attempt, conflicts := attempt + 1, conflicts + 1;
    }
    ok, last := reply.Ok?, reply;
  }

  /** Overwrites the whole status of whatever version is current, retrying on conflict. On return `who`
      is just past the one status event of the protocol this is. */
  method SetStatus(w: Cluster, who: Actor, status: Status) returns (err: bool, ghost applied: bool)
    requires w.Valid() && Pending(w.s, who, status)
    modifies w
    ensures w.Valid() && old(w.run) < w.run && w.run[|w.run| - 1] == StatusEvent(who, applied, !err)
    ensures old(w.s.api.h) <= w.s.api.h
    ensures (!err ==> applied) && (applied ==> Last(w.s.api.h).status == status)
    ensures who.TheInstaller? ==> w.own == old(w.own) + [InstStatus(applied, !err)]
    ensures who.TheInstaller? ==> w.s.inst == AfterStatus(old(w.s.inst), |w.s.api.h|, !err)
    ensures who.OneWorker? ==> who.w < |w.s.sums.workers| && old(w.s.sums.closed) <= w.s.sums.closed
    ensures who.OneWorker? ==> TicksOf(w.ticks, who.w) == old(TicksOf(w.ticks, who.w)) + [WorkWrite(who.w, applied)]
    ensures who.OneWorker? ==>
              w.s.sums.workers[who.w] == Ticked(old(w.s.sums.workers[who.w]))
  {
    var done, ok, _, _ := TryUpdate(w, who);
    HistoryGrows(w.c, w.s, StatusEvent(who, done, ok));
    w.Perform(StatusEvent(who, done, ok));
    err, applied := !ok, done;
  }
}
