/** What the workers of a manager may still do after its shutdown, over every run. */
module Shutdown {
  import opened Api
  import opened Protocol
  import opened Steps
  import Quiescence
  import Removals
  import SingleWorker

  /** The ticks, the status writes and the turns of the loop that worker `k` starts or finishes in a run. */
  function Ticks(es: seq<Event>, k: nat): nat {
    if es == [] then 0 else Ticks(es[1..], k) + if es[0].WorkRead? && es[0].w == k then 1 else 0
  }

  function Writes(es: seq<Event>, k: nat): nat {
    if es == [] then 0 else Writes(es[1..], k) + if es[0].WorkWrite? && es[0].w == k then 1 else 0
  }

  function Turns(es: seq<Event>, k: nat): nat {
    if es == [] then 0 else Turns(es[1..], k) + if es[0].WorkLoop? && es[0].w == k then 1 else 0
  }

  ghost predicate IsShutDown(s: State, k: nat) {
    k < |s.sums.workers| && s.sums.workers[k].mgr in s.sums.closed
  }

  lemma StaysShutDown(c: Config, s: State, e: Event, k: nat)
    requires IsShutDown(s, k) && Enabled(c, s, e)
    ensures IsShutDown(Do(c, s, e), k)
    ensures !OfWorker(e) || EventWorker(e) != k ==> Do(c, s, e).sums.workers[k] == s.sums.workers[k]
  {
  }

  /** Whatever happens after the shutdown, a worker starts at most one more tick, and only if it was about to;
      it makes at most one more status write, and only if it was about to tick or write; and it leaves its loop
      at the next turn, for good. */
  lemma {:induction false} ShutdownBound(c: Config, s: State, k: nat, es: seq<Event>)
    requires IsShutDown(s, k) && Exec(c, s, es).Some?
    ensures var pc, t := s.sums.workers[k].pc, Exec(c, s, es).value;
            && Ticks(es, k) <= (if pc.WTop? then 1 else 0)
            && Writes(es, k) <= (if pc.WTop? || pc.WHas? then 1 else 0)
            && Turns(es, k) <= (if pc.WExit? then 0 else 1)
            && IsShutDown(t, k)
            && (Turns(es, k) > 0 ==> t.sums.workers[k].pc.WExit?)
            && (pc.WExit? ==> t.sums.workers[k].pc.WExit?)
    decreases |es|
  {
    if es == [] {
    } else {
      StaysShutDown(c, s, es[0], k);
      ShutdownBound(c, Do(c, s, es[0]), k, es[1..]);
    }
  }

  lemma {:induction false} OnlyWorkerWrites(c: Config, s: State, es: seq<Event>)
    requires Reachable(c, s) && c.ryow && Exec(c, s, es).Some?
    ensures Quiescence.Writes(es) == Writes(es, 0)
    decreases |es|
  {
    if es == [] {
    } else {
      SingleWorker.OneWorker(c, s);
      Removals.ReachableStep(c, s, es[0]);
      OnlyWorkerWrites(c, Do(c, s, es[0]), es[1..]);
    }
  }

  /** With fresh reads at most one summary write follows the shutdown of the object's manager. */
  lemma OneWriteAfterShutdown(c: Config, s: State, es: seq<Event>)
    requires Reachable(c, s) && c.ryow && IsShutDown(s, 0) && Exec(c, s, es).Some?
    ensures Quiescence.Writes(es) <= 1
  {
    OnlyWorkerWrites(c, s, es);
    ShutdownBound(c, s, 0, es);
  }
}
