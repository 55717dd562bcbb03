/** The installer controller's work queue and its bounded retry. A key added with a rate limit waits, and is
    queued at some later moment; how long it waits is left open. */
module RetryQueue {

  const MAX_INSTALL_SYNC_RETRY: nat := 30

  /** A counter the queue has not stored is 0. */
  function CountOf(counts: map<string, nat>, key: string): nat {
    if key in counts then counts[key] else 0
  }

  ghost predicate NoDuplicates(s: seq<string>) {
    forall i, j :: 0 <= i < j < |s| ==> s[i] != s[j]
  }

  class RateLimitingQueue {
    var queue: seq<string>
    var dirty: set<string>
    var processing: set<string>
    var requeues: map<string, nat>
    var delayed: set<string>       // added with a rate limit and not yet due

    /** The queue holds, once each, the dirty keys that nobody processes; counters stay within the bound. */
    ghost predicate Valid()
      reads this
    {
      && NoDuplicates(queue)
      && (forall k :: k in queue <==> k in dirty && k !in processing)
      && (forall k :: k in requeues ==> requeues[k] <= MAX_INSTALL_SYNC_RETRY)
    }

    constructor ()
      ensures Valid() && queue == [] && dirty == {} && processing == {} && requeues == map[] && delayed == {}
    {
      queue, dirty, processing, requeues, delayed := [], {}, {}, map[], {};
    }

    function NumRequeues(key: string): (n: nat)
      reads this
    {
      CountOf(requeues, key)
    }

    /** Keys waiting or being processed are not queued twice. */
    method Add(key: string)
      requires Valid()
      modifies this
      ensures Valid() && processing == old(processing) && requeues == old(requeues) && delayed == old(delayed)
      ensures dirty == old(dirty) + {key}
      ensures queue == if key in old(dirty) + processing then old(queue) else old(queue) + [key]
    {
      if key in dirty {
        assert dirty == dirty + {key};
        return;
      }
      dirty := dirty + {key};
      if key !in processing {
        queue := queue + [key];
      }
    }

    method Get() returns (key: string)
      requires Valid() && queue != []
      modifies this
      ensures Valid() && key == old(queue)[0] && queue == old(queue)[1..]
      ensures dirty == old(dirty) - {key} && processing == old(processing) + {key}
      ensures requeues == old(requeues) && delayed == old(delayed)
    {
      key := queue[0];
      assert queue == [key] + queue[1..];
      queue := queue[1..];
      processing := processing + {key};
      dirty := dirty - {key};
    }

    /** A key that became dirty while processed goes back to the queue. */
    method Done(key: string)
      requires Valid() && key in processing
      modifies this
      ensures Valid() && dirty == old(dirty) && processing == old(processing) - {key}
      ensures requeues == old(requeues) && delayed == old(delayed)
      ensures queue == if key in dirty then old(queue) + [key] else old(queue)
    {
      processing := processing - {key};
      if key in dirty {
        queue := queue + [key];
      }
    }

    /** Counts the failure and lets the key wait; a key that already waits is not added again. */
    method AddRateLimited(key: string)
      requires Valid() && NumRequeues(key) < MAX_INSTALL_SYNC_RETRY
      modifies this
      ensures Valid() && queue == old(queue) && processing == old(processing) && dirty == old(dirty)
      ensures requeues == old(requeues)[key := old(NumRequeues(key)) + 1] && delayed == old(delayed) + {key}
    {
      requeues := requeues[key := NumRequeues(key) + 1];
      delayed := delayed + {key};
    }

    /** The wait of a key is over. */
    method Deliver(key: string)
      requires Valid() && key in delayed
      modifies this
      ensures Valid() && processing == old(processing) && requeues == old(requeues)
      ensures delayed == old(delayed) - {key} && dirty == old(dirty) + {key}
      ensures queue == if key in old(dirty) + processing then old(queue) else old(queue) + [key]
    {
      delayed := delayed - {key};
      Add(key);
    }

    method Forget(key: string)
      requires Valid()
      modifies this
      ensures Valid() && queue == old(queue) && processing == old(processing) && dirty == old(dirty)
      ensures requeues == old(requeues) - {key} && delayed == old(delayed)
    {
      requeues := requeues - {key};
    }
  }

  /** The counter of a key after one sync. */
  function NextCount(n: nat, failed: bool): nat {
    if failed && n < MAX_INSTALL_SYNC_RETRY then n + 1 else 0
  }

  predicate Retried(n: nat, failed: bool) {
    failed && n < MAX_INSTALL_SYNC_RETRY
  }

  /** Controller.processNext: syncs of the keys in `failing` fail; keys in `touched` get an event
      while they are processed. */
  method ProcessNext(q: RateLimitingQueue, failing: set<string>, touched: set<string>) returns (key: string)
    requires q.Valid() && q.queue != []
    modifies q
    ensures q.Valid() && key == old(q.queue)[0] && q.processing == old(q.processing)
    ensures q.NumRequeues(key) == NextCount(old(q.NumRequeues(key)), key in failing)
    ensures q.requeues - {key} == old(q.requeues) - {key}
    ensures q.queue == old(q.queue)[1..] + if key in touched then [key] else []
    ensures q.dirty == old(q.dirty) - {key} + if key in touched then {key} else {}
    ensures q.delayed == old(q.delayed) + if Retried(old(q.NumRequeues(key)), key in failing) then {key} else {}
  {
    key := q.Get();
    assert key !in old(q.processing);
    if key in touched {
      q.Add(key);
    }
    if key in failing && q.NumRequeues(key) < MAX_INSTALL_SYNC_RETRY {
      q.AddRateLimited(key);
    } else {
      q.Forget(key);
    }
    q.Done(key);
    assert q.processing == old(q.processing);
  }

  // ---- Runs of one key ----

  /** The counter after a sequence of syncs, each failed or not. */
  function CountAfter(n: nat, failures: seq<bool>): nat {
    if failures == [] then n
    else NextCount(CountAfter(n, failures[..|failures| - 1]), failures[|failures| - 1])
  }

  /** The sync at position i ends with a rate-limited re-add rather than a Forget. */
  predicate ReaddedAt(failures: seq<bool>, i: nat)
    requires i < |failures|
  {
    Retried(CountAfter(0, failures[..i]), failures[i])
  }

  /** Through a stretch of re-adds the counter goes up by one each. If the stretch starts at the beginning or
      right after a Forget it is the length of the stretch: the number of re-adds since the last Forget. It
      never passes the bound. */
  lemma {:induction false} CountIsReadds(failures: seq<bool>, i: nat)
    requires i <= |failures| && (forall k :: i <= k < |failures| ==> ReaddedAt(failures, k))
    ensures CountAfter(0, failures) == CountAfter(0, failures[..i]) + |failures| - i
    ensures i == 0 || !ReaddedAt(failures, i - 1) ==> CountAfter(0, failures) == |failures| - i
    ensures CountAfter(0, failures) <= 30
    decreases |failures|
  {
    if 0 < i {
      assert failures[..i][..i - 1] == failures[..i - 1];
    }
    if failures == [] {
      assert failures[..i] == [];
    } else {
      var before := failures[..|failures| - 1];
      if i < |failures| {
        assert forall k :: i <= k < |before| ==> before[..k] == failures[..k];
        assert forall k :: i <= k < |before| ==> (ReaddedAt(before, k) <==> ReaddedAt(failures, k));
        CountIsReadds(before, i);
        assert before[..i] == failures[..i];
        assert ReaddedAt(failures, |failures| - 1);
      } else {
        assert failures[..i] == failures;
        assert before[..|before|] == before;
        CountIsReadds(before, |before|);
      }
    }
  }

  /** Between two Forgets there are at most 30 rate-limited re-adds, whatever fails when. */
  lemma AtMostThirtyReadds(failures: seq<bool>, i: nat, j: nat)
    requires i <= j <= |failures| && forall k :: i <= k < j ==> ReaddedAt(failures, k)
    ensures j - i <= 30
  {
    var run := failures[..j];
    assert forall k :: i <= k < j ==> run[..k] == failures[..k];
    assert forall k :: i <= k < j ==> (ReaddedAt(run, k) <==> ReaddedAt(failures, k));
    CountIsReadds(run, i);
  }

  /** A key that keeps failing is dropped by its 31st sync, not earlier, with its counter back at 0. */
  lemma {:induction false} PermanentFailure(failures: seq<bool>)
    requires forall k :: 0 <= k < |failures| ==> failures[k]
    requires |failures| <= 31
    ensures CountAfter(0, failures) == if |failures| == 31 then 0 else |failures|
    ensures forall k :: 0 <= k < |failures| ==> (ReaddedAt(failures, k) <==> k < 30)
  {
    if failures == [] {
    } else {
      var before := failures[..|failures| - 1];
      PermanentFailure(before);
      assert forall k :: 0 <= k < |before| ==> before[..k] == failures[..k];
      assert forall k :: 0 <= k < |before| ==> (ReaddedAt(before, k) <==> ReaddedAt(failures, k));
    }
  }

  // ---- Draining a queue in which everything fails ----

  predicate Bounded(counts: map<string, nat>) {
    forall k :: k in counts ==> counts[k] <= MAX_INSTALL_SYNC_RETRY
  }

  /** Syncs left for these keys if all of them fail: a termination measure. */
  function Work(keys: seq<string>, counts: map<string, nat>): nat
    requires Bounded(counts)
  {
    if keys == [] then 0
    else MAX_INSTALL_SYNC_RETRY + 1 - CountOf(counts, keys[0]) + Work(keys[1..], counts)
  }

  lemma {:induction false} WorkConcat(keys: seq<string>, more: seq<string>, counts: map<string, nat>)
    requires Bounded(counts)
    ensures Work(keys + more, counts) == Work(keys, counts) + Work(more, counts)
  {
    if keys == [] {
      assert keys + more == more;
    } else {
      assert (keys + more)[1..] == keys[1..] + more;
      WorkConcat(keys[1..], more, counts);
    }
  }

  lemma {:induction false} WorkAgrees(keys: seq<string>, counts: map<string, nat>, other: map<string, nat>)
    requires Bounded(counts) && Bounded(other)
    requires forall x :: x in keys ==> CountOf(counts, x) == CountOf(other, x)
    ensures Work(keys, counts) == Work(keys, other)
  {
    if keys == [] {
    } else {
      WorkAgrees(keys[1..], counts, other);
    }
  }

  /** One failing sync of a key, the others' counters unchanged. */
  predicate Failed(key: string, counts: map<string, nat>, other: map<string, nat>) {
    && CountOf(other, key) == NextCount(CountOf(counts, key), true)
    && other - {key} == counts - {key}
  }

  lemma CountsAgree(key: string, counts: map<string, nat>, other: map<string, nat>, x: string)
    requires other - {key} == counts - {key} && x != key
    ensures CountOf(counts, x) == CountOf(other, x)
  {
    assert (x in counts - {key} <==> x in counts) && (x in other - {key} <==> x in other);
  }

  lemma WorkElsewhere(keys: seq<string>, key: string, counts: map<string, nat>, other: map<string, nat>)
    requires Bounded(counts) && Bounded(other) && other - {key} == counts - {key} && key !in keys
    ensures Work(keys, counts) == Work(keys, other)
  {
    forall x | x in keys ensures CountOf(counts, x) == CountOf(other, x) {
      CountsAgree(key, counts, other, x);
    }
    WorkAgrees(keys, counts, other);
  }

  /** One failing sync of the first key leaves one sync less, whether it waits for another or is dropped. */
  lemma WorkFalls(keys: seq<string>, waiting: seq<string>, key: string, counts: map<string, nat>,
                  other: map<string, nat>)
    requires Bounded(counts) && Bounded(other) && Failed(key, counts, other)
    requires key !in keys && key !in waiting
    ensures Work([key] + keys, counts) == MAX_INSTALL_SYNC_RETRY + 1 - CountOf(counts, key) + Work(keys, other)
    ensures Work(waiting, counts) == Work(waiting, other)
    ensures Work(waiting + [key], other) == Work(waiting, other) + MAX_INSTALL_SYNC_RETRY + 1 - CountOf(other, key)
  {
    WorkElsewhere(keys, key, counts, other);
    WorkElsewhere(waiting, key, counts, other);
    WorkConcat(waiting, [key], other);
    assert ([key] + keys)[1..] == keys;
    assert Work([key][1..], other) == 0;
  }

  /** A key whose wait is over moves to the queue; that is no work done. */
  lemma WorkMoves(keys: seq<string>, waiting: seq<string>, j: nat, counts: map<string, nat>)
    requires j < |waiting| && Bounded(counts)
    ensures Work(keys + [waiting[j]], counts) + Work(waiting[..j] + waiting[j + 1..], counts) ==
            Work(keys, counts) + Work(waiting, counts)
  {
    var a, k, b := waiting[..j], [waiting[j]], waiting[j + 1..];
    assert waiting == a + (k + b);
    WorkConcat(keys, k, counts);
    WorkConcat(a, b, counts);
    WorkConcat(a, k + b, counts);
    WorkConcat(k, b, counts);
  }

  /** The waiting keys, listed. */
  ghost predicate Lists(waiting: seq<string>, delayed: set<string>) {
    NoDuplicates(waiting) && forall k :: k in waiting <==> k in delayed
  }

  lemma ListsLess(waiting: seq<string>, delayed: set<string>, j: nat)
    requires Lists(waiting, delayed) && j < |waiting|
    ensures Lists(waiting[..j] + waiting[j + 1..], delayed - {waiting[j]})
  {
    var less := waiting[..j] + waiting[j + 1..];
    assert forall i :: 0 <= i < |less| ==> less[i] == waiting[if i < j then i else i + 1];
    forall k | k in delayed - {waiting[j]} ensures k in less {
      var i :| 0 <= i < |waiting| && waiting[i] == k;
      assert less[if i < j then i else i - 1] == k;
    }
  }

  lemma ListsSome(waiting: seq<string>, delayed: set<string>)
    requires Lists(waiting, delayed)
    ensures waiting != [] ==> delayed != {}
  {
    if waiting != [] {
      assert waiting[0] in delayed;
    }
  }

  /** A queue without events: no waiting key is dirty or processed, and every key of `start` is still queued,
      still waits, or has been dropped. */
  ghost predicate Draining(q: RateLimitingQueue, waiting: seq<string>, start: seq<string>)
    reads q
  {
    && q.Valid() && Lists(waiting, q.delayed)
    && (forall k :: k in q.delayed ==> k !in q.dirty && k !in q.processing)
    && (forall k :: k in start ==> k in q.queue || k in q.delayed || q.NumRequeues(k) == 0)
  }

  /** The wait of some key ends. */
  method DeliverOne(q: RateLimitingQueue, ghost waiting: seq<string>, ghost start: seq<string>)
    returns (ghost left: seq<string>)
    requires Draining(q, waiting, start) && q.delayed != {}
    modifies q
    ensures Draining(q, left, start) && |left| < |waiting|
    ensures Work(q.queue, q.requeues) + Work(left, q.requeues) ==
            old(Work(q.queue, q.requeues)) + old(Work(waiting, q.requeues))
  {
    var k :| k in q.delayed;
    ghost var j :| 0 <= j < |waiting| && waiting[j] == k;
    WorkMoves(q.queue, waiting, j, q.requeues);
    ListsLess(waiting, q.delayed, j);
    left := waiting[..j] + waiting[j + 1..];
    q.Deliver(k);
  }

  /** The first key fails once more. */
  method FailFirst(q: RateLimitingQueue, ghost waiting: seq<string>, ghost start: seq<string>)
    returns (ghost left: seq<string>)
    requires Draining(q, waiting, start) && q.queue != []
    modifies q
    ensures Draining(q, left, start)
    ensures Work(q.queue, q.requeues) + Work(left, q.requeues) ==
            old(Work(q.queue, q.requeues)) + old(Work(waiting, q.requeues)) - 1
  {
    ghost var keys, counts := q.queue[1..], q.requeues;
    assert q.queue == [q.queue[0]] + keys;
    var key := ProcessNext(q, {q.queue[0]}, {});
    assert q.queue == keys;
    WorkFalls(keys, waiting, key, counts, q.requeues);
    left := waiting + if key in q.delayed then [key] else [];
    assert waiting + [] == waiting;
    forall k | k != key ensures CountOf(counts, k) == q.NumRequeues(k) {
      CountsAgree(key, counts, q.requeues, k);
    }
  }

  /** Without events, a queue of failing keys runs dry after exactly the syncs the counters allow, whenever the
      waits end, and every key, queued or waiting, is dropped with its counter reset. */
  method DrainFailing(q: RateLimitingQueue, ghost waiting: seq<string>) returns (syncs: nat)
    requires Draining(q, waiting, q.queue + waiting)
    modifies q
    ensures q.Valid() && q.queue == [] && q.delayed == {}
    ensures syncs == old(Work(q.queue + waiting, q.requeues))
    ensures forall k :: k in old(q.queue) + waiting ==> q.NumRequeues(k) == 0
  {
    ghost var start, left := q.queue + waiting, waiting;
    WorkConcat(q.queue, waiting, q.requeues);
    syncs := 0;
    while q.queue != [] || q.delayed != {}
      invariant Draining(q, left, start)
      invariant syncs + Work(q.queue, q.requeues) + Work(left, q.requeues) == old(Work(start, q.requeues))
      decreases Work(q.queue, q.requeues) + Work(left, q.requeues), |left|
    {
      var due: bool := *;
      if q.queue == [] || (due && q.delayed != {}) {
        left := DeliverOne(q, left, start);
      } else {
        left := FailFirst(q, left, start);
        syncs := syncs + 1;
      }
    }
    ListsSome(left, q.delayed);
  }
}
