/** With fresh reads the whole life of an object is a run: nothing the theorems rule out is needed for it. */
module FreshRuns {
  import opened Api
  import opened Protocol
  import opened Runs

  const FRESH := Config("kmd", true, true)

  /** The summary controller is told of the ready version, adds its finalizer and starts a worker. */
  lemma ManagerStarts(es: seq<Event>, s: State) returns (fs: seq<Event>, t: State)
    requires Exec(FRESH, Start(), es) == Some(s) && Exists(s.api) && s.sums == Start().sums
    requires s.api.told == 0 && s.api.seen < |s.api.h|
    requires var o := Last(s.api.h); o.status.ready && o.status.secretRef.Some? && !o.deleting
                                     && o.finalizers == {InstallerFinalizer}
    ensures Exec(FRESH, Start(), fs) == Some(t) && t.inst == s.inst && t.helm == s.helm
    ensures var n := |s.api.h|;
            t.api == s.api.(h := s.api.h + [WithSummary(Last(s.api.h))], seen := n, told := n)
    ensures t.sums == Summaries(false, SIdle, Some(0), 1, {}, [Worker(0, WTop)])
  {
    var n := |s.api.h|;
    fs, t := Extend(FRESH, Start(), es, s, CacheAdvance(n));
    fs, t := Extend(FRESH, Start(), fs, t, CacheNotify(n));
    fs, t := AddsFinalizer(fs, t);
    fs, t := Registers(fs, t);
  }

  /** A sync finds no manager, makes one and starts it. */
  lemma Registers(es: seq<Event>, s: State) returns (fs: seq<Event>, t: State)
    requires Exec(FRESH, Start(), es) == Some(s) && s.api.h != []
    requires SumAt(s.sums, SCheck) && s.sums.sum.obj.status.secretRef.Some?
    requires s.sums == Summaries(false, s.sums.sum, None, 0, {}, [])
    ensures Exec(FRESH, Start(), fs) == Some(t)
    ensures t == s.(sums := Summaries(false, SIdle, Some(0), 1, {}, [Worker(0, WTop)]))
  {
    fs, t := Extend(FRESH, Start(), es, s, SumCheck);
    fs, t := Extend(FRESH, Start(), fs, t, SumCreate(true));
    fs, t := Extend(FRESH, Start(), fs, t, SumRun);
  }

  lemma AddsFinalizer(es: seq<Event>, s: State) returns (fs: seq<Event>, t: State)
    requires Exec(FRESH, Start(), es) == Some(s) && Exists(s.api) && s.api.seen == |s.api.h|
    requires !Last(s.api.h).deleting && SummaryFinalizer !in Last(s.api.h).finalizers
    requires s.sums == Start().sums.(queued := true)
    ensures Exec(FRESH, Start(), fs) == Some(t) && t.inst == s.inst && t.helm == s.helm
    ensures var o := WithSummary(Last(s.api.h));
            && t.api == s.api.(h := s.api.h + [o])
            && t.sums == Start().sums.(sum := SSync(SCheck, o, |s.api.h|))
  {
    assert WithSummary(Last(s.api.h)) != Last(s.api.h);
    fs, t := Extend(FRESH, Start(), es, s, SumStart);
    fs, t := Extend(FRESH, Start(), fs, t, SumAdd(true, true));
  }

  /** The worker stores its first summary. */
  lemma SummaryStored(es: seq<Event>, s: State, x: Summary) returns (fs: seq<Event>, t: State)
    requires Exec(FRESH, Start(), es) == Some(s) && Exists(s.api) && !Last(s.api.h).deleting
    requires s.api.seen < |s.api.h| && Last(s.api.h).status.summary == None
    requires s.sums.workers == [Worker(0, WTop)] && s.sums.closed == {}
    ensures Exec(FRESH, Start(), fs) == Some(t) && t.inst == s.inst && t.helm == s.helm && t.sums == s.sums
    ensures var n := |s.api.h|; var o := Last(s.api.h);
            t.api == s.api.(h := s.api.h + [o.(status := o.status.(summary := Some(x)))], seen := n)
  {
    var n := |s.api.h|;
    fs, t := Extend(FRESH, Start(), es, s, CacheAdvance(n));
    assert Lister(t.api) == Some(Last(s.api.h));
    fs, t := Extend(FRESH, Start(), fs, t, WorkRead(0, Some(x)));
    fs, t := Written(fs, t, Last(s.api.h).status.(summary := Some(x)));
  }

  lemma Written(es: seq<Event>, s: State, status: Status) returns (fs: seq<Event>, t: State)
    requires Exec(FRESH, Start(), es) == Some(s) && Exists(s.api) && Last(s.api.h).status != status
    requires |s.sums.workers| == 1 && s.sums.closed == {} && s.sums.workers[0].mgr == 0
    requires s.sums.workers[0].pc.WHas? && s.sums.workers[0].pc.status == status
    ensures Exec(FRESH, Start(), fs) == Some(t)
    ensures t == s.(api := s.api.(h := s.api.h + [Last(s.api.h).(status := status)]),
                    sums := s.sums.(workers := [Worker(0, WTop)]))
  {
    fs, t := Extend(FRESH, Start(), es, s, WorkWrite(0, true));
    fs, t := Extend(FRESH, Start(), fs, t, WorkLoop(0));
  }

  /** The user deletes the object; the summary controller shuts its manager down and drops its finalizer. */
  lemma ManagerStops(es: seq<Event>, s: State) returns (fs: seq<Event>, t: State)
    requires Exec(FRESH, Start(), es) == Some(s) && Exists(s.api)
    requires 0 < s.api.told <= s.api.seen <= |s.api.h| && !s.api.h[s.api.told - 1].deleting
    requires s.sums == Summaries(false, SIdle, Some(0), 1, {}, [Worker(0, WTop)])
    requires var o := Last(s.api.h); o.status.ready && !o.deleting
                                     && o.finalizers == {InstallerFinalizer, SummaryFinalizer}
    ensures Exec(FRESH, Start(), fs) == Some(t) && t.inst == s.inst && t.helm == s.helm
    ensures var n := |s.api.h|; var d := Deleted(Last(s.api.h));
            t.api == s.api.(h := s.api.h + [d, WithoutSummary(d)], seen := n + 1, told := n + 1)
    ensures t.sums == Summaries(false, SIdle, None, 1, {0}, [Worker(0, WTop)])
  {
    var n, d := |s.api.h|, Deleted(Last(s.api.h));
    fs, t := Extend(FRESH, Start(), es, s, UserDelete);
    fs, t := Extend(FRESH, Start(), fs, t, CacheAdvance(n + 1));
    fs, t := Extend(FRESH, Start(), fs, t, CacheNotify(n + 1));
    assert Lister(t.api) == Some(d) && t.sums.queued;
    fs, t := ShutsDown(fs, t);
    assert t.api.h == s.api.h + [d, WithoutSummary(d)];
  }

  lemma ShutsDown(es: seq<Event>, s: State) returns (fs: seq<Event>, t: State)
    requires Exec(FRESH, Start(), es) == Some(s) && Exists(s.api) && Lister(s.api) == Some(Last(s.api.h))
    requires s.api.seen == |s.api.h| && Last(s.api.h).deleting && SummaryFinalizer in Last(s.api.h).finalizers
    requires s.sums == Summaries(true, SIdle, Some(0), 1, {}, [Worker(0, WTop)])
    ensures Exec(FRESH, Start(), fs) == Some(t)
    ensures t == s.(api := s.api.(h := s.api.h + [WithoutSummary(Last(s.api.h))]),
                    sums := Summaries(false, SIdle, None, 1, {0}, [Worker(0, WTop)]))
  {
    assert WithoutSummary(Last(s.api.h)) != Last(s.api.h);
    fs, t := Extend(FRESH, Start(), es, s, SumStart);
    fs, t := Extend(FRESH, Start(), fs, t, SumRemove);
    fs, t := Extend(FRESH, Start(), fs, t, SumUnfinal(true, true));
  }

  /** The installer uninstalls and drops its own finalizer, the last. */
  lemma Uninstalls(es: seq<Event>, s: State) returns (fs: seq<Event>, t: State)
    requires Exec(FRESH, Start(), es) == Some(s) && Exists(s.api) && s.inst == Idle && s.helm.release.Some?
    requires 0 < s.api.seen < |s.api.h| && s.api.own <= s.api.seen
    requires var o := s.api.h[s.api.seen - 1];
             && o.deleting && o.finalizers != {} && o.cascade == Some("false") && o.spec.mode == "Helm"
             && o.status.conditions == [Condition(Ready, ConditionTrue, ReconciliationSucceeded)]
    requires Last(s.api.h).deleting && Last(s.api.h).finalizers == {InstallerFinalizer}
    ensures Exec(FRESH, Start(), fs) == Some(t) && t.inst == Idle && t.sums == s.sums
    ensures t.api.h != [] && s.api.h <= t.api.h && !Exists(t.api) && t.api.seen <= |t.api.h| && t.api.told == s.api.told
    ensures t.api.seen < |t.api.h|
    ensures t.helm.release.None? && t.helm.deploys == s.helm.deploys
  {
    assert Lister(s.api) == Some(s.api.h[s.api.seen - 1]);
    fs, t := Extend(FRESH, Start(), es, s, InstStart(""));
    assert InstAt(t, Uninstalling);
    fs, t := Extend(FRESH, Start(), fs, t, InstUninstall(Ran(true, true, true)));
    fs, t := Extend(FRESH, Start(), fs, t, CacheAdvance(|s.api.h|));
    fs, t := DropsLast(fs, t);
  }

  lemma DropsLast(es: seq<Event>, s: State) returns (fs: seq<Event>, t: State)
    requires Exec(FRESH, Start(), es) == Some(s) && InstAt(s, DropRead) && Exists(s.api) && s.api.seen == |s.api.h|
    requires Last(s.api.h).deleting && Last(s.api.h).finalizers == {InstallerFinalizer}
    ensures Exec(FRESH, Start(), fs) == Some(t) && t.inst == Idle && t.sums == s.sums && t.helm == s.helm
    ensures |t.api.h| == |s.api.h| + 1 && s.api.h <= t.api.h && !Exists(t.api)
    ensures t.api.seen == s.api.seen && t.api.told == s.api.told
  {
    assert Lister(s.api) == Some(Last(s.api.h));
    fs, t := Extend(FRESH, Start(), es, s, InstDropRead);
    fs, t := Extend(FRESH, Start(), fs, t, InstDropWrite(true, true, false));
    assert Last(t.api.h).finalizers == {};
  }

  /** The worker finds the object gone and leaves its loop. */
  lemma WorkerLeaves(es: seq<Event>, s: State) returns (fs: seq<Event>, t: State)
    requires Exec(FRESH, Start(), es) == Some(s) && s.api.h != [] && !Exists(s.api) && s.api.seen < |s.api.h|
    requires s.sums.workers == [Worker(0, WTop)] && s.sums.closed == {0}
    ensures Exec(FRESH, Start(), fs) == Some(t) && t.inst == s.inst && t.helm == s.helm
    ensures t.api == s.api.(seen := |s.api.h|) && t.sums == s.sums.(workers := [Worker(0, WExit)])
  {
    fs, t := Extend(FRESH, Start(), es, s, CacheAdvance(|s.api.h|));
    fs, t := Extend(FRESH, Start(), fs, t, WorkRead(0, None));
    fs, t := Extend(FRESH, Start(), fs, t, WorkLoop(0));
  }

  /** The first half: installed once, ready, and with a summary stored. */
  lemma Lives(secret: SecretRef, x: Summary) returns (es: seq<Event>, t: State)
    ensures Exec(FRESH, Start(), es) == Some(t) && Exists(t.api) && t.inst == Idle
    ensures |t.api.h| == 9 && t.api.own == 7 && t.api.seen == 8 && t.api.told == 7 && !t.api.h[6].deleting
    ensures t.sums == Summaries(false, SIdle, Some(0), 1, {}, [Worker(0, WTop)])
    ensures t.helm.release.Some? && t.helm.deploys == 1
    ensures Last(t.api.h).status.ready && Last(t.api.h).status.summary == Some(x)
    ensures Last(t.api.h).status.conditions == [Condition(Ready, ConditionTrue, ReconciliationSucceeded)]
    ensures Last(t.api.h) ==
            WithDefaults().(finalizers := {InstallerFinalizer, SummaryFinalizer}, status := Last(t.api.h).status)
  {
    es, t := Installed(FRESH, secret);
    es, t := ManagerStarts(es, t);
    es, t := SummaryStored(es, t, x);
  }

  /** From a new object to nothing: it is installed once and becomes ready, a manager stores a summary of the
      member clusters, the user deletes it, the manager is shut down, the release is removed, and at the end
      the object is gone, its worker has left, and nobody is at work. */
  lemma WholeLife(secret: SecretRef, x: Summary) returns (es: seq<Event>, t: State)
    ensures Init(Start()) && Exec(FRESH, Start(), es) == Some(t)
    ensures exists i :: 0 <= i < |t.api.h| && t.api.h[i].status.ready && t.api.h[i].status.summary == Some(x)
    ensures t.helm.deploys == 1 && t.helm.release.None? && !Exists(t.api)
    ensures t.inst == Idle && t.sums == Summaries(false, SIdle, None, 1, {0}, [Worker(0, WExit)])
  {
    es, t := Lives(secret, x);
    ghost var shown := t.api.h;
    es, t := ManagerStops(es, t);
    es, t := Uninstalls(es, t);
    assert t.api.h[8] == shown[8];
    es, t := WorkerLeaves(es, t);
  }
}
