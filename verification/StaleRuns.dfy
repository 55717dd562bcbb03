/** Runs that show why the installer must read its own writes: concrete schedules, step by step. */
module StaleRuns {
  import opened Api
  import opened Protocol
  import opened Runs

  const STALE := Config("kmd", false, true)

  /** A sync that reads the deleting version from before any condition was recorded skips the uninstall. */
  lemma StaleSync(es: seq<Event>, s: State, d: Object) returns (fs: seq<Event>, t: State)
    requires Exec(STALE, Start(), es) == Some(s) && s.inst == Idle && s.api.seen == 1
    requires |s.api.h| == 6 && s.api.h[2] == d && d.deleting && d.finalizers != {} && d.status == EMPTY_STATUS
    ensures Exec(STALE, Start(), fs) == Some(t) && InstAt(t, DropRead)
    ensures t.api == s.api.(seen := 3) && t.helm == s.helm
  {
    fs, t := Extend(STALE, Start(), es, s, CacheAdvance(3));
    assert Lister(t.api) == Some(d);
    fs, t := Extend(STALE, Start(), fs, t, InstStart(""));
  }

  /** Its retry loop reads the current version and drops the finalizer from it. */
  lemma StaleDrop(es: seq<Event>, s: State) returns (fs: seq<Event>, t: State)
    requires Exec(STALE, Start(), es) == Some(s) && InstAt(s, DropRead) && s.api.seen < |s.api.h|
    requires Last(s.api.h).deleting && Last(s.api.h).finalizers == {InstallerFinalizer}
    ensures Exec(STALE, Start(), fs) == Some(t)
    ensures !Exists(t.api) && t.helm == s.helm
  {
    fs, t := Extend(STALE, Start(), es, s, CacheAdvance(|s.api.h|));
    assert Lister(t.api) == Some(Last(s.api.h));
    fs, t := Extend(STALE, Start(), fs, t, InstDropRead);
    fs, t := Extend(STALE, Start(), fs, t, InstDropWrite(true, true, false));
    assert Last(t.api.h).finalizers == {};
  }

  /** Without fresh reads FinalizerDropIsJustified fails: the user deletes the object while its first
      sync is installing; the next sync reads the deleting version from before the first status write,
      skips the uninstall, then reads the current version in its retry loop and drops the finalizer.
      The object is gone and the release stays. */
  lemma StaleReadLeaksRelease() returns (es: seq<Event>, t: State)
    ensures Init(Start()) && Exec(STALE, Start(), es) == Some(t)
    ensures !Exists(t.api) && t.helm.release.Some? && t.helm.deploys > 0
  {
    var d := Deleted(WithDefaults());
    es, t := FirstSync(STALE);
    es, t := Extend(STALE, Start(), es, t, UserDelete);
    assert t.api.h == [NewObject(), WithDefaults(), d];
    es, t := SyncToFetch(STALE, es, t, d);
    es, t := SyncToHelm(STALE, es, t, d);
    es, t := Extend(STALE, Start(), es, t, InstComplete(None, ""));
    es, t := StaleSync(es, t, d);
    es, t := StaleDrop(es, t);
  }

  /** A sync that starts from the Deploying version overwrites the completed status, after the summary
      controller was told of the ready version. */
  lemma Overwritten(secret: SecretRef) returns (es: seq<Event>, t: State)
    ensures Exec(STALE, Start(), es) == Some(t) && Exists(t.api)
    ensures |t.api.h| == 8 && t.api.seen == 7 && t.api.h[5].status.ready
    ensures !Last(t.api.h).status.ready && Last(t.api.h).status.secretRef == None
    ensures !Last(t.api.h).deleting && Last(t.api.h).finalizers == {InstallerFinalizer}
    ensures t.sums == Start().sums.(queued := true)
  {
    es, t := Installed(STALE, secret);
    es, t := Extend(STALE, Start(), es, t, CacheAdvance(5));
    assert Lister(t.api) == Some(t.api.h[4]);
    es, t := Extend(STALE, Start(), es, t, InstStart(""));
    assert InstAt(t, ProgressWrite) && !t.inst.kmd.status.ready && t.inst.kmd.status.secretRef == None;
    es, t := Extend(STALE, Start(), es, t, CacheAdvance(7));
    es, t := Extend(STALE, Start(), es, t, CacheNotify(6));
    es, t := StatusWrite(STALE, es, t);
  }

  /** A summary sync that adds its finalizer to a version without secret reference ends in a panic. */
  lemma AddThenPanic(es: seq<Event>, s: State) returns (fs: seq<Event>, t: State)
    requires Exec(STALE, Start(), es) == Some(s) && Exists(s.api)
    requires s.sums == Summaries(false, SSync(SAdd, Last(s.api.h), |s.api.h| - 1), None, 0, {}, [])
    requires Last(s.api.h).status.secretRef == None && !Last(s.api.h).deleting
    ensures Exec(STALE, Start(), fs) == Some(t)
    ensures t.api.h != [] && s.api.h <= t.api.h && Last(t.api.h).status == Last(s.api.h).status
    ensures SumAt(t.sums, SPanic)
  {
    fs, t := Extend(STALE, Start(), es, s, SumAdd(true, true));
    assert t.sums.sum.pc == SCheck && t.sums.sum.obj.status.secretRef == None;
    fs, t := Extend(STALE, Start(), fs, t, SumCheck);
    fs, t := Extend(STALE, Start(), fs, t, SumCreate(true));
  }

  /** Without fresh reads ReadyIsAbsorbing and the nil-safety of GetSummaryManager fail: readiness is
      reverted, and the summary controller dereferences a nil secret reference. */
  lemma StaleReadRevertsReady(secret: SecretRef) returns (es: seq<Event>, t: State)
    ensures Init(Start()) && Exec(STALE, Start(), es) == Some(t)
    ensures |t.api.h| > 6 && t.api.h[5].status.ready && !Last(t.api.h).status.ready
    ensures SumAt(t.sums, SPanic)
  {
    es, t := Overwritten(secret);
    es, t := Extend(STALE, Start(), es, t, CacheAdvance(8));
    assert Lister(t.api) == Some(t.api.h[7]);
    es, t := Extend(STALE, Start(), es, t, SumStart);
    es, t := AddThenPanic(es, t);
  }
}
