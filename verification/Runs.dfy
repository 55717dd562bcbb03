/** The steps of a first installation, one by one, as runs of the protocol in any configuration. */
module Runs {
  import opened Api
  import opened Protocol

  /** Extends a run by one event. */
  lemma Extend(c: Config, s0: State, es: seq<Event>, s: State, e: Event) returns (fs: seq<Event>, t: State)
    requires Exec(c, s0, es) == Some(s) && Enabled(c, s, e)
    ensures fs == es + [e] && t == Do(c, s, e) && Exec(c, s0, fs) == Some(t)
  {
    fs, t := es + [e], Do(c, s, e);
    ExecSnoc(c, s0, es, e);
  }

  function NewObject(): Object {
    Object(1, false, {}, None, Spec("Helm", None, "ns", None, [], [], ""), EMPTY_STATUS)
  }

  function Start(): State {
    State(Store([NewObject()], 0, 0, 0), Idle, Summaries(false, SIdle, None, 0, {}, []), Helm(None, {}, 0))
  }

  function WithDefaults(): Object {
    Defaulted("kmd", NewObject(), "").(generation := 2)
  }

  function At1(phase: Phase): Status {
    EMPTY_STATUS.(observedGeneration := 1, phase := phase,
                  conditions := [Condition(Ready, ConditionUnknown, Progressing)])
  }

  /** A status write that goes through and changes something. */
  lemma StatusWrite(c: Config, es: seq<Event>, s: State) returns (fs: seq<Event>, t: State)
    requires Exec(c, Start(), es) == Some(s)
    requires s.inst.Syncing? && WritesStatus(s.inst.pc) && Exists(s.api)
    requires Last(s.api.h).status != s.inst.kmd.status
    ensures Exec(c, Start(), fs) == Some(t)
    ensures t == State(s.api.(h := s.api.h + [Last(s.api.h).(status := s.inst.kmd.status)], own := |s.api.h| + 1),
                       AfterStatus(s.inst, |s.api.h| + 1, true), s.sums, s.helm)
    ensures Exists(t.api)
  {
    fs, t := Extend(c, Start(), es, s, InstStatus(true, true));
  }

  /** From the write of Progressing to the end of Preflight. */
  lemma SyncToFetch(c: Config, es: seq<Event>, s: State, o: Object) returns (fs: seq<Event>, t: State)
    requires Exec(c, Start(), es) == Some(s) && Exists(s.api)
    requires InstAt(s, ProgressWrite) && s.inst.kmd.status == At1(NoPhase) && s.inst.kmd.spec.mode == "Helm"
    requires Last(s.api.h) == o && o.status == EMPTY_STATUS
    ensures Exec(c, Start(), fs) == Some(t) && Exists(t.api)
    ensures t == State(s.api.(h := s.api.h + [o.(status := At1(NoPhase)), o.(status := At1(Preflight))],
                              own := |s.api.h| + 2),
                       s.inst.(pc := Fetching, kmd := s.inst.kmd.(status := At1(Preflight))), s.sums, s.helm)
  {
    fs, t := StatusWrite(c, es, s);
    fs, t := Extend(c, Start(), fs, t, InstChoose(true));
    fs, t := StatusWrite(c, fs, t);
    assert t.api.h == s.api.h + [o.(status := At1(NoPhase)), o.(status := At1(Preflight))];
  }

  /** From there to the return of a successful helm install. */
  lemma SyncToHelm(c: Config, es: seq<Event>, s: State, o: Object) returns (fs: seq<Event>, t: State)
    requires Exec(c, Start(), es) == Some(s) && Exists(s.api)
    requires InstAt(s, Fetching) && s.inst.kmd.status == At1(Preflight)
    requires Last(s.api.h) == o.(status := At1(Preflight)) && s.helm.release == None
    ensures Exec(c, Start(), fs) == Some(t) && Exists(t.api)
    ensures t.api == s.api.(h := s.api.h + [o.(status := At1(Deploying))], own := |s.api.h| + 1)
    ensures t.inst == s.inst.(pc := Completing, kmd := s.inst.kmd.(status := At1(Deploying)), wal := |s.api.h|)
    ensures t.sums == s.sums && t.helm.deploys == s.helm.deploys + 1 && t.helm.release.Some?
  {
    fs, t := Extend(c, Start(), es, s, InstFetch(true));
    fs, t := StatusWrite(c, fs, t);
    fs, t := Extend(c, Start(), fs, t, InstHelm(Issued(true, true)));
  }

  /** The first sync stores the defaults and enters Sync. */
  lemma FirstSync(c: Config) returns (fs: seq<Event>, t: State)
    ensures Exec(c, Start(), fs) == Some(t) && Exists(t.api)
    ensures t.api == Store([NewObject(), WithDefaults()], 1, 0, 2)
    ensures t.inst == Syncing(ProgressWrite, WithDefaults().(generation := 1, status := At1(NoPhase)), 0, 1, false, 0)
    ensures t.sums == Start().sums && t.helm == Start().helm
  {
    assert Exec(c, Start(), []) == Some(Start());
    fs, t := Extend(c, Start(), [], Start(), CacheAdvance(1));
    fs, t := Extend(c, Start(), fs, t, InstStart(""));
    assert t.inst == Syncing(Defaulting, Defaulted("kmd", NewObject(), ""), 0, 1, false, 0);
    fs, t := Extend(c, Start(), fs, t, InstDefault(true, true));
    assert Last(t.api.h) == WithDefaults();
  }

  lemma Collected(c: Config, es: seq<Event>, s: State, secret: SecretRef) returns (fs: seq<Event>, t: State)
    requires Exec(c, Start(), es) == Some(s) && InstAt(s, Completing) && s.inst.kmd.status == At1(Deploying)
    requires s.api.h != []
    ensures Exec(c, Start(), fs) == Some(t) && t.api == s.api && t.sums == s.sums && t.helm == s.helm
    ensures InstAt(t, CompleteWrite) && t.inst.kmd.status.ready && t.inst.kmd.status.phase == Completed
    ensures t.inst.kmd.status.conditions == At1(Deploying).conditions && t.inst.kmd.status.secretRef == Some(secret)
    ensures t.inst.kmd.status.summary == None
  {
    fs, t := Extend(c, Start(), es, s, InstComplete(Some(secret), ""));
  }

  /** From there to the end of the sync. */
  lemma SyncToReady(c: Config, es: seq<Event>, s: State, o: Object, secret: SecretRef)
    returns (fs: seq<Event>, t: State, x: Status, y: Status)
    requires Exec(c, Start(), es) == Some(s) && Exists(s.api)
    requires InstAt(s, Completing) && s.inst.kmd.status == At1(Deploying)
    requires Last(s.api.h) == o.(status := At1(Deploying))
    ensures Exec(c, Start(), fs) == Some(t) && Exists(t.api)
    ensures t.inst == Idle && t.sums == s.sums && t.helm == s.helm
    ensures t.api == s.api.(h := s.api.h + [o.(status := x), o.(status := y)], own := |s.api.h| + 2)
    ensures x.ready && y.ready && y.secretRef == Some(secret) && y.summary == None
    ensures y.conditions == [Condition(Ready, ConditionTrue, ReconciliationSucceeded)]
  {
    fs, t := Collected(c, es, s, secret);
    x := t.inst.kmd.status;
    fs, t := StatusWrite(c, fs, t);
    y := t.inst.kmd.status;
    assert y.conditions == [Condition(Ready, ConditionTrue, ReconciliationSucceeded)];
    fs, t := StatusWrite(c, fs, t);
    assert t.api.h == s.api.h + [o.(status := x), o.(status := y)];
  }

  /** A complete first installation; the summary controller has been told of nothing yet. */
  lemma Installed(c: Config, secret: SecretRef) returns (es: seq<Event>, t: State)
    ensures Exec(c, Start(), es) == Some(t) && Exists(t.api)
    ensures |t.api.h| == 7 && t.api.seen == 1 && t.api.told == 0 && t.api.own == 7
    ensures t.inst == Idle && t.sums == Start().sums && t.helm.release.Some? && t.helm.deploys == 1
    ensures t.api.h[4] == WithDefaults().(status := At1(Deploying))
    ensures t.api.h[5].status.ready && t.api.h[6].status.ready
    ensures t.api.h[5].deleting == false && t.api.h[5].finalizers == {InstallerFinalizer}
    ensures t.api.h[6] == WithDefaults().(status := t.api.h[6].status) == t.api.h[5].(status := t.api.h[6].status)
    ensures t.api.h[6].status.secretRef == Some(secret) && t.api.h[6].status.summary == None
    ensures t.api.h[6].status.conditions == [Condition(Ready, ConditionTrue, ReconciliationSucceeded)]
  {
    var o := WithDefaults();
    es, t := FirstSync(c);
    es, t := SyncToFetch(c, es, t, o);
    es, t := SyncToHelm(c, es, t, o);
    var x, y;
    es, t, x, y := SyncToReady(c, es, t, o, secret);
  }
}
