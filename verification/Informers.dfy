/** The registry of informers and handlers of one member-cluster client, and how a summary manager fills it. */
module Informers {
  import opened Api

  /** Handlers are compared by identity. */
  datatype Handler = Handler(id: nat)

  /** `handlers` is the manager's own index, `attached` what the informers really call. */
  datatype Index = Index(handlers: map<Resource, seq<Handler>>, attached: map<Resource, seq<Handler>>)

  const EMPTY_INDEX := Index(map[], map[])

  function HandlersOf(m: map<Resource, seq<Handler>>, r: Resource): seq<Handler> {
    if r in m then m[r] else []
  }

  predicate Exists(i: Index, r: Resource, h: Handler) {
    h in HandlersOf(i.handlers, r)
  }

  /** AddEventHandler on the informer, without the lock. */
  function Attach(i: Index, r: Resource, h: Handler): Index {
    i.(attached := i.attached[r := HandlersOf(i.attached, r) + [h]])
  }

  /** appendHandler, under the lock. */
  function Append(i: Index, r: Resource, h: Handler): Index {
    i.(handlers := i.handlers[r := HandlersOf(i.handlers, r) + [h]])
  }

  /** One undisturbed registration. */
  function Register(i: Index, r: Resource, h: Handler): Index {
    if Exists(i, r, h) then i else Append(Attach(i, r, h), r, h)
  }

  predicate Distinct(s: seq<Handler>) {
    forall j, k :: 0 <= j < k < |s| ==> s[j] != s[k]
  }

  /** For every resource the index lists what is attached, in whatever order, and nothing is attached twice. */
  ghost predicate Agrees(i: Index) {
    forall r ::
      && multiset(HandlersOf(i.handlers, r)) == multiset(HandlersOf(i.attached, r))
      && Distinct(HandlersOf(i.attached, r))
  }

  /** How often a pair is listed, or attached. */
  ghost function Count(m: map<Resource, seq<Handler>>, p: (Resource, Handler)): nat {
    multiset(HandlersOf(m, p.0))[p.1]
  }

  /** The same, pair by pair. */
  ghost predicate Countwise(i: Index) {
    forall p :: Count(i.handlers, p) == Count(i.attached, p) <= 1
  }

  lemma {:induction false} DistinctCounts(s: seq<Handler>)
    ensures Distinct(s) <==> forall h :: multiset(s)[h] <= 1
  {
    if s == [] {
    } else {
      var before, h := s[..|s| - 1], s[|s| - 1];
      assert s == before + [h];
      DistinctCounts(before);
      assert h in before <==> multiset(before)[h] > 0;
      assert forall g :: multiset(s)[g] == multiset(before)[g] + if g == h then 1 else 0;
    }
  }

  lemma CountsDecide(i: Index)
    ensures Agrees(i) <==> Countwise(i)
  {
    if Agrees(i) {
      forall p ensures Count(i.handlers, p) == Count(i.attached, p) <= 1 {
        assert multiset(HandlersOf(i.handlers, p.0)) == multiset(HandlersOf(i.attached, p.0));
        DistinctCounts(HandlersOf(i.attached, p.0));
      }
    }
    if Countwise(i) {
      forall r
        ensures multiset(HandlersOf(i.handlers, r)) == multiset(HandlersOf(i.attached, r))
        ensures Distinct(HandlersOf(i.attached, r))
      {
        var x, y := multiset(HandlersOf(i.handlers, r)), multiset(HandlersOf(i.attached, r));
        assert forall h :: Count(i.handlers, (r, h)) == x[h] && Count(i.attached, (r, h)) == y[h];
        DistinctCounts(HandlersOf(i.attached, r));
      }
    }
  }

  lemma CountAfter(m: map<Resource, seq<Handler>>, r: Resource, h: Handler, p: (Resource, Handler))
    ensures Count(m[r := HandlersOf(m, r) + [h]], p) == Count(m, p) + if p == (r, h) then 1 else 0
  {
  }

  /** A sequence of registrations, one after the other. */
  function RegisterAll(i: Index, rs: seq<(Resource, Handler)>): Index {
    if rs == [] then i
    else
      var last := rs[|rs| - 1];
      Register(RegisterAll(i, rs[..|rs| - 1]), last.0, last.1)
  }

  lemma RegisterCounts(i: Index, r: Resource, h: Handler)
    requires Countwise(i)
    ensures Countwise(Register(i, r, h))
    ensures forall p :: Count(Register(i, r, h).handlers, p) > 0 <==> Count(i.handlers, p) > 0 || p == (r, h)
  {
    assert Exists(i, r, h) <==> Count(i.handlers, (r, h)) > 0;
    var now := Register(i, r, h);
    forall p
      ensures Count(now.handlers, p) == Count(now.attached, p) <= 1
      ensures Count(now.handlers, p) > 0 <==> Count(i.handlers, p) > 0 || p == (r, h)
    {
      CountAfter(i.handlers, r, h, p);
      CountAfter(i.attached, r, h, p);
      assert Count(i.handlers, p) == Count(i.attached, p) <= 1;
    }
  }

  lemma RegisterAgrees(i: Index, r: Resource, h: Handler)
    requires Agrees(i)
    ensures Agrees(Register(i, r, h))
    ensures forall q, g :: Exists(Register(i, r, h), q, g) <==> Exists(i, q, g) || (q, g) == (r, h)
  {
    CountsDecide(i);
    CountsDecide(Register(i, r, h));
    RegisterCounts(i, r, h);
    forall q, g ensures Exists(Register(i, r, h), q, g) <==> Exists(i, q, g) || (q, g) == (r, h) {
      ExistsCounts(i, q, g);
      ExistsCounts(Register(i, r, h), q, g);
    }
  }

  lemma ExistsCounts(i: Index, r: Resource, h: Handler)
    ensures Exists(i, r, h) <==> Count(i.handlers, (r, h)) > 0
  {
  }

  /** Sequential registrations keep the index truthful, attach each pair once, and nothing else. */
  lemma {:induction false} SequentialRegistration(i: Index, rs: seq<(Resource, Handler)>)
    requires Agrees(i)
    ensures Agrees(RegisterAll(i, rs))
    ensures forall r, h :: Exists(RegisterAll(i, rs), r, h) <==> Exists(i, r, h) || (r, h) in rs
  {
    if rs == [] {
    } else {
      var before, last := rs[..|rs| - 1], rs[|rs| - 1];
      SequentialRegistration(i, before);
      assert rs == before + [last];
      RegisterAgrees(RegisterAll(i, before), last.0, last.1);
    }
  }

  // ---- Racing registrations ----

  /** The critical sections of ForResource: the check, AddEventHandler, appendHandler. */
  datatype Pc = ToCheck | ToAttach | ToAppend | Finished(passed: bool)

  datatype Race = Race(index: Index, pcs: seq<Pc>)

  function Step(rs: seq<(Resource, Handler)>, s: Race, n: nat): Race
    requires |s.pcs| == |rs| && n < |rs|
  {
    var (r, h) := rs[n];
    match s.pcs[n]
    case ToCheck => s.(pcs := s.pcs[n := if Exists(s.index, r, h) then Finished(false) else ToAttach])
    case ToAttach => Race(Attach(s.index, r, h), s.pcs[n := ToAppend])
    case ToAppend => Race(Append(s.index, r, h), s.pcs[n := Finished(true)])
    case Finished(_) => s
  }

  predicate Indices(ns: seq<nat>, k: nat) {
    forall j :: 0 <= j < |ns| ==> ns[j] < k
  }

  /** The registrations `rs` run concurrently; `ns` says which of them takes each step. */
  function Run(i: Index, rs: seq<(Resource, Handler)>, ns: seq<nat>): (s: Race)
    requires Indices(ns, |rs|)
    ensures |s.pcs| == |rs|
  {
    if ns == [] then Race(i, seq(|rs|, _ => ToCheck))
    else Step(rs, Run(i, rs, ns[..|ns| - 1]), ns[|ns| - 1])
  }

  ghost predicate AllFinished(s: Race) {
    forall n :: 0 <= n < |s.pcs| ==> s.pcs[n].Finished?
  }

  predicate Passed(pc: Pc) {
    pc == ToAttach || pc == ToAppend || pc == Finished(true)
  }

  predicate Reached(pc: Pc, appended: bool) {
    pc == Finished(true) || (!appended && pc == ToAppend)
  }

  /** The registrations of `p` that have attached the handler, or also appended it to the index. */
  ghost function In(rs: seq<(Resource, Handler)>, s: Race, p: (Resource, Handler), appended: bool): set<int>
    requires |s.pcs| == |rs|
  {
    set n | 0 <= n < |rs| && rs[n] == p && Reached(s.pcs[n], appended)
  }

  /** Every attachment and every entry of the index is accounted for. */
  ghost predicate CountsInv(i: Index, rs: seq<(Resource, Handler)>, s: Race)
    requires |s.pcs| == |rs|
  {
    forall p ::
      && Count(s.index.attached, p) == Count(i.attached, p) + |In(rs, s, p, false)|
      && Count(s.index.handlers, p) == Count(i.handlers, p) + |In(rs, s, p, true)|
  }

  /** Who passed the check asked for a new pair, who did not asked for one that is there. */
  ghost predicate ChecksInv(i: Index, rs: seq<(Resource, Handler)>, s: Race)
    requires |s.pcs| == |rs|
  {
    && (forall n :: 0 <= n < |rs| && Passed(s.pcs[n]) ==> Count(i.handlers, rs[n]) == 0)
    && (forall n :: 0 <= n < |rs| && s.pcs[n] == Finished(false) ==> Count(s.index.handlers, rs[n]) > 0)
  }

  ghost predicate RaceInv(i: Index, rs: seq<(Resource, Handler)>, s: Race) {
    |s.pcs| == |rs| && CountsInv(i, rs, s) && ChecksInv(i, rs, s)
  }

  lemma InAfter(rs: seq<(Resource, Handler)>, s: Race, t: Race, n: nat, p: (Resource, Handler), appended: bool)
    requires |s.pcs| == |t.pcs| == |rs| && n < |rs| && t.pcs == s.pcs[n := t.pcs[n]]
    requires Reached(s.pcs[n], appended) ==> Reached(t.pcs[n], appended)
    ensures |In(rs, t, p, appended)| ==
            |In(rs, s, p, appended)|
            + if p == rs[n] && !Reached(s.pcs[n], appended) && Reached(t.pcs[n], appended) then 1 else 0
  {
    var before, after := In(rs, s, p, appended), In(rs, t, p, appended);
    if p == rs[n] && !Reached(s.pcs[n], appended) && Reached(t.pcs[n], appended) {
      assert after == before + {n as int};
    } else {
      assert after == before;
    }
  }

  /** What a step adds for one pair. */
  lemma StepCount(rs: seq<(Resource, Handler)>, s: Race, n: nat, p: (Resource, Handler))
    requires |s.pcs| == |rs| && n < |rs|
    ensures var t := Step(rs, s, n);
            && Count(t.index.attached, p) - |In(rs, t, p, false)| == Count(s.index.attached, p) - |In(rs, s, p, false)|
            && Count(t.index.handlers, p) - |In(rs, t, p, true)| == Count(s.index.handlers, p) - |In(rs, s, p, true)|
            && Count(t.index.handlers, p) >= Count(s.index.handlers, p)
  {
    var t := Step(rs, s, n);
    InAfter(rs, s, t, n, p, false);
    InAfter(rs, s, t, n, p, true);
    CountAfter(s.index.attached, rs[n].0, rs[n].1, p);
    CountAfter(s.index.handlers, rs[n].0, rs[n].1, p);
  }

  lemma StepCheck(i: Index, rs: seq<(Resource, Handler)>, s: Race, n: nat, m: nat)
    requires RaceInv(i, rs, s) && n < |rs| && m < |rs|
    ensures var t := Step(rs, s, n);
            && (Passed(t.pcs[m]) ==> Count(i.handlers, rs[m]) == 0)
            && (t.pcs[m] == Finished(false) ==> Count(t.index.handlers, rs[m]) > 0)
  {
    var p := rs[m];
    StepCount(rs, s, n, p);
    ExistsCounts(s.index, p.0, p.1);
    assert Count(s.index.handlers, p) == Count(i.handlers, p) + |In(rs, s, p, true)|;
  }

  lemma StepKeepsInv(i: Index, rs: seq<(Resource, Handler)>, s: Race, n: nat)
    requires RaceInv(i, rs, s) && n < |rs|
    ensures RaceInv(i, rs, Step(rs, s, n))
  {
    var t := Step(rs, s, n);
    forall p
      ensures Count(t.index.attached, p) == Count(i.attached, p) + |In(rs, t, p, false)|
      ensures Count(t.index.handlers, p) == Count(i.handlers, p) + |In(rs, t, p, true)|
    {
      StepCount(rs, s, n, p);
    }
    assert CountsInv(i, rs, t);
    forall m | 0 <= m < |rs|
      ensures Passed(t.pcs[m]) ==> Count(i.handlers, rs[m]) == 0
      ensures t.pcs[m] == Finished(false) ==> Count(t.index.handlers, rs[m]) > 0
    {
      StepCheck(i, rs, s, n, m);
    }
  }

  lemma {:induction false} RunKeepsInv(i: Index, rs: seq<(Resource, Handler)>, ns: seq<nat>)
    requires Indices(ns, |rs|)
    ensures RaceInv(i, rs, Run(i, rs, ns))
  {
    if ns == [] {
      var s := Run(i, rs, ns);
      forall p ensures In(rs, s, p, false) == {} && In(rs, s, p, true) == {} {
      }
    } else {
      var before := ns[..|ns| - 1];
      RunKeepsInv(i, rs, before);
      StepKeepsInv(i, rs, Run(i, rs, before), ns[|ns| - 1]);
    }
  }

  /** No two registrations of one pair both got past the check. */
  ghost predicate PassedOnce(rs: seq<(Resource, Handler)>, s: Race) {
    forall m, n :: 0 <= m < n < |rs| && n < |s.pcs| && Passed(s.pcs[m]) && Passed(s.pcs[n]) ==> rs[m] != rs[n]
  }

  lemma AtMostOne(rs: seq<(Resource, Handler)>, s: Race)
    requires |s.pcs| == |rs| && AllFinished(s)
    ensures PassedOnce(rs, s) <==> forall p :: |In(rs, s, p, true)| <= 1
  {
    if PassedOnce(rs, s) {
      forall p ensures |In(rs, s, p, true)| <= 1 {
        var passed := In(rs, s, p, true);
        if passed != {} {
          var n :| n in passed;
          assert passed == {n};
        }
      }
    } else {
      var m, n :| 0 <= m < n < |rs| && Passed(s.pcs[m]) && Passed(s.pcs[n]) && rs[m] == rs[n];
      var passed := In(rs, s, rs[m], true);
      assert {m, n} <= passed;
      assert |passed - {m}| == |passed| - 1 && n in passed - {m};
    }
  }

  lemma SettledCounts(i: Index, rs: seq<(Resource, Handler)>, s: Race, p: (Resource, Handler))
    requires Agrees(i) && RaceInv(i, rs, s) && AllFinished(s)
    ensures Count(s.index.handlers, p) == Count(s.index.attached, p)
    ensures Count(s.index.attached, p) <= 1 <==> |In(rs, s, p, true)| <= 1
    ensures Count(s.index.handlers, p) > 0 <==> Count(i.handlers, p) > 0 || p in rs
  {
    CountsDecide(i);
    var passed := In(rs, s, p, true);
    assert In(rs, s, p, false) == passed;
    if passed != {} {
      var n :| n in passed;
      assert Passed(s.pcs[n]) && rs[n] == p;
    }
    if p in rs {
      var n :| 0 <= n < |rs| && rs[n] == p;
      assert s.pcs[n].Finished?;
      assert s.pcs[n] == Finished(true) ==> n in passed;
    }
  }

  /** Any number of registrations, interleaved in any way at the level of their critical sections, leave a
      truthful index without duplicates if and only if no two registrations of one pair both got past the
      check. Every requested pair is registered in the end, and nothing else was added. */
  lemma RacingRegistrations(i: Index, rs: seq<(Resource, Handler)>, ns: seq<nat>)
    requires Agrees(i) && Indices(ns, |rs|) && AllFinished(Run(i, rs, ns))
    ensures var s := Run(i, rs, ns);
            && (Agrees(s.index) <==> PassedOnce(rs, s))
            && forall r, h :: Exists(s.index, r, h) <==> Exists(i, r, h) || (r, h) in rs
  {
    var s := Run(i, rs, ns);
    RunKeepsInv(i, rs, ns);
    AtMostOne(rs, s);
    CountsDecide(s.index);
    forall p
      ensures Count(s.index.handlers, p) == Count(s.index.attached, p)
      ensures Count(s.index.attached, p) <= 1 <==> |In(rs, s, p, true)| <= 1
      ensures Count(s.index.handlers, p) > 0 <==> Count(i.handlers, p) > 0 || p in rs
    {
      SettledCounts(i, rs, s, p);
    }
    assert forall r, h :: Exists(s.index, r, h) <==> Count(s.index.handlers, (r, h)) > 0;
    assert forall r, h :: Exists(i, r, h) <==> Count(i.handlers, (r, h)) > 0;
  }

  // ---- What callers can ensure ----

  /** No pair that is not registered yet is requested twice. */
  predicate RequestedOnce(i: Index, rs: seq<(Resource, Handler)>) {
    forall m, n :: 0 <= m < n < |rs| && rs[m] == rs[n] ==> Exists(i, rs[m].0, rs[m].1)
  }

  lemma RequestedOncePassesOnce(i: Index, rs: seq<(Resource, Handler)>, ns: seq<nat>)
    requires RequestedOnce(i, rs) && Indices(ns, |rs|)
    ensures PassedOnce(rs, Run(i, rs, ns))
  {
    RunKeepsInv(i, rs, ns);
    var s := Run(i, rs, ns);
    forall m, n | 0 <= m < n < |rs| && Passed(s.pcs[m]) && Passed(s.pcs[n]) ensures rs[m] != rs[n] {
      ExistsCounts(i, rs[m].0, rs[m].1);
    }
  }

  /** Critical sections a registration has before it. */
  function Left(pc: Pc): nat {
    match pc
    case ToCheck => 3
    case ToAttach => 2
    case ToAppend => 1
    case Finished(_) => 0
  }

  /** Who passed the check stays so, and nobody goes back. */
  predicate Advanced(s: Race, t: Race) {
    && |s.pcs| == |t.pcs|
    && forall n :: 0 <= n < |s.pcs| ==> Left(t.pcs[n]) <= Left(s.pcs[n]) && (Passed(s.pcs[n]) ==> Passed(t.pcs[n]))
  }

  lemma StepAdvances(rs: seq<(Resource, Handler)>, s: Race, n: nat)
    requires |s.pcs| == |rs| && n < |rs|
    ensures var t := Step(rs, s, n); Advanced(s, t) && (t.pcs[n].Finished? || Left(t.pcs[n]) < Left(s.pcs[n]))
  {
  }

  /** Three steps of the same registration finish it. */
  lemma ThreeSteps(i: Index, rs: seq<(Resource, Handler)>, ns: seq<nat>, n: nat)
    requires Indices(ns, |rs|) && n < |rs|
    ensures Indices(ns + [n, n, n], |rs|)
    ensures Advanced(Run(i, rs, ns), Run(i, rs, ns + [n, n, n])) && Run(i, rs, ns + [n, n, n]).pcs[n].Finished?
  {
    var s := Run(i, rs, ns);
    var t := After(i, rs, ns, n, s, ns + [n]);
    var u := After(i, rs, ns + [n], n, t, ns + [n, n]);
    var v := After(i, rs, ns + [n, n], n, u, ns + [n, n, n]);
    StepAdvances(rs, s, n);
    StepAdvances(rs, t, n);
    StepAdvances(rs, u, n);
  }

  predicate FinishedUpTo(s: Race, k: nat) {
    k <= |s.pcs| && forall n :: 0 <= n < k ==> s.pcs[n].Finished?
  }

  /** Whatever happened before, the schedule can be extended to one that finishes the first `k` registrations. */
  lemma {:induction false} FinishAll(i: Index, rs: seq<(Resource, Handler)>, ns: seq<nat>, k: nat)
    returns (ms: seq<nat>)
    requires Indices(ns, |rs|) && k <= |rs|
    ensures Indices(ms, |rs|) && Advanced(Run(i, rs, ns), Run(i, rs, ms)) && FinishedUpTo(Run(i, rs, ms), k)
    ensures ns <= ms
  {
    if k == 0 {
      ms := ns;
    } else {
      var ls := FinishAll(i, rs, ns, k - 1);
      FinishOneMore(i, rs, Run(i, rs, ns), ls, k - 1);
      ms := ls + [k - 1, k - 1, k - 1];
    }
  }

  lemma FinishOneMore(i: Index, rs: seq<(Resource, Handler)>, s: Race, ms: seq<nat>, k: nat)
    requires Indices(ms, |rs|) && k < |rs| && Advanced(s, Run(i, rs, ms)) && FinishedUpTo(Run(i, rs, ms), k)
    ensures Indices(ms + [k, k, k], |rs|) && Advanced(s, Run(i, rs, ms + [k, k, k]))
    ensures FinishedUpTo(Run(i, rs, ms + [k, k, k]), k + 1)
  {
    ThreeSteps(i, rs, ms, k);
    AdvancedTwice(s, Run(i, rs, ms), Run(i, rs, ms + [k, k, k]), k);
  }

  lemma AdvancedTwice(s: Race, t: Race, u: Race, k: nat)
    requires Advanced(s, t) && Advanced(t, u) && k <= |s.pcs|
    requires FinishedUpTo(t, k)
    ensures Advanced(s, u) && FinishedUpTo(u, k)
  {
  }

  /** If a new pair is requested twice, some schedule breaks the index: both requests check before either goes
      on, and then everybody runs to the end. */
  lemma TwiceBreaks(i: Index, rs: seq<(Resource, Handler)>, m: nat, n: nat) returns (ns: seq<nat>)
    requires Agrees(i) && m < n < |rs| && rs[m] == rs[n] && !Exists(i, rs[m].0, rs[m].1)
    ensures Indices(ns, |rs|) && AllFinished(Run(i, rs, ns)) && !Agrees(Run(i, rs, ns).index)
  {
    var start := Run(i, rs, []);
    var one := After(i, rs, [], m, start, [m]);
    var both := After(i, rs, [m], n, one, [m, n]);
    assert both.pcs[m] == both.pcs[n] == ToAttach;
    ns := FinishAll(i, rs, [m, n], |rs|);
    var s := Run(i, rs, ns);
    assert Passed(s.pcs[m]) && Passed(s.pcs[n]);
    RacingRegistrations(i, rs, ns);
  }

  /** Every schedule of the requested registrations ends in a truthful index without duplicates if and only if
      no pair that is not registered yet is requested twice. */
  lemma SafeRequests(i: Index, rs: seq<(Resource, Handler)>)
    requires Agrees(i)
    ensures RequestedOnce(i, rs) <==>
            forall ns :: Indices(ns, |rs|) && AllFinished(Run(i, rs, ns)) ==> Agrees(Run(i, rs, ns).index)
  {
    if RequestedOnce(i, rs) {
      forall ns | Indices(ns, |rs|) && AllFinished(Run(i, rs, ns)) ensures Agrees(Run(i, rs, ns).index) {
        RequestedOncePassesOnce(i, rs, ns);
        RacingRegistrations(i, rs, ns);
      }
    } else {
      var m, n :| 0 <= m < n < |rs| && rs[m] == rs[n] && !Exists(i, rs[m].0, rs[m].1);
      var ns := TwiceBreaks(i, rs, m, n);
    }
  }

  lemma BothCheck(r: Resource, h: Handler) returns (s: Race)
    ensures s == Run(EMPTY_INDEX, [(r, h), (r, h)], [0, 1]) && s == Race(EMPTY_INDEX, [ToAttach, ToAttach])
  {
    var rs, i := [(r, h), (r, h)], EMPTY_INDEX;
    s := Race(i, [ToCheck, ToCheck]);
    assert Run(i, rs, []) == s;
    s := After(i, rs, [], 0, s, [0]);
    s := After(i, rs, [0], 1, s, [0, 1]);
  }

  lemma BothAttach(r: Resource, h: Handler) returns (s: Race)
    ensures s == Run(EMPTY_INDEX, [(r, h), (r, h)], [0, 1, 0, 1])
    ensures s == Race(Index(map[], map[r := [h, h]]), [ToAppend, ToAppend])
  {
    var rs, i := [(r, h), (r, h)], EMPTY_INDEX;
    s := BothCheck(r, h);
    s := After(i, rs, [0, 1], 0, s, [0, 1, 0]);
    s := After(i, rs, [0, 1, 0], 1, s, [0, 1, 0, 1]);
    assert [] + [h] + [h] == [h, h];
  }

  /** Two registrations of one pair that both check first attach the handler twice. */
  lemma BothPassTheCheck(r: Resource, h: Handler)
    ensures var s := Run(EMPTY_INDEX, [(r, h), (r, h)], [0, 1, 0, 1, 0, 1]);
            AllFinished(s) && !Agrees(s.index) && HandlersOf(s.index.attached, r) == [h, h]
  {
    var rs, i := [(r, h), (r, h)], EMPTY_INDEX;
    var s := BothAttach(r, h);
    s := After(i, rs, [0, 1, 0, 1], 0, s, [0, 1, 0, 1, 0]);
    s := After(i, rs, [0, 1, 0, 1, 0], 1, s, [0, 1, 0, 1, 0, 1]);
    assert HandlersOf(s.index.attached, r)[0] == HandlersOf(s.index.attached, r)[1];
  }

  lemma After(i: Index, rs: seq<(Resource, Handler)>, ns: seq<nat>, n: nat, s: Race, ms: seq<nat>) returns (t: Race)
    requires Indices(ns, |rs|) && n < |rs| && Run(i, rs, ns) == s && ms == ns + [n]
    ensures Indices(ms, |rs|) && t == Step(rs, s, n) && Run(i, rs, ms) == t
  {
    t := Step(rs, s, n);
    assert ms[..|ms| - 1] == ns;
  }

  class InformerManager {
    var index: Index
    var syncedInformers: set<Resource>

    constructor ()
      ensures index == EMPTY_INDEX && syncedInformers == {}
    {
      index, syncedInformers := EMPTY_INDEX, {};
    }

    method IsHandlerExist(r: Resource, h: Handler) returns (found: bool)
      ensures found <==> Exists(index, r, h)
    {
      if r !in index.handlers {
        return false;
      }
      var handlers := index.handlers[r];
      for n := 0 to |handlers|
        invariant h !in handlers[..n]
      {
        if handlers[n] == h {
          return true;
        }
        assert handlers[..n + 1] == handlers[..n] + [handlers[n]];
      }
      assert handlers[..|handlers|] == handlers;
      return false;
    }

    method ForResource(r: Resource, h: Handler)
      modifies this`index
      ensures index == Register(old(index), r, h)
    {
      var exist := IsHandlerExist(r, h);
      if exist {
        return;
      }
      index := Attach(index, r, h);
      index := Append(index, r, h);
    }

    /** `res` is what the factory reports: which of its started informers have synced. */
    method WaitForCacheSync(res: map<Resource, bool>)
      modifies this`syncedInformers
      ensures syncedInformers == old(syncedInformers) + set r | r in res && res[r]
    {
      var todo := res.Keys;
      while todo != {}
        invariant todo <= res.Keys
        invariant syncedInformers == old(syncedInformers) + set r | r in res && r !in todo && res[r]
        decreases |todo|
      {
        var r :| r in todo;
        todo := todo - {r};
        if r !in syncedInformers && res[r] {
          syncedInformers := syncedInformers + {r};
        }
      }
    }
  }

  const CORE_RESOURCES := [Services, Secrets, ConfigMaps, PersistentVolumeClaims]
  const POLICY_RESOURCES := [OverridePolicies, PropagationPolicies]

  /** `h` is attached once to each of the resources `on`, and nothing else is attached. */
  ghost predicate Only(i: Index, h: Handler, on: set<Resource>) {
    i.handlers == i.attached && forall r :: HandlersOf(i.attached, r) == if r in on then [h] else []
  }

  lemma RegisterOnly(i: Index, h: Handler, on: set<Resource>, r: Resource)
    requires Only(i, h, on)
    ensures Only(Register(i, r, h), h, on + {r})
  {
    assert HandlersOf(i.attached, r) == if r in on then [h] else [];
    var now := Register(i, r, h);
    forall q ensures HandlersOf(now.attached, q) == if q in on + {r} then [h] else [] {
      assert HandlersOf(i.attached, q) == if q in on then [h] else [];
      assert [] + [h] == [h];
    }
  }

  function Elements(s: seq<Resource>): set<Resource> {
    set r | r in s
  }

  lemma ElementsOne(s: seq<Resource>, n: nat)
    requires n < |s|
    ensures Elements(s[..n + 1]) == Elements(s[..n]) + {s[n]}
  {
    assert s[..n + 1] == s[..n] + [s[n]];
  }

  /** The registrations of one list, with one handler. */
  method RegisterList(m: InformerManager, resources: seq<Resource>, h: Handler, ghost on: set<Resource>)
    requires Only(m.index, h, on)
    modifies m`index
    ensures Only(m.index, h, on + Elements(resources))
  {
    assert on + Elements(resources[..0]) == on;
    for n := 0 to |resources|
      invariant Only(m.index, h, on + Elements(resources[..n]))
    {
      ElementsOne(resources, n);
      RegisterOnly(m.index, h, on + Elements(resources[..n]), resources[n]);
      var exist := m.IsHandlerExist(resources[n], h);
      if !exist {
        m.ForResource(resources[n], h);
      }
      assert on + Elements(resources[..n]) + {resources[n]} == on + Elements(resources[..n + 1]);
    }
    assert resources[..|resources|] == resources;
  }

  function Collected(): set<Resource> {
    Elements(CORE_RESOURCES) + Elements(POLICY_RESOURCES) + {Clusters} + {Deployments}
  }

  /** All eight resources with a name here. */
  lemma AllCollected(r: Resource)
    ensures r in Collected() <==> !r.OtherResource?
  {
    var core, policy := CORE_RESOURCES, POLICY_RESOURCES;
    assert core[0] in core && core[1] in core && core[2] in core && core[3] in core;
    assert policy[0] in policy && policy[1] in policy;
  }

  /** A new summary manager has its one handler exactly once on each of its eight resources, and no other. */
  method NewSummaryManager(nothing: Handler) returns (m: InformerManager)
    ensures fresh(m) && m.syncedInformers == {} && Only(m.index, nothing, Collected())
  {
    m := new InformerManager();
    RegisterList(m, CORE_RESOURCES, nothing, {});
    ghost var on := Elements(CORE_RESOURCES);
    assert {} + on == on;
    RegisterList(m, POLICY_RESOURCES, nothing, on);
    on := on + Elements(POLICY_RESOURCES);
    RegisterOnly(m.index, nothing, on, Clusters);
    var exist := m.IsHandlerExist(Clusters, nothing);
    if !exist {
      m.ForResource(Clusters, nothing);
    }
    RegisterOnly(m.index, nothing, on + {Clusters}, Deployments);
    exist := m.IsHandlerExist(Deployments, nothing);
    if !exist {
      m.ForResource(Deployments, nothing);
    }
  }
}
