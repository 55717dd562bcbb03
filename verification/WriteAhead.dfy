/** Write-ahead over runs: the sync that calls helm has itself stored the Deploying status before. */
module WriteAheadRuns {
  import opened Api
  import opened Protocol
  import opened Invariants
  import opened Steps

  /** The sync under way at the end of the run began with the event at position `j`. */
  ghost predicate BeganAt(es: seq<Event>, j: nat) {
    j < |es| && es[j].InstStart? && forall m :: j < m < |es| ==> !es[m].InstStart?
  }

  ghost predicate ShowsDeploying(h: seq<Object>) {
    h != [] && Last(h).status.phase == Deploying && Last(h).status.conditions != []
  }

  /** The event at position `k` is an acknowledged status write that stored phase Deploying and a condition. */
  ghost predicate StoredDeploying(c: Config, s0: State, es: seq<Event>, k: nat) {
    && k < |es| && es[k] == InstStatus(true, true)
    && Exec(c, s0, es[..k + 1]).Some? && ShowsDeploying(Exec(c, s0, es[..k + 1]).value.api.h)
  }

  lemma LastBegan(c: Config, s0: State, es: seq<Event>) returns (j: nat)
    requires Init(s0) && Exec(c, s0, es).Some? && Exec(c, s0, es).value.inst.Syncing?
    ensures BeganAt(es, j)
    decreases |es|
  {
    var before, e := es[..|es| - 1], es[|es| - 1];
    assert es == before + [e];
    ExecSnoc(c, s0, before, e);
    if e.InstStart? {
      j := |before|;
    } else {
      OnlyStartBegins(c, Exec(c, s0, before).value, e);
      j := LastBegan(c, s0, before);
    }
  }

  lemma OnlyStartBegins(c: Config, s: State, e: Event)
    requires Enabled(c, s, e) && Do(c, s, e).inst.Syncing? && !e.InstStart?
    ensures s.inst.Syncing?
  {
  }

  /** Only the acknowledged write of the Deploying status leads to helm. */
  lemma EnteringHelm(c: Config, s: State, e: Event)
    requires Inv(c, s) && Enabled(c, s, e) && InstAt(Do(c, s, e), Helming)
    ensures (InstAt(s, Helming) && !e.InstStart?) || (e == InstStatus(true, true) && ShowsDeploying(Do(c, s, e).api.h))
    ensures s.inst.Syncing?
  {
  }

  /** The last event of the run leads to helm. */
  lemma JustLogged(c: Config, s0: State, before: seq<Event>, e: Event)
    requires Init(s0) && Exec(c, s0, before).Some? && Enabled(c, Exec(c, s0, before).value, e)
    requires var s := Exec(c, s0, before).value; InstAt(Do(c, s, e), Helming) && (InstAt(s, Helming) ==> e.InstStart?)
    ensures Exec(c, s0, before).value.inst.Syncing? && !e.InstStart?
    ensures StoredDeploying(c, s0, before + [e], |before|)
  {
    InitInv(c, s0);
    RunInv(c, s0, before);
    EnteringHelm(c, Exec(c, s0, before).value, e);
    ExecSnoc(c, s0, before, e);
    assert (before + [e])[..|before| + 1] == before + [e];
  }

  lemma {:induction false} HelmIsLogged(c: Config, s0: State, es: seq<Event>) returns (j: nat, k: nat)
    requires Init(s0) && Exec(c, s0, es).Some? && InstAt(Exec(c, s0, es).value, Helming)
    ensures BeganAt(es, j) && j < k && StoredDeploying(c, s0, es, k)
    decreases |es|
  {
    if es == [] {
      assert false;
    } else {
      var before, e := es[..|es| - 1], es[|es| - 1];
      assert es == before + [e];
      ExecSnoc(c, s0, before, e);
      if InstAt(Exec(c, s0, before).value, Helming) && !e.InstStart? {
        j, k := HelmIsLogged(c, s0, before);
        Extends(c, s0, before, e, j, k);
      } else {
        JustLogged(c, s0, before, e);
        j := LastBegan(c, s0, before);
        k := |before|;
      }
    }
  }

  lemma Extends(c: Config, s0: State, before: seq<Event>, e: Event, j: nat, k: nat)
    requires BeganAt(before, j) && StoredDeploying(c, s0, before, k) && !e.InstStart?
    ensures BeganAt(before + [e], j) && StoredDeploying(c, s0, before + [e], k)
  {
    assert (before + [e])[..k + 1] == before[..k + 1];
  }

  /** In every run, when helm is called the same sync has stored phase Deploying with a condition: its
      acknowledged write lies between its start and the call, whatever earlier syncs stored. */
  lemma WriteAheadInRun(c: Config, s0: State, es: seq<Event>, r: HelmResult)
    requires Init(s0) && Exec(c, s0, es).Some? && Enabled(c, Exec(c, s0, es).value, InstHelm(r))
    ensures exists j: nat, k: nat :: BeganAt(es, j) && j < k && StoredDeploying(c, s0, es, k)
  {
    var j, k := HelmIsLogged(c, s0, es);
  }

  // ---- Uninstalled, in this sync ----

  /** The event at position `k` is an uninstall that returned nil. */
  predicate UninstalledAt(es: seq<Event>, k: nat) {
    && k < |es| && es[k].InstUninstall? && es[k].result.Ran?
    && (!es[k].result.found || es[k].result.nsDeleted)
  }

  lemma BecomesUninstalled(c: Config, s: State, e: Event)
    requires Enabled(c, s, e) && Do(c, s, e).inst.Syncing? && Do(c, s, e).inst.uninstalled
    ensures s.inst.Syncing? && !e.InstStart?
    ensures s.inst.uninstalled || UninstalledAt([e], 0)
  {
  }

  /** A sync counts as having uninstalled only if an uninstall returned nil in it, after it began. */
  lemma {:induction false} UninstalledInRun(c: Config, s0: State, es: seq<Event>) returns (j: nat, k: nat)
    requires Init(s0) && Exec(c, s0, es).Some?
    requires Exec(c, s0, es).value.inst.Syncing? && Exec(c, s0, es).value.inst.uninstalled
    ensures BeganAt(es, j) && j < k && UninstalledAt(es, k)
    decreases |es|
  {
    if es == [] {
      assert false;
    } else {
      var before, e := es[..|es| - 1], es[|es| - 1];
      assert es == before + [e];
      ExecSnoc(c, s0, before, e);
      var s := Exec(c, s0, before).value;
      BecomesUninstalled(c, s, e);
      if s.inst.uninstalled {
        j, k := UninstalledInRun(c, s0, before);
      } else {
        j := LastBegan(c, s0, before);
        k := |before|;
      }
    }
  }
}
