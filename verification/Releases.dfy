/** The helm release of the object: which events make and remove it, in which namespace, and how often helm
    was asked to install. */
module Releases {
  import opened Api
  import opened Protocol

  /** The helm installs issued in a run. */
  function InstallsIn(es: seq<Event>): nat {
    if es == [] then 0 else InstallsIn(es[1..]) + if es[0].InstHelm? && es[0].outcome.Issued? then 1 else 0
  }

  /** The event makes a release: helm was asked to install, left something in place, and had none before. */
  predicate Makes(s: State, e: Event) {
    e.InstHelm? && e.outcome.Issued? && (e.outcome.ok || e.outcome.present) && s.helm.release.None?
  }

  /** The event removes the release: the user did, or an uninstall found it and got helm to. */
  predicate Removes(e: Event) {
    e.UserHelmDelete? || (e.InstUninstall? && e.result.Ran? && e.result.found && e.result.released)
  }

  /** The release changes by these events only: it is made in the namespace of the sync's working copy, stays
      where it is until it is removed, and a failed uninstall or install leaves it. */
  lemma ReleaseFollows(c: Config, s: State, e: Event)
    requires Enabled(c, s, e)
    ensures Do(c, s, e).helm.release ==
            if Makes(s, e) then Some(s.inst.kmd.spec.namespace) else if Removes(e) then None else s.helm.release
  {
  }

  /** Whatever namespace helm is asked to use, or to remove, is counted as touched. */
  lemma UsesAreTouched(c: Config, s: State, e: Event)
    requires Enabled(c, s, e)
    ensures s.helm.touched <= Do(c, s, e).helm.touched
    ensures e.InstHelm? ==> s.inst.kmd.spec.namespace in Do(c, s, e).helm.touched
    ensures e.InstUninstall? && e.result.Ran? ==>
              (if e.result.found then s.helm.release.value else s.inst.kmd.spec.namespace) in Do(c, s, e).helm.touched
  {
  }

  lemma {:induction false} InstallsAreCounted(c: Config, s: State, es: seq<Event>)
    requires Exec(c, s, es).Some?
    ensures Exec(c, s, es).value.helm.deploys == s.helm.deploys + InstallsIn(es)
    decreases |es|
  {
    if es == [] {
    } else {
      InstallsAreCounted(c, Do(c, s, es[0]), es[1..]);
    }
  }

  /** A release that is there after a run without one at its start was made in the run, in its namespace, and
      not removed since. */
  lemma {:induction false} ReleaseWasMade(c: Config, s: State, es: seq<Event>) returns (k: nat)
    requires Exec(c, s, es).Some? && s.helm.release.None? && Exec(c, s, es).value.helm.release.Some?
    ensures k < |es| && Exec(c, s, es[..k]).Some? && Makes(Exec(c, s, es[..k]).value, es[k])
    ensures Exec(c, s, es[..k]).value.inst.Syncing?
    ensures Exec(c, s, es).value.helm.release == Some(Exec(c, s, es[..k]).value.inst.kmd.spec.namespace)
    ensures forall j :: k < j < |es| ==> !Removes(es[j])
    decreases |es|
  {
    if es == [] {
      assert false;
    } else {
      var before, e := es[..|es| - 1], es[|es| - 1];
      assert es == before + [e];
      ExecSnoc(c, s, before, e);
      var t := Exec(c, s, before).value;
      ReleaseFollows(c, t, e);
      if t.helm.release.Some? {
        k := ReleaseWasMade(c, s, before);
        assert es[..k] == before[..k];
      } else {
        k := |before|;
      }
    }
  }
}
