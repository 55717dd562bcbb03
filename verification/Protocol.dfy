/** The reconcile protocol of one KarmadaDeployment as a state machine.

    The API server keeps the history of the object's versions; writers race on it. `Update` is a
    compare-and-swap on the version that was read, a status write replaces the whole status of
    whatever version is current. Readers see a prefix of the history (a stale but monotone cache).
    A write may be applied although its caller is told it failed (`applied` without `ok`). */
module Protocol {
  import opened Api

  /** `ryow` (read your own writes): the installer's snapshot at the start of a sync includes its own last writes.
      `nsFixed`: users do not edit spec.controlPlane.namespace. */
  datatype Config = Config(name: string, ryow: bool, nsFixed: bool)

  // ---- Installer controller ----

  datatype InstPc =
    | Uninstalling                                // deletion: SyncWithAction(Uninstall)
    | DropRead                                    // deletion: read the lister inside the retry loop
    | DropWrite(newRv: nat, newer: Object)        // deletion: Update without the installer finalizer
    | Defaulting                                  // Update with the default values
    | ProgressWrite                               // status write whose error is ignored
    | Choosing                                    // GetInstaller
    | FailWrite                                   // NotReady status write, then return the error
    | PreflightWrite
    | Fetching                                    // chart download
    | DeployWrite
    | Helming                                     // namespace, values, helm install
    | Completing                                  // collect the kubeconfig secret
    | CompleteWrite
    | ReadyWrite

  /** `kmd` is the working copy, `rv` the version it was copied from, `begin` the length of the history
      when the sync started, `wal` the version current after the Deploying status was stored. */
  datatype Installer =
    | Idle
    | Syncing(pc: InstPc, kmd: Object, rv: nat, begin: nat, uninstalled: bool, wal: nat)

  // ---- Summary controller and summary managers ----

  datatype SumPc = SRemove | SUnfinal | SAdd | SCheck | SCreate | SRun(id: nat) | SPanic

  datatype Summarizer = SIdle | SSync(pc: SumPc, obj: Object, rv: nat)

  datatype WorkerPc = WTop | WHas(status: Status, rv: nat) | WSelect | WExit

  /** One goroutine running SummaryManager.worker. */
  datatype Worker = Worker(mgr: nat, pc: WorkerPc)

  /** The API server's history and how far its readers have got. */
  datatype Store = Store(
    h: seq<Object>,              // API versions; the last one is current
    seen: nat,                   // the lister holds version seen - 1
    told: nat,                   // the summary controller was notified up to version told - 1
    own: nat)                    // length of the history after the installer's last applied write

  datatype Summaries = Summaries(
    queued: bool,                // the key is in the summary controller's queue
    sum: Summarizer,
    manager: Option<nat>,        // managers[name]
    nextManager: nat,            // managers ever created: 0 .. nextManager - 1
    closed: set<nat>,            // managers whose close channel is closed
    workers: seq<Worker>)

  datatype Helm = Helm(
    release: Option<string>,     // namespace of the helm release
    touched: set<string>,        // namespaces used by Deploy or Uninstall
    deploys: nat)                // helm installs issued

  datatype State = State(api: Store, inst: Installer, sums: Summaries, helm: Helm)

  datatype UninstallResult = NoInstaller | LookupFailed | Ran(found: bool, released: bool, nsDeleted: bool)

  datatype HelmResult = NamespaceError | ValuesError | Issued(ok: bool, present: bool)

  datatype Event =
    | UserEdit(edited: Object)
    | UserDelete
    | UserHelmDelete
    | CacheAdvance(upTo: nat)
    | CacheNotify(upTo: nat)
    | InstStart(suffix: string)
    | InstUninstall(result: UninstallResult)
    | InstDropRead
    | InstDropWrite(applied: bool, ok: bool, conflict: bool)
    | InstDefault(applied: bool, ok: bool)
    | InstStatus(applied: bool, ok: bool)
    | InstChoose(ok: bool)
    | InstFetch(ok: bool)
    | InstHelm(outcome: HelmResult)
    | InstComplete(secret: Option<SecretRef>, kubeVersion: string)
    | SumStart
    | SumRemove
    | SumUnfinal(applied: bool, ok: bool)
    | SumAdd(applied: bool, ok: bool)
    | SumCheck
    | SumCreate(ok: bool)
    | SumRun
    | WorkRead(w: nat, computed: Option<Summary>)
    | WorkWrite(w: nat, applied: bool)
    | WorkLoop(w: nat)

  predicate OfUser(e: Event) {
    e.UserEdit? || e.UserDelete? || e.UserHelmDelete?
  }

  predicate OfCache(e: Event) {
    e.CacheAdvance? || e.CacheNotify?
  }

  predicate OfSummary(e: Event) {
    e.SumStart? || e.SumRemove? || e.SumUnfinal? || e.SumAdd? || e.SumCheck? || e.SumCreate? || e.SumRun?
  }

  predicate OfWorker(e: Event) {
    e.WorkRead? || e.WorkWrite? || e.WorkLoop?
  }

  function EventWorker(e: Event): nat
    requires OfWorker(e)
  {
    match e
    case WorkRead(w, _) => w
    case WorkWrite(w, _) => w
    case WorkLoop(w) => w
  }

  predicate OfInstaller(e: Event) {
    !OfUser(e) && !OfCache(e) && !OfSummary(e) && !OfWorker(e)
  }

  // ---- API server ----

  function Last(h: seq<Object>): Object
    requires h != []
  {
    h[|h| - 1]
  }

  /** A deleting object without finalizers is removed: the version is a tombstone. */
  predicate Tomb(o: Object) {
    o.deleting && o.finalizers == {}
  }

  predicate Exists(a: Store) {
    a.h != [] && !Tomb(Last(a.h))
  }

  /** Storing an unchanged object makes no new version. */
  function Append(h: seq<Object>, o: Object): (r: seq<Object>)
    requires h != []
    ensures r != [] && Last(r) == o && h <= r && |r| <= |h| + 1
  {
    if o == Last(h) then h else h + [o]
  }

  /** What `Update` stores: status is a subresource, deletion cannot be undone, and a changed spec
      bumps the generation. */
  function Stored(current: Object, sent: Object): Object {
    sent.(status := current.status,
          deleting := current.deleting,
          generation := current.generation + if sent.spec != current.spec then 1 else 0)
  }

  function Write(a: Store, o: Object, mine: bool): Store
    requires a.h != []
  {
    var h' := Append(a.h, o);
    a.(h := h', own := if mine then |h'| else a.own)
  }

  function WriteIf(a: Store, applied: bool, o: Object, mine: bool): Store
    requires a.h != []
  {
    if applied then Write(a, o, mine) else a
  }

  function Lister(a: Store): Option<Object> {
    if a.seen == 0 || a.seen > |a.h| || Tomb(a.h[a.seen - 1]) then None else Some(a.h[a.seen - 1])
  }

  /** `applied` needs the version the caller read to be the current one. */
  predicate CasOk(a: Store, rv: nat, applied: bool, ok: bool) {
    && (ok ==> applied)
    && (applied ==> Exists(a) && rv == |a.h| - 1)
  }

  predicate StatusOk(a: Store, applied: bool, ok: bool) {
    && (ok ==> applied)
    && (applied ==> Exists(a))
  }

  // ---- Local steps of the installer ----

  predicate NeedsUninstall(o: Object) {
    && !IsInstallModeFailed(o.status)
    && !IsConditionEmpty(o.status)
    && o.cascade == Some("false")
  }

  predicate NeedsUpdate(o: Object) {
    o.cascade.None? || InstallerFinalizer !in o.finalizers
  }

  function DefaultImages(images: Option<Images>): Option<Images> {
    match images
    case None => Some(Images("", DEFAULT_KARMADA_VERSION, "", "", ""))
    case Some(i) => Some(if i.karmadaVersion == "" then i.(karmadaVersion := DEFAULT_KARMADA_VERSION) else i)
  }

  function DefaultNamespace(name: string, namespace: string, suffix: string): string {
    if namespace == "" then name + "-" + suffix else namespace
  }

  function Defaulted(name: string, o: Object, suffix: string): Object {
    o.(cascade := if o.cascade.None? then Some("false") else o.cascade,
       finalizers := o.finalizers + {InstallerFinalizer},
       spec := o.spec.(
         namespace := DefaultNamespace(name, o.spec.namespace, suffix),
         serviceType := if o.spec.serviceType == "" then "ClusterIP" else o.spec.serviceType,
         images := DefaultImages(o.spec.images)))
  }

  function At(i: Installer, pc: InstPc): Installer
    requires i.Syncing?
  {
    i.(pc := pc)
  }

  /** Entry of InstallerFactory.Sync: observe the generation. */
  function EnterSync(i: Installer): Installer
    requires i.Syncing?
  {
    if i.kmd.status.observedGeneration != i.kmd.generation then
      var st := MarkProgressing(i.kmd.status.(observedGeneration := i.kmd.generation));
      i.(pc := ProgressWrite, kmd := i.kmd.(status := st))
    else
      At(i, Choosing)
  }

  function Fail(i: Installer, reason: Reason): Installer
    requires i.Syncing?
  {
    i.(pc := FailWrite, kmd := i.kmd.(status := MarkNotReady(i.kmd.status, reason)))
  }

  function SetPhase(i: Installer, phase: Phase, pc: InstPc): Installer
    requires i.Syncing?
  {
    i.(pc := pc, kmd := i.kmd.(status := i.kmd.status.(phase := phase)))
  }

  /** The workflow returned nil: record Ready. */
  function Finish(i: Installer): Installer
    requires i.Syncing?
  {
    i.(pc := ReadyWrite, kmd := i.kmd.(status := MarkReady(i.kmd.status)))
  }

  function StartSync(c: Config, a: Store, o: Object, suffix: string): Installer
    requires a.seen > 0
  {
    var i := Syncing(DropRead, o, a.seen - 1, |a.h|, false, 0);
    if o.deleting then
      At(i, if NeedsUninstall(o) then Uninstalling else DropRead)
    else
      var k := i.(kmd := Defaulted(c.name, o, suffix));
      if NeedsUpdate(o) then At(k, Defaulting) else EnterSync(k)
  }

  /** The switch on the phase in installWorkflow.Install. */
  function EnterInstall(i: Installer): Installer
    requires i.Syncing?
  {
    if i.kmd.status.phase in {NoPhase, Preflight, Deploying} then SetPhase(i, Preflight, PreflightWrite)
    else Finish(i)
  }

  predicate WritesStatus(pc: InstPc) {
    pc.ProgressWrite? || pc.FailWrite? || pc.PreflightWrite? || pc.DeployWrite? || pc.CompleteWrite? || pc.ReadyWrite?
  }

  /** After a status write left `versions` versions in the history. */
  function AfterStatus(i: Installer, versions: nat, ok: bool): Installer
    requires i.Syncing? && WritesStatus(i.pc) && versions > 0
  {
    match i.pc
    case ProgressWrite => At(i, Choosing)
    case PreflightWrite => if ok then At(i, Fetching) else Idle
    case DeployWrite => if ok then i.(pc := Helming, wal := versions - 1) else Idle
    case CompleteWrite => if ok then Finish(i) else Idle
    case _ => Idle
  }

  predicate InstallerAvailable(spec: Spec) {
    spec.mode == "" || spec.mode == "Helm"
  }

  function Complete(i: Installer, secret: SecretRef, kubeVersion: string): Installer
    requires i.Syncing?
  {
    var st := i.kmd.status.(
      secretRef := Some(secret), ready := true, phase := Completed,
      karmadaVersion := DEFAULT_KARMADA_VERSION,
      kubernetesVersion := if kubeVersion == "" then i.kmd.status.kubernetesVersion else kubeVersion);
    i.(pc := CompleteWrite, kmd := i.kmd.(status := st))
  }

  // ---- Event filter of the summary controller ----

  /** AddEvent when there is no older object, DeleteEvent for a tombstone, else UpdateEventfunc. */
  predicate Enqueues(older: Option<Object>, newer: Object) {
    if Tomb(newer) then true
    else if older.None? then newer.status.ready
    else
      && newer.status.ready
      && (!older.value.status.ready || (newer.deleting && !older.value.deleting))
  }

  // ---- Workers ----

  /** processNext returned. */
  function Ticked(w: Worker): Worker {
    w.(pc := WSelect)
  }

  /** processNext reads the object and compares its summary with the one just computed. */
  function ReadTick(a: Store, w: Worker, computed: Option<Summary>): Worker {
    match Lister(a)
    case None => Ticked(w)
    case Some(o) =>
      if computed.None? || o.status.summary == computed then Ticked(w)
      else w.(pc := WHas(o.status.(summary := computed), a.seen - 1))
  }

  // ---- Transition function ----

  predicate Init(s: State) {
    && |s.api.h| == 1
    && s.api.h[0].status == EMPTY_STATUS && s.api.h[0].generation == 1 && !s.api.h[0].deleting
    && InstallerFinalizer !in s.api.h[0].finalizers && SummaryFinalizer !in s.api.h[0].finalizers
    && s.api.seen == 0 && s.api.told == 0 && s.api.own == 0
    && s.inst == Idle
    && s.sums == Summaries(false, SIdle, None, 0, {}, [])
    && s.helm == Helm(None, {}, 0)
  }

  predicate EditOk(c: Config, old_: Object, new_: Object) {
    && new_.status == old_.status && new_.deleting == old_.deleting
    && (InstallerFinalizer in new_.finalizers <==> InstallerFinalizer in old_.finalizers)
    && (SummaryFinalizer in new_.finalizers <==> SummaryFinalizer in old_.finalizers)
    && (old_.deleting ==> new_.finalizers <= old_.finalizers)
    && new_.generation == old_.generation + (if new_.spec != old_.spec then 1 else 0)
    && (c.nsFixed ==> new_.spec.namespace == old_.spec.namespace)
  }

  predicate InstAt(s: State, pc: InstPc) {
    s.inst.Syncing? && s.inst.pc == pc
  }

  predicate SumAt(q: Summaries, pc: SumPc) {
    q.sum.SSync? && q.sum.pc == pc
  }

  predicate Enabled(c: Config, s: State, e: Event) {
    var a, q := s.api, s.sums;
    a.h != [] &&
    match e
    case UserEdit(o) => Exists(a) && EditOk(c, Last(a.h), o)
    case UserDelete => Exists(a) && !Last(a.h).deleting
    case UserHelmDelete => true
    case CacheAdvance(k) => a.seen < k <= |a.h|
    case CacheNotify(k) => a.told < k <= a.seen && k <= |a.h|
    case InstStart(suffix) => s.inst.Idle? && Lister(a).Some? && (c.ryow ==> a.own <= a.seen)
    case InstUninstall(r) =>
      && InstAt(s, Uninstalling)
      && (r.NoInstaller? || InstallerAvailable(s.inst.kmd.spec))
      && (r.Ran? && r.found ==> s.helm.release.Some?)
    case InstDropRead => InstAt(s, DropRead)
    case InstDropWrite(applied, ok, conflict) =>
      && s.inst.Syncing? && s.inst.pc.DropWrite?
      && CasOk(a, s.inst.pc.newRv, applied, ok)
      && (conflict ==> !applied)
    case InstDefault(applied, ok) => InstAt(s, Defaulting) && CasOk(a, s.inst.rv, applied, ok)
    case InstStatus(applied, ok) => s.inst.Syncing? && WritesStatus(s.inst.pc) && StatusOk(a, applied, ok)
    case InstChoose(ok) => InstAt(s, Choosing) && (ok ==> InstallerAvailable(s.inst.kmd.spec))
    case InstFetch(ok) => InstAt(s, Fetching)
    case InstHelm(r) =>
      && InstAt(s, Helming)
      && (r.Issued? && r.ok ==> s.helm.release.None? && r.present)
    case InstComplete(secret, kubeVersion) => InstAt(s, Completing)
    case SumStart => q.sum.SIdle? && q.queued
    case SumRemove => SumAt(q, SRemove)
    case SumUnfinal(applied, ok) => SumAt(q, SUnfinal) && CasOk(a, q.sum.rv, applied, ok)
    case SumAdd(applied, ok) => SumAt(q, SAdd) && CasOk(a, q.sum.rv, applied, ok)
    case SumCheck => SumAt(q, SCheck)
    case SumCreate(ok) => SumAt(q, SCreate)
    case SumRun => q.sum.SSync? && q.sum.pc.SRun?
    case WorkRead(w, computed) => w < |q.workers| && q.workers[w].pc.WTop?
    case WorkWrite(w, applied) => w < |q.workers| && q.workers[w].pc.WHas? && StatusOk(a, applied, applied)
    case WorkLoop(w) => w < |q.workers| && q.workers[w].pc.WSelect?
  }

  function Do(c: Config, s: State, e: Event): State
    requires Enabled(c, s, e)
  {
    var a, i, q := s.api, s.inst, s.sums;
    match e
    case UserEdit(o) => s.(api := Write(a, o, false))
    case UserDelete => s.(api := Write(a, Deleted(Last(a.h)), false))
    case UserHelmDelete => s.(helm := s.helm.(release := None))
    case CacheAdvance(k) => s.(api := a.(seen := k))
    case CacheNotify(k) => s.(api := a.(told := k), sums := Notified(a, q, k))
    case InstStart(suffix) => s.(inst := StartSync(c, a, Lister(a).value, suffix))
    case InstUninstall(r) => s.(inst := AfterUninstall(i, r), helm := Uninstalled(s.helm, i.kmd.spec.namespace, r))
    case InstDropRead => s.(inst := ReadForDrop(a, i))
    case InstDropWrite(applied, ok, conflict) =>
      s.(api := WriteIf(a, applied, Stored(Last(a.h), i.pc.newer), true),
         inst := if conflict then At(i, DropRead) else Idle)
    case InstDefault(applied, ok) =>
      s.(api := WriteIf(a, applied, Stored(Last(a.h), i.kmd), true), inst := if ok then EnterSync(i) else Idle)
    case InstStatus(applied, ok) =>
      var b := WriteIf(a, applied, Last(a.h).(status := i.kmd.status), true);
      s.(api := b, inst := AfterStatus(i, |b.h|, ok))
    case InstChoose(ok) => s.(inst := if ok then EnterInstall(i) else Fail(i, InstallModeFailed))
    case InstFetch(ok) => s.(inst := if ok then SetPhase(i, Deploying, DeployWrite) else Fail(i, HelmChartFailed))
    case InstHelm(r) => s.(inst := AfterHelm(i, r), helm := Deployed(s.helm, i.kmd.spec.namespace, r))
    case InstComplete(secret, kubeVersion) =>
      s.(inst := if secret.None? then Idle else Complete(i, secret.value, kubeVersion))
    case SumStart => s.(sums := q.(queued := false, sum := StartSummary(a)))
    case SumRemove => s.(sums := RemoveManager(q))
    case SumUnfinal(applied, ok) =>
      s.(api := WriteIf(a, applied, Stored(Last(a.h), WithoutSummary(q.sum.obj)), false), sums := SumDone(q, !ok))
    case SumAdd(applied, ok) =>
      var b := WriteIf(a, applied, Stored(Last(a.h), WithSummary(q.sum.obj)), false);
      s.(api := b, sums := if ok then q.(sum := SSync(SCheck, Last(b.h), |b.h| - 1)) else SumDone(q, true))
    case SumCheck => s.(sums := q.(sum := q.sum.(pc := if q.manager.Some? then SRun(q.manager.value) else SCreate)))
    case SumCreate(ok) => s.(sums := CreateManager(q, ok))
    case SumRun => s.(sums := SumDone(q.(workers := q.workers + [Worker(q.sum.pc.id, WTop)]), false))
    case WorkRead(w, computed) =>
      s.(sums := q.(workers := q.workers[w := ReadTick(a, q.workers[w], computed)]))
    case WorkWrite(w, applied) =>
      s.(api := WriteIf(a, applied, Last(a.h).(status := q.workers[w].pc.status), false),
         sums := q.(workers := q.workers[w := Ticked(q.workers[w])]))
    case WorkLoop(w) =>
      var k := q.workers[w];
      s.(sums := q.(workers := q.workers[w := k.(pc := if k.mgr in q.closed then WExit else WTop)]))
  }

  function Deleted(o: Object): Object {
    o.(deleting := true, generation := o.generation + 1)
  }

  function WithSummary(o: Object): Object {
    o.(finalizers := o.finalizers + {SummaryFinalizer})
  }

  function WithoutSummary(o: Object): Object {
    o.(finalizers := o.finalizers - {SummaryFinalizer})
  }

  function Notified(a: Store, q: Summaries, k: nat): Summaries
    requires a.told < k <= |a.h|
  {
    var older := if a.told == 0 then None else Some(a.h[a.told - 1]);
    q.(queued := q.queued || Enqueues(older, a.h[k - 1]))
  }

  /** One attempt of the retry loop reads the lister again. */
  function ReadForDrop(a: Store, i: Installer): Installer
    requires i.Syncing?
  {
    match Lister(a)
    case None => Idle
    case Some(o) =>
      if InstallerFinalizer !in o.finalizers then Idle
      else At(i, DropWrite(a.seen - 1, o.(finalizers := o.finalizers - {InstallerFinalizer})))
  }

  function AfterUninstall(i: Installer, r: UninstallResult): Installer
    requires i.Syncing?
  {
    match r
    case NoInstaller => Fail(i, InstallModeFailed)
    case LookupFailed => Idle
    case Ran(found, released, nsDeleted) =>
      if found && !nsDeleted then Idle else i.(pc := DropRead, uninstalled := true)
  }

  function Uninstalled(m: Helm, namespace: string, r: UninstallResult): Helm
    requires r.Ran? && r.found ==> m.release.Some?
  {
    if !r.Ran? then m
    else m.(touched := m.touched + {if r.found then m.release.value else namespace},
            release := if r.found && r.released then None else m.release)
  }

  function AfterHelm(i: Installer, r: HelmResult): Installer
    requires i.Syncing?
  {
    match r
    case NamespaceError => Idle
    case ValuesError => Fail(i, HelmInitFailed)
    case Issued(ok, present) => if ok then At(i, Completing) else Fail(i, HelmReleaseFailed)
  }

  /** Helm refuses a release name in use; a failed atomic install may or may not leave a release. */
  function Deployed(m: Helm, namespace: string, r: HelmResult): Helm {
    var t := m.(touched := m.touched + {namespace});
    if !r.Issued? then t
    else t.(deploys := m.deploys + 1,
            release := if m.release.Some? then m.release else if r.present then Some(namespace) else None)
  }

  function StartSummary(a: Store): Summarizer {
    match Lister(a)
    case None => SIdle
    case Some(o) =>
      var pc := if o.deleting then SRemove else if SummaryFinalizer in o.finalizers then SCheck else SAdd;
      SSync(pc, o, a.seen - 1)
  }

  function SumDone(q: Summaries, requeue: bool): Summaries {
    q.(sum := SIdle, queued := q.queued || requeue)
  }

  /** removekarmadaDeployment, under the lock: shut the manager down and forget it. */
  function RemoveManager(q: Summaries): Summaries
    requires q.sum.SSync?
  {
    var r := q.(sum := q.sum.(pc := SUnfinal));
    if q.manager.None? then r else r.(closed := q.closed + {q.manager.value}, manager := None)
  }

  /** GetSummaryManager, under the lock: a nil secret reference is dereferenced there. */
  function CreateManager(q: Summaries, ok: bool): Summaries
    requires q.sum.SSync?
  {
    if q.manager.Some? then q.(sum := q.sum.(pc := SRun(q.manager.value)))
    else if q.sum.obj.status.secretRef.None? then q.(sum := q.sum.(pc := SPanic))
    else if !ok then SumDone(q, true)
    else q.(sum := q.sum.(pc := SRun(q.nextManager)), manager := Some(q.nextManager), nextManager := q.nextManager + 1)
  }

  /** The state reached by a sequence of events, if every one of them is enabled in turn. */
  function Exec(c: Config, s: State, es: seq<Event>): Option<State>
    decreases |es|
  {
    if es == [] then Some(s)
    else if Enabled(c, s, es[0]) then Exec(c, Do(c, s, es[0]), es[1..])
    else None
  }

  ghost predicate Reaches(c: Config, es: seq<Event>, s: State) {
    exists s0 :: Init(s0) && Exec(c, s0, es) == Some(s)
  }

  ghost predicate Reachable(c: Config, s: State) {
    exists es :: Reaches(c, es, s)
  }

  /** A run is enabled as a whole exactly if each part is, from where the other ends. */
  lemma {:induction false} ExecAppend(c: Config, s: State, es: seq<Event>, fs: seq<Event>)
    ensures Exec(c, s, es + fs) == if Exec(c, s, es).Some? then Exec(c, Exec(c, s, es).value, fs) else None
    decreases |es|
  {
    if es == [] {
      assert es + fs == fs;
    } else {
      assert (es + fs)[0] == es[0] && (es + fs)[1..] == es[1..] + fs;
      if Enabled(c, s, es[0]) {
        ExecAppend(c, Do(c, s, es[0]), es[1..], fs);
      }
    }
  }

  lemma ExecOne(c: Config, s: State, e: Event)
    ensures Exec(c, s, [e]) == if Enabled(c, s, e) then Some(Do(c, s, e)) else None
  {
    if Enabled(c, s, e) {
      assert Exec(c, Do(c, s, e), []) == Some(Do(c, s, e));
    }
  }

  lemma ExecSnoc(c: Config, s: State, es: seq<Event>, e: Event)
    ensures Exec(c, s, es + [e]) ==
            if Exec(c, s, es).Some? && Enabled(c, Exec(c, s, es).value, e)
            then Some(Do(c, Exec(c, s, es).value, e)) else None
  {
    ExecAppend(c, s, es, [e]);
    if Exec(c, s, es).Some? {
      ExecOne(c, Exec(c, s, es).value, e);
    }
  }

  lemma HistoryGrows(c: Config, s: State, e: Event)
    requires Enabled(c, s, e)
    ensures s.api.h <= Do(c, s, e).api.h
  {
  }

  lemma OthersKeepInst(c: Config, s: State, e: Event)
    requires Enabled(c, s, e) && !OfInstaller(e)
    ensures Do(c, s, e).inst == s.inst
  {
  }

  /** A longer run has the shorter run's history as a prefix. */
  lemma {:induction false} RunsGrow(c: Config, s: State, es: seq<Event>, fs: seq<Event>)
    requires es <= fs && Exec(c, s, es).Some? && Exec(c, s, fs).Some?
    ensures Exec(c, s, es).value.api.h <= Exec(c, s, fs).value.api.h
    decreases |fs|
  {
    if fs == [] {
    } else if es != [] {
      RunsGrow(c, Do(c, s, es[0]), es[1..], fs[1..]);
    } else {
      HistoryGrows(c, s, fs[0]);
      RunsGrow(c, Do(c, s, fs[0]), [], fs[1..]);
    }
  }
}
