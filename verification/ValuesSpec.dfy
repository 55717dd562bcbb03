/** What the chart values of a KarmadaDeployment are, module by module, without any heap or loop. */
module ValuesSpec {
  import opened Api
  import ImageRef

  const KARMADA := [SchedulerEstimator, Descheduler,
                    Search, Scheduler, Webhook,
                    ControllerManager, Agent, AggregatedApiServer]
  const KUBERNATES := [ApiServer, KubeControllerManager, Etcd]
  const DOCKER_IO := [Cfssl, Kubectl]

  const IF_NOT_PRESENT := "IfNotPresent"
  const DEFAULT_REGISTRY := "ghcr.io"
  const KUBECTL_REPOSITORY := "daocloud/kubectl"
  const KUBECTL_TAG := "v1.25.3"
  const CFSSL_REPOSITORY := "daocloud/cfssl"
  const CFSSL_TAG := "v1.6.3"

  datatype ImageValue = ImageValue(registry: string, repository: string, tag: string, pullPolicy: string)

  datatype ModuleValue = ModuleValue(
    replicas: Option<int>, image: Option<ImageValue>, hostNetwork: Option<bool>, serviceType: string)

  datatype EtcdValue = EtcdValue(
    replicas: Option<int>, image: Option<ImageValue>, storageType: string, storageClass: string, size: string)

  datatype ChartValues = ChartValues(
    modules: map<ModuleName, ModuleValue>, etcd: EtcdValue, components: seq<string>, certHosts: Option<seq<string>>)

  const EMPTY_MODULE := ModuleValue(None, None, None, "")

  // ---- Images ----

  predicate IsEmpty(i: ImageValue) {
    i.registry == "" && i.repository == "" && i.tag == ""
  }

  function NonEmpty(i: ImageValue): Option<ImageValue> {
    if IsEmpty(i) then None else Some(i)
  }

  /** The default the group of a module gives it. */
  function GroupImage(images: Option<Images>, k: ModuleName): Option<ImageValue> {
    if images.None? then None
    else
      var i := images.value;
      if k in KARMADA then NonEmpty(ImageValue(i.karmadaRegistry, "", i.karmadaVersion, ""))
      else if k in KUBERNATES then NonEmpty(ImageValue(i.kubeRegistry, "", if k == Etcd then "" else i.kubeVersion, ""))
      else if k in DOCKER_IO then NonEmpty(ImageValue(i.dockerIoRegistry, "", "", ""))
      else None
  }

  function ParsedImage(s: string): ImageValue {
    var r := ImageRef.Parse(s);
    ImageValue(r.registry, r.repository, r.tag, "")
  }

  /** What one list entry makes of the image its module has so far. */
  function Override(e: ModuleSpec, image: Option<ImageValue>): Option<ImageValue> {
    var i := if e.image != "" then Some(ParsedImage(e.image)) else image;
    if e.pullPolicy != "" && i.Some? then Some(i.value.(pullPolicy := e.pullPolicy)) else i
  }

  /** The image of module `k` after the whole list, starting from `image`. */
  function ImageOf(ms: seq<ModuleSpec>, k: ModuleName, image: Option<ImageValue>): Option<ImageValue> {
    if ms == [] then image
    else
      var before, e := ImageOf(ms[..|ms| - 1], k, image), ms[|ms| - 1];
      if e.name == k then Override(e, before) else before
  }

  /** Entry `i` sets a pull policy, and its module has no image to put it on: no default of its group, and
      no image in this or an earlier entry. */
  predicate PanicsAt(ms: seq<ModuleSpec>, images: Option<Images>, i: nat) {
    && i < |ms| && ms[i].pullPolicy != "" && GroupImage(images, ms[i].name).None?
    && forall j :: 0 <= j <= i && ms[j].name == ms[i].name ==> ms[j].image == ""
  }

  /** A nil dereference. */
  predicate Panics(ms: seq<ModuleSpec>, images: Option<Images>) {
    exists i :: 0 <= i < |ms| && PanicsAt(ms, images, i)
  }

  /** A module has no image exactly if its group gives none and no entry names one. */
  lemma {:induction false} ImageIsMissing(ms: seq<ModuleSpec>, k: ModuleName, g: Option<ImageValue>)
    ensures ImageOf(ms, k, g).None? <==> g.None? && forall j :: 0 <= j < |ms| && ms[j].name == k ==> ms[j].image == ""
  {
    if ms == [] {
    } else {
      ImageIsMissing(ms[..|ms| - 1], k, g);
    }
  }

  /** A pull policy for etcd alone, in a specification that otherwise has the defaults the operator itself
      fills in, makes the conversion dereference nil: etcd takes no version from its group. */
  lemma EtcdPolicyPanics()
    ensures Panics([ModuleSpec(Etcd, None, "", "Always")], Some(Images("", DEFAULT_KARMADA_VERSION, "", "", "")))
  {
    var ms := [ModuleSpec(Etcd, None, "", "Always")];
    assert PanicsAt(ms, Some(Images("", DEFAULT_KARMADA_VERSION, "", "", "")), 0);
  }

  // ---- Replicas ----

  predicate Named(ms: seq<ModuleSpec>, k: ModuleName) {
    exists i :: 0 <= i < |ms| && ms[i].name == k
  }

  /** The last entry decides, even if it sets none. */
  function ReplicasOf(ms: seq<ModuleSpec>, k: ModuleName): Option<int> {
    if ms == [] then None
    else if ms[|ms| - 1].name == k then ms[|ms| - 1].replicas
    else ReplicasOf(ms[..|ms| - 1], k)
  }

  /** For etcd the last entry that sets some decides. */
  function EtcdReplicas(ms: seq<ModuleSpec>): Option<int> {
    if ms == [] then None
    else if ms[|ms| - 1].name == Etcd && ms[|ms| - 1].replicas.Some? then ms[|ms| - 1].replicas
    else EtcdReplicas(ms[..|ms| - 1])
  }

  // ---- The converted values ----

  function ConvertedImage(spec: Spec, k: ModuleName): Option<ImageValue> {
    ImageOf(spec.modules, k, GroupImage(spec.images, k))
  }

  predicate HasModule(spec: Spec, k: ModuleName) {
    && k != Etcd
    && (Named(spec.modules, k) || ConvertedImage(spec, k).Some? || (k == ApiServer && spec.serviceType != ""))
  }

  function ConvertedModule(spec: Spec, k: ModuleName): ModuleValue {
    ModuleValue(ReplicasOf(spec.modules, k), ConvertedImage(spec, k), None,
                if k == ApiServer then spec.serviceType else "")
  }

  function ConvertedEtcd(spec: Spec): EtcdValue {
    var e := if spec.etcd.Some? then spec.etcd.value else EtcdSpec("", "", "");
    EtcdValue(EtcdReplicas(spec.modules), ConvertedImage(spec, Etcd), e.storageMode, e.storageClass, e.size)
  }

  ghost predicate IsConverted(spec: Spec, v: ChartValues) {
    && (forall k :: k in v.modules <==> HasModule(spec, k))
    && (forall k :: k in v.modules ==> v.modules[k] == ConvertedModule(spec, k))
    && v.etcd == ConvertedEtcd(spec)
    && v.components == spec.components
    && v.certHosts == None
  }

  // ---- Chart defaults ----

  function FillImage(i: Option<ImageValue>, registry: string, repository: string, tag: string): ImageValue {
    match i
    case None => ImageValue(registry, repository, tag, "")
    case Some(x) => x.(registry := if x.registry == "" then registry else x.registry,
                       repository := if x.repository == "" then repository else x.repository,
                       tag := if x.tag == "" then tag else x.tag)
  }

  function PolicyImage(i: Option<ImageValue>): ImageValue {
    match i
    case None => ImageValue("", "", "", IF_NOT_PRESENT)
    case Some(x) => x.(pullPolicy := IF_NOT_PRESENT)
  }

  /** The modules whose pull policy is forced. */
  predicate Pinned(k: ModuleName) {
    k in KARMADA || k in DOCKER_IO
  }

  function DefaultedImage(k: ModuleName, i: Option<ImageValue>): Option<ImageValue> {
    if k == Kubectl then Some(PolicyImage(Some(FillImage(i, DEFAULT_REGISTRY, KUBECTL_REPOSITORY, KUBECTL_TAG))))
    else if k == Cfssl then Some(PolicyImage(Some(FillImage(i, DEFAULT_REGISTRY, CFSSL_REPOSITORY, CFSSL_TAG))))
    else if k in KARMADA then Some(PolicyImage(i))
    else i
  }

  function DefaultedModule(k: ModuleName, m: ModuleValue): ModuleValue {
    m.(hostNetwork := if k == ApiServer then Some(false) else m.hostNetwork, image := DefaultedImage(k, m.image))
  }

  function ModuleIn(v: ChartValues, k: ModuleName): ModuleValue {
    if k in v.modules then v.modules[k] else EMPTY_MODULE
  }

  function CertHosts(namespace: string, external: seq<string>): seq<string> {
    ["kubernetes.default.svc",
     "*.etcd." + namespace + ".svc.cluster.local",
     "*." + namespace + ".svc.cluster.local",
     "*." + namespace + ".svc",
     "localhost",
     "127.0.0.1"] + external
  }

  ghost predicate IsDefaulted(v: ChartValues, r: ChartValues, namespace: string, external: seq<string>) {
    && (forall k :: k in r.modules <==> k in v.modules || k == ApiServer || Pinned(k))
    && (forall k :: k in r.modules ==> r.modules[k] == DefaultedModule(k, ModuleIn(v, k)))
    && r.etcd == v.etcd
    && r.components == v.components
    && r.certHosts == Some(CertHosts(namespace, external))
  }

  // ---- Both passes ----

  /** The module `k` of the finished values, from the specification alone. */
  function FinalModule(spec: Spec, k: ModuleName): ModuleValue {
    ModuleValue(ReplicasOf(spec.modules, k), DefaultedImage(k, ConvertedImage(spec, k)),
                if k == ApiServer then Some(false) else None, if k == ApiServer then spec.serviceType else "")
  }

  ghost predicate IsChart(spec: Spec, v: ChartValues, external: seq<string>) {
    && (forall k :: k in v.modules <==>
          k != Etcd && (Named(spec.modules, k) || ConvertedImage(spec, k).Some? || k == ApiServer || Pinned(k)))
    && (forall k :: k in v.modules ==> v.modules[k] == FinalModule(spec, k))
    && v.etcd == ConvertedEtcd(spec)
    && v.components == spec.components
    && v.certHosts == Some(CertHosts(spec.namespace, external))
  }

  /** The image of module `k` in the chart. */
  function ChartImage(spec: Spec, k: ModuleName): Option<ImageValue> {
    if k == Etcd then ConvertedEtcd(spec).image else FinalModule(spec, k).image
  }

  lemma PinnedIsNotEtcd(k: ModuleName)
    ensures Pinned(k) ==> k != Etcd
  {
  }

  lemma {:induction false} UnnamedKeepsDefaults(ms: seq<ModuleSpec>, k: ModuleName, g: Option<ImageValue>)
    requires !Named(ms, k)
    ensures ReplicasOf(ms, k) == None && ImageOf(ms, k, g) == g
  {
    if ms == [] {
    } else {
      var before := ms[..|ms| - 1];
      assert forall i :: 0 <= i < |before| ==> before[i] == ms[i];
      UnnamedKeepsDefaults(before, k, g);
    }
  }

  /** Converting and then defaulting is the per-module function above. */
  lemma BothPasses(spec: Spec, v: ChartValues, r: ChartValues, external: seq<string>)
    requires IsConverted(spec, v) && IsDefaulted(v, r, spec.namespace, external)
    ensures IsChart(spec, r, external)
  {
    forall k
      ensures k in r.modules <==>
              k != Etcd && (Named(spec.modules, k) || ConvertedImage(spec, k).Some? || k == ApiServer || Pinned(k))
      ensures k in r.modules ==> r.modules[k] == FinalModule(spec, k)
    {
      PinnedIsNotEtcd(k);
      if !Named(spec.modules, k) {
        UnnamedKeepsDefaults(spec.modules, k, GroupImage(spec.images, k));
      }
    }
  }

  // ---- Properties ----

  predicate Complete(i: ImageValue) {
    i.registry != "" && i.repository != "" && i.tag != ""
  }

  /** `y` has every part `x` has, and where `x` has none the given one. */
  predicate FillsParts(x: ImageValue, y: ImageValue, registry: string, repository: string, tag: string) {
    && y.registry == (if x.registry != "" then x.registry else registry)
    && y.repository == (if x.repository != "" then x.repository else repository)
    && y.tag == (if x.tag != "" then x.tag else tag)
  }

  /** What the chart defaults do to the image of module `k`. */
  lemma ImageDefaultsAre(k: ModuleName, i: Option<ImageValue>)
    ensures var x, j := (if i.Some? then i.value else ImageValue("", "", "", "")), DefaultedImage(k, i);
            && (k == Kubectl ==> j.Some? && FillsParts(x, j.value, "ghcr.io", "daocloud/kubectl", "v1.25.3"))
            && (k == Cfssl ==> j.Some? && FillsParts(x, j.value, "ghcr.io", "daocloud/cfssl", "v1.6.3"))
            && (Pinned(k) ==> j.Some? && j.value.pullPolicy == "IfNotPresent")
            && (Pinned(k) && k != Kubectl && k != Cfssl ==> j.value == x.(pullPolicy := "IfNotPresent"))
            && (!Pinned(k) ==> j == i)
  {
  }

  lemma ImageDefaultsSettle(k: ModuleName, i: Option<ImageValue>)
    ensures DefaultedImage(k, DefaultedImage(k, i)) == DefaultedImage(k, i)
    ensures k in {Kubectl, Cfssl} ==> Complete(DefaultedImage(k, i).value)
  {
    ImageDefaultsAre(k, i);
    ImageDefaultsAre(k, DefaultedImage(k, i));
  }

  /** Applying the chart defaults twice is applying them once. */
  lemma DefaultsAreIdempotent(v: ChartValues, r: ChartValues, t: ChartValues, namespace: string, external: seq<string>)
    requires IsDefaulted(v, r, namespace, external) && IsDefaulted(r, t, namespace, external)
    ensures t == r
  {
    assert t.modules.Keys == r.modules.Keys;
    forall k | k in r.modules ensures t.modules[k] == r.modules[k] {
      ImageDefaultsSettle(k, ModuleIn(v, k).image);
    }
  }

  /** User replicas and service types survive, and so does every part a user's image has; kubectl and cfssl
      images come out complete, with the missing parts and no others filled in; every Karmada and docker.io
      module pulls IfNotPresent, and nothing else changes. */
  lemma DefaultsKeepAndComplete(v: ChartValues, r: ChartValues, namespace: string, external: seq<string>, k: ModuleName)
    requires IsDefaulted(v, r, namespace, external) && k in r.modules
    ensures r.modules[k].replicas == ModuleIn(v, k).replicas && r.modules[k].serviceType == ModuleIn(v, k).serviceType
    ensures r.modules[k].hostNetwork == if k == ApiServer then Some(false) else ModuleIn(v, k).hostNetwork
    ensures var i, j := ModuleIn(v, k).image, r.modules[k].image;
            var x := if i.Some? then i.value else ImageValue("", "", "", "");
            && (Pinned(k) ==> j.Some? && j.value.pullPolicy == "IfNotPresent")
            && (k == Kubectl ==> FillsParts(x, j.value, "ghcr.io", "daocloud/kubectl", "v1.25.3") && Complete(j.value))
            && (k == Cfssl ==> FillsParts(x, j.value, "ghcr.io", "daocloud/cfssl", "v1.6.3") && Complete(j.value))
            && (Pinned(k) && k !in {Kubectl, Cfssl} ==> j.value == x.(pullPolicy := "IfNotPresent"))
            && (!Pinned(k) ==> j == i)
  {
    ImageDefaultsAre(k, ModuleIn(v, k).image);
    ImageDefaultsSettle(k, ModuleIn(v, k).image);
  }

  /** Entry `i` is the last of module `k` that names an image. */
  predicate LastImage(ms: seq<ModuleSpec>, k: ModuleName, i: nat) {
    && i < |ms| && ms[i].name == k && ms[i].image != ""
    && forall j :: i < j < |ms| && ms[j].name == k ==> ms[j].image == ""
  }

  /** The last non-empty pull policy of module `k` among the entries from `i` on, else `p`. */
  function LastPolicy(ms: seq<ModuleSpec>, k: ModuleName, i: nat, p: string): string
    requires i <= |ms|
    decreases |ms|
  {
    if i == |ms| then p
    else
      var e := ms[|ms| - 1];
      if e.name == k && e.pullPolicy != "" then e.pullPolicy else LastPolicy(ms[..|ms| - 1], k, i, p)
  }

  /** The last explicit image replaces the group default and all earlier images; only pull policies given
      with it or after it apply. */
  lemma {:induction false} LastImageWins(ms: seq<ModuleSpec>, k: ModuleName, g: Option<ImageValue>, i: nat)
    requires LastImage(ms, k, i)
    ensures ImageOf(ms, k, g) == Some(ParsedImage(ms[i].image).(pullPolicy := LastPolicy(ms, k, i, "")))
    decreases |ms|
  {
    var before := ms[..|ms| - 1];
    if i < |ms| - 1 {
      assert LastImage(before, k, i) by {
        assert before[i] == ms[i];
        assert forall j :: i < j < |before| ==> before[j] == ms[j];
      }
      LastImageWins(before, k, g, i);
    } else {
      assert LastPolicy(before, k, i, "") == "";
    }
  }

  /** In the chart, the parts of the image that wins are those of its string: put together again they are the
      string, unless its last colon is its last character past position 0 or it starts with a slash. For kubectl
      and cfssl, whose missing parts are filled in, see DefaultsKeepAndComplete. */
  lemma ExplicitImageReachesChart(spec: Spec, k: ModuleName, i: nat)
    requires LastImage(spec.modules, k, i) && k !in {Kubectl, Cfssl}
    ensures var image, s := ChartImage(spec, k), spec.modules[i].image;
            && image.Some?
            && var r := ImageRef.Reference(image.value.registry, image.value.repository, image.value.tag);
               var colon := ImageRef.LastIndex(s, ':');
               && r == ImageRef.Parse(s)
               && (ImageRef.Print(r) == s <==> !(colon > 0 && colon == |s| - 1) && s[0] != '/')
               && image.value.pullPolicy ==
                  if Pinned(k) then "IfNotPresent" else LastPolicy(spec.modules, k, i, "")
  {
    LastImageWins(spec.modules, k, GroupImage(spec.images, k), i);
    ImageRef.PrintParse(spec.modules[i].image);
    ImageDefaultsAre(k, ConvertedImage(spec, k));
  }

  /** Without an explicit image the group default stays, with the last pull policy given. */
  lemma {:induction false} GroupDefaultStays(ms: seq<ModuleSpec>, k: ModuleName, g: Option<ImageValue>)
    requires forall j :: 0 <= j < |ms| && ms[j].name == k ==> ms[j].image == ""
    ensures ImageOf(ms, k, g) ==
              if g.None? then None else Some(g.value.(pullPolicy := LastPolicy(ms, k, 0, g.value.pullPolicy)))
  {
    if ms == [] {
    } else {
      GroupDefaultStays(ms[..|ms| - 1], k, g);
    }
  }

  /** The last entry of a module decides its replicas; etcd takes the last entry that has some. */
  lemma {:induction false} ReplicasAreLast(ms: seq<ModuleSpec>, k: ModuleName, i: nat)
    requires i < |ms| && ms[i].name == k
    ensures (forall j :: i < j < |ms| ==> ms[j].name != k) ==> ReplicasOf(ms, k) == ms[i].replicas
    ensures k == Etcd && ms[i].replicas.Some?
            && (forall j :: i < j < |ms| && ms[j].name == k ==> ms[j].replicas.None?) ==>
              EtcdReplicas(ms) == ms[i].replicas
  {
    if i == |ms| - 1 {
    } else {
      ReplicasAreLast(ms[..|ms| - 1], k, i);
    }
  }

  // ---- The chart of a specification ----

  /** The image of a module for which no entry names one, if its group has `registry` and `version`. */
  function GroupOnly(registry: string, version: string, policy: string): Option<ImageValue> {
    if registry == "" && version == "" then None else Some(ImageValue(registry, "", version, policy))
  }

  lemma GroupImageIs(images: Option<Images>, k: ModuleName)
    ensures var i := if images.Some? then images.value else Images("", "", "", "", "");
            GroupImage(images, k) ==
            match k
            case SchedulerEstimator | Descheduler | Search | Scheduler | Webhook | ControllerManager | Agent
              | AggregatedApiServer => GroupOnly(i.karmadaRegistry, i.karmadaVersion, "")
            case ApiServer | KubeControllerManager => GroupOnly(i.kubeRegistry, i.kubeVersion, "")
            case Etcd => GroupOnly(i.kubeRegistry, "", "")
            case Kubectl | Cfssl => GroupOnly(i.dockerIoRegistry, "", "")
            case OtherModule(_) => None
  {
  }

  /** Where no entry names an image, the registry and the version of the module's group reach the chart: the
      Karmada version for the Karmada modules, the Kubernetes version for API server and controller manager but
      not for etcd, no version for the two job images. */
  lemma GroupReachesChart(spec: Spec, k: ModuleName)
    requires forall j :: 0 <= j < |spec.modules| && spec.modules[j].name == k ==> spec.modules[j].image == ""
    ensures var i := if spec.images.Some? then spec.images.value else Images("", "", "", "", "");
            var policy := LastPolicy(spec.modules, k, 0, "");
            ChartImage(spec, k) ==
            match k
            case SchedulerEstimator | Descheduler | Search | Scheduler | Webhook | ControllerManager | Agent
              | AggregatedApiServer => Some(ImageValue(i.karmadaRegistry, "", i.karmadaVersion, "IfNotPresent"))
            case ApiServer | KubeControllerManager => GroupOnly(i.kubeRegistry, i.kubeVersion, policy)
            case Etcd => GroupOnly(i.kubeRegistry, "", policy)
            case Kubectl => Some(JobImage(i.dockerIoRegistry, "daocloud/kubectl", "v1.25.3"))
            case Cfssl => Some(JobImage(i.dockerIoRegistry, "daocloud/cfssl", "v1.6.3"))
            case OtherModule(_) => None
  {
    GroupImageIs(spec.images, k);
    var g := GroupImage(spec.images, k);
    GroupDefaultStays(spec.modules, k, g);
    assert ConvertedImage(spec, k) ==
           if g.None? then None else Some(g.value.(pullPolicy := LastPolicy(spec.modules, k, 0, "")));
    ImageDefaultsAre(k, ConvertedImage(spec, k));
  }

  function JobImage(registry: string, repository: string, tag: string): ImageValue {
    ImageValue(if registry == "" then "ghcr.io" else registry, repository, tag, "IfNotPresent")
  }

  /** The rest of the chart: etcd's storage, the service type and host network of the API server and of no other
      module, and the names the certificate is valid for. */
  lemma ChartShows(spec: Spec, v: ChartValues, external: seq<string>)
    requires IsChart(spec, v, external)
    ensures spec.etcd.Some? ==>
              && v.etcd.storageType == spec.etcd.value.storageMode
              && v.etcd.storageClass == spec.etcd.value.storageClass && v.etcd.size == spec.etcd.value.size
    ensures spec.etcd.None? ==> v.etcd.storageType == "" && v.etcd.storageClass == "" && v.etcd.size == ""
    ensures v.components == spec.components && Etcd !in v.modules && ApiServer in v.modules
    ensures v.modules[ApiServer].serviceType == spec.serviceType && v.modules[ApiServer].hostNetwork == Some(false)
    ensures forall k :: k in v.modules && k != ApiServer ==>
              v.modules[k].serviceType == "" && v.modules[k].hostNetwork == None
    ensures v.certHosts.Some? && |v.certHosts.value| == 6 + |external| && v.certHosts.value[6..] == external
    ensures {"localhost", "127.0.0.1", "kubernetes.default.svc", "*." + spec.namespace + ".svc",
             "*." + spec.namespace + ".svc.cluster.local", "*.etcd." + spec.namespace + ".svc.cluster.local"}
            == set h | h in v.certHosts.value[..6]
  {
    var hosts := v.certHosts.value;
    assert hosts[..6] == ["kubernetes.default.svc", "*.etcd." + spec.namespace + ".svc.cluster.local",
                          "*." + spec.namespace + ".svc.cluster.local", "*." + spec.namespace + ".svc",
                          "localhost", "127.0.0.1"];
  }
}
