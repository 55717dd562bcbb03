/** Composing the chart values in its imperative form: maps of shared, mutable Image objects filled
    by loops, merged in arbitrary order, and defaulted in place. Proved equal to ValuesSpec. */
module ValuesComposer {
  import opened Api
  import opened ValuesSpec
  import ImageRef

  class Image {
    var registry: string
    var repository: string
    var tag: string
    var pullPolicy: string

    constructor (registry: string, repository: string, tag: string, pullPolicy: string)
      ensures Value() == ImageValue(registry, repository, tag, pullPolicy)
    {
      this.registry, this.repository, this.tag, this.pullPolicy := registry, repository, tag, pullPolicy;
    }

    function Value(): ImageValue
      reads this
    {
      ImageValue(registry, repository, tag, pullPolicy)
    }

    method Fill(registry: string, repository: string, tag: string)
      modifies this
      ensures Value() == FillImage(Some(old(Value())), registry, repository, tag)
    {
      if this.registry == "" {
        this.registry := registry;
      }
      if this.repository == "" {
        this.repository := repository;
      }
      if this.tag == "" {
        this.tag := tag;
      }
    }
  }

  type ImageMap = map<ModuleName, Image>

  /** The contents of an image map. */
  ghost function View(m: ImageMap): map<ModuleName, ImageValue>
    reads m.Values
  {
    map k | k in m :: m[k].Value()
  }

  /** Distinct modules have distinct Image objects. */
  ghost predicate Apart(m: ImageMap) {
    forall j, k :: j in m && k in m && j != k ==> m[j] != m[k]
  }

  ghost predicate Holds(m: map<ModuleName, ImageValue>, ms: seq<ModuleSpec>, images: Option<Images>) {
    forall k :: Look(m, k) == ImageOf(ms, k, GroupImage(images, k))
  }

  ghost function Look<K, V>(m: map<K, V>, k: K): Option<V> {
    if k in m then Some(m[k]) else None
  }

  lemma PutKeepsApart(m: ImageMap, k: ModuleName, image: Image)
    requires Apart(m) && image !in m.Values
    ensures Apart(m[k := image])
    ensures View(m[k := image]) == View(m)[k := image.Value()]
    ensures m[k := image].Values <= m.Values + {image}
  {
  }

  // ---- Image defaults of the three groups ----

  function GroupValue(k: ModuleName, registry: string, version: string): Option<ImageValue> {
    NonEmpty(ImageValue(registry, "", if k == Etcd then "" else version, ""))
  }

  /** `after` is `before` with the image of one group put on each of `names`. */
  ghost predicate Adds(before: map<ModuleName, ImageValue>, after: map<ModuleName, ImageValue>,
                       names: seq<ModuleName>, registry: string, version: string)
  {
    forall k :: Look(after, k) == var g := GroupValue(k, registry, version);
                                  if k in names && g.Some? then g else Look(before, k)
  }

  lemma AddsOne(before: map<ModuleName, ImageValue>, was: map<ModuleName, ImageValue>,
                after: map<ModuleName, ImageValue>, names: seq<ModuleName>, n: nat, registry: string, version: string)
    requires n < |names| && Adds(before, was, names[..n], registry, version)
    requires var g := GroupValue(names[n], registry, version);
             after == if g.Some? then was[names[n] := g.value] else was
    ensures Adds(before, after, names[..n + 1], registry, version)
  {
    assert names[..n + 1] == names[..n] + [names[n]];
  }

  /** One of the three group loops: an image that stays empty is not recorded, and etcd takes no tag. */
  method AddGroup(before: ImageMap, names: seq<ModuleName>, registry: string, version: string) returns (m: ImageMap)
    requires Apart(before)
    ensures Apart(m)
    ensures forall i :: i in m.Values ==> i in before.Values || fresh(i)
    ensures Adds(old(View(before)), View(m), names, registry, version)
  {
    m := before;
    for n := 0 to |names|
      invariant Apart(m)
      invariant forall i :: i in m.Values ==> i in before.Values || fresh(i)
      invariant Adds(old(View(before)), View(m), names[..n], registry, version)
    {
      var k := names[n];
      ghost var was := View(m);
      var image := new Image(registry, "", if k == Etcd then "" else version, "");
      if !IsEmpty(image.Value()) {
        PutKeepsApart(m, k, image);
        m := m[k := image];
      }
      AddsOne(old(View(before)), was, View(m), names, n, registry, version);
    }
    assert names[..|names|] == names;
  }

  lemma GroupsAreDisjoint(k: ModuleName)
    ensures k in KARMADA ==> k !in KUBERNATES && k !in DOCKER_IO && k != Etcd
    ensures k in KUBERNATES ==> k !in DOCKER_IO
    ensures k in DOCKER_IO ==> k != Etcd
  {
  }

  lemma GroupsHold(images: Images, m0: map<ModuleName, ImageValue>, m1: map<ModuleName, ImageValue>,
                   m2: map<ModuleName, ImageValue>)
    requires Adds(map[], m0, KARMADA, images.karmadaRegistry, images.karmadaVersion)
    requires Adds(m0, m1, KUBERNATES, images.kubeRegistry, images.kubeVersion)
    requires Adds(m1, m2, DOCKER_IO, images.dockerIoRegistry, "")
    ensures Holds(m2, [], Some(images))
  {
    forall k ensures Look(m2, k) == GroupImage(Some(images), k) {
      GroupsAreDisjoint(k);
    }
  }

  method GroupImages(images: Option<Images>) returns (m: ImageMap)
    ensures Apart(m) && Holds(View(m), [], images) && fresh(m.Values)
  {
    m := map[];
    if images.Some? {
      var i := images.value;
      m := AddGroup(m, KARMADA, i.karmadaRegistry, i.karmadaVersion);
      ghost var m0 := View(m);
      m := AddGroup(m, KUBERNATES, i.kubeRegistry, i.kubeVersion);
      ghost var m1 := View(m);
      m := AddGroup(m, DOCKER_IO, i.dockerIoRegistry, "");
      GroupsHold(i, m0, m1, View(m));
    }
  }

  // ---- Module entries ----

  ghost predicate Overrides(before: map<ModuleName, ImageValue>, after: map<ModuleName, ImageValue>, e: ModuleSpec) {
    forall k :: Look(after, k) == if k == e.name then Override(e, Look(before, k)) else Look(before, k)
  }

  lemma HoldsOne(before: map<ModuleName, ImageValue>, after: map<ModuleName, ImageValue>,
                 ms: seq<ModuleSpec>, n: nat, images: Option<Images>)
    requires n < |ms| && Holds(before, ms[..n], images) && Overrides(before, after, ms[n])
    ensures Holds(after, ms[..n + 1], images)
  {
    var now := ms[..n + 1];
    assert now[..|now| - 1] == ms[..n] && now[|now| - 1] == ms[n];
  }

  /** The image part of one list entry: an explicit image replaces the object recorded for the module,
      a pull policy is written into the recorded object. */
  method ReadImage(before: ImageMap, e: ModuleSpec) returns (panicked: bool, m: ImageMap)
    requires Apart(before)
    modifies before.Values
    ensures panicked <==> e.pullPolicy != "" && e.image == "" && e.name !in before
    ensures panicked ==> forall i :: i in before.Values ==> unchanged(i)
    ensures Apart(m) && forall i :: i in m.Values ==> i in before.Values || fresh(i)
    ensures !panicked ==> Overrides(old(View(before)), View(m), e)
  {
    panicked, m := false, before;
    if e.image != "" {
      var r := ImageRef.Parse(e.image);
      var image := new Image(r.registry, r.repository, r.tag, "");
      PutKeepsApart(m, e.name, image);
      m := m[e.name := image];
    }
    if e.pullPolicy != "" {
      if e.name !in m {
        return true, before;
      }
      ghost var was := View(m);
      m[e.name].pullPolicy := e.pullPolicy;
      assert View(m) == was[e.name := was[e.name].(pullPolicy := e.pullPolicy)];
    }
  }

  // ---- The values ----

  datatype Module = Module(replicas: Option<int>, image: Image?, hostNetwork: Option<bool>, serviceType: string) {
    ghost function Now(): ModuleValue
      reads image
    {
      ModuleValue(replicas, if image == null then None else Some(image.Value()), hostNetwork, serviceType)
    }
  }

  datatype EtcdModule = EtcdModule(
    replicas: Option<int>, image: Image?, storageType: string, storageClass: string, size: string)

  ghost function Contents(objects: set<Image>): map<Image, ImageValue>
    reads objects
  {
    map i | i in objects :: i.Value()
  }

  ghost function ImageAt(i: Image?, c: map<Image, ImageValue>): Option<ImageValue> {
    if i != null && i in c then Some(c[i]) else None
  }

  ghost function ModuleAt(m: Module, c: map<Image, ImageValue>): ModuleValue {
    ModuleValue(m.replicas, ImageAt(m.image, c), m.hostNetwork, m.serviceType)
  }

  ghost function EtcdAt(m: EtcdModule, c: map<Image, ImageValue>): EtcdValue {
    EtcdValue(m.replicas, ImageAt(m.image, c), m.storageType, m.storageClass, m.size)
  }

  ghost function ModulesAt(modules: map<ModuleName, Module>, c: map<Image, ImageValue>): map<ModuleName, ModuleValue> {
    map k | k in modules :: ModuleAt(modules[k], c)
  }

  /** What reading the module list leaves: a module for every name but etcd, with the last entry's replicas. */
  ghost predicate Listed(modules: map<ModuleName, Module>, ms: seq<ModuleSpec>) {
    forall k :: Look(modules, k) ==
                if k != Etcd && Named(ms, k) then Some(Module(ReplicasOf(ms, k), null, None, "")) else None
  }

  ghost function Listing(modules: map<ModuleName, Module>, e: ModuleSpec): map<ModuleName, Module> {
    if e.name == Etcd then modules else modules[e.name := Module(e.replicas, null, None, "")]
  }

  lemma PanicsWhen(before: map<ModuleName, ImageValue>, ms: seq<ModuleSpec>, n: nat, images: Option<Images>)
    requires n < |ms| && Holds(before, ms[..n], images)
    ensures PanicsAt(ms, images, n) <==> ms[n].pullPolicy != "" && ms[n].image == "" && ms[n].name !in before
  {
    var k, g := ms[n].name, GroupImage(images, ms[n].name);
    assert Look(before, k) == ImageOf(ms[..n], k, g);
    ImageIsMissing(ms[..n], k, g);
    assert forall j :: 0 <= j < n ==> ms[..n][j] == ms[j];
  }

  lemma ListedOne(modules: map<ModuleName, Module>, ms: seq<ModuleSpec>, n: nat)
    requires n < |ms| && Listed(modules, ms[..n])
    ensures Listed(Listing(modules, ms[n]), ms[..n + 1])
    ensures EtcdReplicas(ms[..n + 1]) ==
            if ms[n].name == Etcd && ms[n].replicas.Some? then ms[n].replicas else EtcdReplicas(ms[..n])
  {
    var now, e := ms[..n + 1], ms[n];
    assert now[..|now| - 1] == ms[..n] && now[|now| - 1] == e;
    forall k ensures Named(now, k) <==> k == e.name || Named(ms[..n], k) {
      if Named(ms[..n], k) {
        var i :| 0 <= i < n && ms[..n][i].name == k;
        assert now[i].name == k;
      }
      if k == e.name {
        assert now[n].name == k;
      }
    }
  }

  ghost function Serving(modules: map<ModuleName, Module>, serviceType: string): map<ModuleName, Module> {
    if serviceType == "" then modules
    else modules[ApiServer :=
      (if ApiServer in modules then modules[ApiServer] else Module(None, null, None, "")).(serviceType := serviceType)]
  }

  ghost function Of(i: Image?): set<Image> {
    if i == null then {} else {i}
  }

  /** No two modules, etcd included, share an image object; all of them are in `repr`. */
  ghost predicate AllSeparate(modules: map<ModuleName, Module>, etcd: EtcdModule, repr: set<Image>) {
    && (forall k :: k in modules && modules[k].image != null ==>
          modules[k].image in repr && modules[k].image != etcd.image)
    && (forall j, k :: j in modules && k in modules && j != k && modules[j].image != null ==>
          modules[j].image != modules[k].image)
    && (etcd.image != null ==> etcd.image in repr)
    && Etcd !in modules
  }

  /** A module may keep its image object or take a new one. */
  lemma PutKeepsSeparate(modules: map<ModuleName, Module>, etcd: EtcdModule, repr: set<Image>,
                         k: ModuleName, entry: Module)
    requires AllSeparate(modules, etcd, repr) && k != Etcd
    requires entry.image == null || (k in modules && entry.image == modules[k].image) || entry.image !in repr
    ensures AllSeparate(modules[k := entry], etcd, repr + Of(entry.image))
  {
  }

  /** Replacing the entry of one module, and the contents of its image object, changes that module alone. */
  lemma PutChangesOne(modules: map<ModuleName, Module>, etcd: EtcdModule, repr: set<Image>,
                      k: ModuleName, entry: Module,
                      before: map<Image, ImageValue>, after: map<Image, ImageValue>)
    requires AllSeparate(modules, etcd, repr) && k != Etcd && before.Keys == repr
    requires entry.image == null || (k in modules && entry.image == modules[k].image) || entry.image !in repr
    requires repr <= after.Keys && forall i :: i in repr && i != entry.image ==> after[i] == before[i]
    ensures ModulesAt(modules[k := entry], after) == ModulesAt(modules, before)[k := ModuleAt(entry, after)]
    ensures EtcdAt(etcd, after) == EtcdAt(etcd, before)
  {
  }

  class Values {
    var modules: map<ModuleName, Module>
    var etcd: EtcdModule
    var components: seq<string>
    var certHosts: Option<seq<string>>
    ghost var Repr: set<Image>

    constructor ()
      ensures Separate() && Repr == {}
      ensures modules == map[] && etcd == EtcdModule(None, null, "", "", "") && components == [] && certHosts == None
    {
      modules, etcd, components, certHosts := map[], EtcdModule(None, null, "", "", ""), [], None;
      Repr := {};
    }

    ghost predicate Separate()
      reads this
    {
      AllSeparate(modules, etcd, Repr)
    }

    /** The contents of the values. */
    ghost function Chart(): ChartValues
      reads this, Repr
    {
      var c := Contents(Repr);
      ChartValues(ModulesAt(modules, c), EtcdAt(etcd, c), components, certHosts)
    }

    /** One entry of the module list. */
    method ReadEntry(e: ModuleSpec, before: ImageMap) returns (panicked: bool, m: ImageMap)
      requires Apart(before)
      modifies this`modules, this`etcd, before.Values
      ensures panicked <==> e.pullPolicy != "" && e.image == "" && e.name !in before
      ensures Apart(m) && forall i :: i in m.Values ==> i in before.Values || fresh(i)
      ensures !panicked ==> Overrides(old(View(before)), View(m), e)
      ensures !panicked ==> modules == Listing(old(modules), e) && etcd == old(etcd).(replicas := etcd.replicas)
      ensures !panicked ==>
                etcd.replicas == if e.name == Etcd && e.replicas.Some? then e.replicas else old(etcd.replicas)
    {
      var entry := Module(None, null, None, "");
      if e.name == Etcd && e.replicas.Some? {
        etcd := etcd.(replicas := e.replicas);
      } else if e.replicas.Some? {
        entry := entry.(replicas := e.replicas);
      }
      panicked, m := ReadImage(before, e);
      if panicked {
        return;
      }
      if e.name != Etcd {
        modules := modules[e.name := entry];
      }
    }

    /** The loop over the module list. */
    method ReadModules(ms: seq<ModuleSpec>, before: ImageMap, ghost images: Option<Images>)
      returns (panicked: bool, m: ImageMap)
      requires Apart(before) && Holds(View(before), [], images)
      requires modules == map[] && etcd.replicas == None
      modifies this`modules, this`etcd, before.Values
      ensures panicked <==> Panics(ms, images)
      ensures !panicked ==> Apart(m) && Holds(View(m), ms, images)
      ensures forall i :: i in m.Values ==> i in before.Values || fresh(i)
      ensures !panicked ==> Listed(modules, ms) && etcd == old(etcd).(replicas := EtcdReplicas(ms))
    {
      panicked, m := false, before;
      assert ms[..0] == [];
      for n := 0 to |ms|
        invariant !panicked && forall i :: 0 <= i < n ==> !PanicsAt(ms, images, i)
        invariant Apart(m) && Holds(View(m), ms[..n], images)
        invariant forall i :: i in m.Values ==> i in before.Values || fresh(i)
        invariant Listed(modules, ms[..n]) && etcd == old(etcd).(replicas := EtcdReplicas(ms[..n]))
      {
        ghost var was := View(m);
        PanicsWhen(was, ms, n, images);
        ListedOne(modules, ms, n);
        panicked, m := ReadEntry(ms[n], m);
        if panicked {
          return;
        }
        HoldsOne(was, View(m), ms, n, images);
      }
      assert ms[..|ms|] == ms;
    }

    method SetServiceType(serviceType: string)
      modifies this`modules
      ensures modules == Serving(old(modules), serviceType)
    {
      if serviceType != "" {
        var apiServer := Module(None, null, None, "");
        if ApiServer in modules {
          apiServer := modules[ApiServer];
        }
        modules := modules[ApiServer := apiServer.(serviceType := serviceType)];
      }
    }

    /** The loop over the image map, whose iteration order is arbitrary. */
    method MergeImages(m: ImageMap)
      modifies this`modules, this`etcd
      ensures Merged(old(modules), modules, m)
      ensures etcd == old(etcd).(image := if Etcd in m then m[Etcd] else old(etcd.image))
    {
      var todo := m.Keys;
      while todo != {}
        invariant todo <= m.Keys
        invariant Merged(old(modules), modules, map k | k in m && k !in todo :: m[k])
        invariant etcd == old(etcd).(image := if Etcd in m && Etcd !in todo then m[Etcd] else old(etcd.image))
        decreases |todo|
      {
        var k :| k in todo;
        MergedOne(old(modules), modules, m, todo, k);
        todo := todo - {k};
        if k == Etcd {
          etcd := etcd.(image := m[k]);
        } else if k in modules {
          modules := modules[k := modules[k].(image := m[k])];
        } else {
          modules := modules[k := Module(None, m[k], None, "")];
        }
      }
      assert m == map k | k in m && k !in todo :: m[k];
    }

    // -- Chart defaults, in place --

    method Put(k: ModuleName, entry: Module, ghost before: map<Image, ImageValue>)
      requires Separate() && k != Etcd && before.Keys == Repr
      requires entry.image == null || (k in modules && entry.image == modules[k].image) || entry.image !in Repr
      requires forall i :: i in Repr && i != entry.image ==> i.Value() == before[i]
      modifies this`modules, this`Repr
      ensures Separate() && Repr == old(Repr) + Of(entry.image)
      ensures var v := ChartValues(ModulesAt(old(modules), before), EtcdAt(etcd, before), components, certHosts);
              Chart() == Updated(v, k, entry.Now())
    {
      PutKeepsSeparate(modules, etcd, Repr, k, entry);
      ghost var after := Contents(Repr + Of(entry.image));
      assert entry.Now() == ModuleAt(entry, after);
      PutChangesOne(modules, etcd, Repr, k, entry, before, after);
      modules := modules[k := entry];
      Repr := Repr + Of(entry.image);
      assert Contents(Repr) == after;
    }

    method SetHostNetwork()
      requires Separate()
      modifies this`modules, this`Repr
      ensures Separate() && Repr == old(Repr)
      ensures Chart() == Hosted(old(Chart()))
    {
      var apiServer := if ApiServer in modules then modules[ApiServer] else Module(None, null, None, "");
      Put(ApiServer, apiServer.(hostNetwork := Some(false)), old(Contents(Repr)));
    }

    /** Complete the image of a module, in the object it already has if there is one. */
    method FillModule(k: ModuleName, registry: string, repository: string, tag: string)
      requires Separate() && k != Etcd
      modifies this`modules, this`Repr, Repr
      ensures Separate() && forall i :: i in Repr ==> i in old(Repr) || fresh(i)
      ensures Chart() == Filled(old(Chart()), k, registry, repository, tag)
    {
      ghost var before := Contents(Repr);
      var entry := if k in modules then modules[k] else Module(None, null, None, "");
      if entry.image == null {
        var image := new Image(registry, repository, tag, "");
        entry := entry.(image := image);
      } else {
        entry.image.Fill(registry, repository, tag);
      }
      Put(k, entry, before);
    }

    method PinModule(k: ModuleName)
      requires Separate() && k != Etcd
      modifies this`modules, this`Repr, Repr
      ensures Separate() && forall i :: i in Repr ==> i in old(Repr) || fresh(i)
      ensures var x := ModuleIn(old(Chart()), k);
              Chart() == Updated(old(Chart()), k, x.(image := Some(PolicyImage(x.image))))
    {
      ghost var before := Contents(Repr);
      var entry := if k in modules then modules[k] else Module(None, null, None, "");
      if entry.image == null {
        var image := new Image("", "", "", IF_NOT_PRESENT);
        entry := entry.(image := image);
      } else {
        entry.image.pullPolicy := IF_NOT_PRESENT;
      }
      Put(k, entry, before);
    }

    method FillModules()
      requires Separate()
      modifies this`modules, this`Repr, Repr
      ensures Separate() && forall i :: i in Repr ==> i in old(Repr) || fresh(i)
      ensures Chart() == FilledBoth(old(Chart()))
    {
      FillModule(Kubectl, DEFAULT_REGISTRY, KUBECTL_REPOSITORY, KUBECTL_TAG);
      FillModule(Cfssl, DEFAULT_REGISTRY, CFSSL_REPOSITORY, CFSSL_TAG);
    }

    method PinModules()
      requires Separate()
      modifies this`modules, this`Repr, Repr
      ensures Separate() && forall i :: i in Repr ==> i in old(Repr) || fresh(i)
      ensures PinsAll(old(Chart()), Chart())
    {
      var names := KARMADA + DOCKER_IO;
      NoEtcd();
      for n := 0 to |names|
        invariant Separate() && forall i :: i in Repr ==> i in old(Repr) || fresh(i)
        invariant Pins(old(Chart()), Chart(), names[..n])
      {
        PinsOne(old(Chart()), Chart(), names, n);
        PinModule(names[n]);
      }
      assert names[..|names|] == names;
    }

    method SetCert(namespace: string, external: seq<string>)
      requires Separate()
      modifies this`certHosts
      ensures Chart() == old(Chart()).(certHosts := Some(CertHosts(namespace, external)))
    {
      certHosts := Some(CertHosts(namespace, external));
    }

    /** The second pass over the values: in place, in the objects the values own. */
    method SetDefaults(namespace: string, external: seq<string>)
      requires Separate()
      modifies this, Repr
      ensures Separate() && forall i :: i in Repr ==> i in old(Repr) || fresh(i)
      ensures IsDefaulted(old(Chart()), Chart(), namespace, external)
    {
      SetHostNetwork();
      FillModules();
      ghost var v := Chart();
      PinModules();
      ghost var pinned := Chart();
      SetCert(namespace, external);
      StagesDefault(old(Chart()), v, pinned, Chart(), namespace, external);
    }
  }

  function Hosted(v: ChartValues): ChartValues {
    Updated(v, ApiServer, ModuleIn(v, ApiServer).(hostNetwork := Some(false)))
  }

  function Filled(v: ChartValues, k: ModuleName, registry: string, repository: string, tag: string): ChartValues {
    var x := ModuleIn(v, k);
    Updated(v, k, x.(image := Some(FillImage(x.image, registry, repository, tag))))
  }

  /** The two job images are filled one after the other. */
  function FilledBoth(v: ChartValues): ChartValues {
    Filled(Filled(v, Kubectl, DEFAULT_REGISTRY, KUBECTL_REPOSITORY, KUBECTL_TAG),
           Cfssl, DEFAULT_REGISTRY, CFSSL_REPOSITORY, CFSSL_TAG)
  }

  ghost predicate Pins(before: ChartValues, after: ChartValues, names: seq<ModuleName>) {
    && after == before.(modules := after.modules)
    && forall k :: Look(after.modules, k) ==
                   if k in names then var x := ModuleIn(before, k); Some(x.(image := Some(PolicyImage(x.image))))
                   else Look(before.modules, k)
  }

  ghost predicate PinsAll(before: ChartValues, after: ChartValues) {
    Pins(before, after, KARMADA + DOCKER_IO)
  }

  lemma PinsOne(before: ChartValues, after: ChartValues, names: seq<ModuleName>, n: nat)
    requires n < |names| && Pins(before, after, names[..n])
    ensures var k := names[n]; var x := ModuleIn(after, k);
            Pins(before, Updated(after, k, x.(image := Some(PolicyImage(x.image)))), names[..n + 1])
  {
    assert names[..n + 1] == names[..n] + [names[n]];
    var k := names[n];
    assert Look(after.modules, k) ==
           if k in names[..n] then var x := ModuleIn(before, k); Some(x.(image := Some(PolicyImage(x.image))))
           else Look(before.modules, k);
  }

  lemma NamesArePinned(k: ModuleName)
    ensures k in KARMADA + DOCKER_IO <==> Pinned(k)
  {
  }

  lemma NoEtcd()
    ensures Etcd !in KARMADA + DOCKER_IO
  {
  }

  lemma StagesDefault(v0: ChartValues, v3: ChartValues, v4: ChartValues, v5: ChartValues,
                      namespace: string, external: seq<string>)
    requires v3 == FilledBoth(Hosted(v0))
    requires PinsAll(v3, v4)
    requires v5 == v4.(certHosts := Some(CertHosts(namespace, external)))
    ensures IsDefaulted(v0, v5, namespace, external)
  {
    forall k
      ensures k in v5.modules <==> k in v0.modules || k == ApiServer || Pinned(k)
      ensures k in v5.modules ==> v5.modules[k] == DefaultedModule(k, ModuleIn(v0, k))
    {
      NamesArePinned(k);
      assert Look(v4.modules, k) ==
             if k in KARMADA + DOCKER_IO then var x := ModuleIn(v3, k); Some(x.(image := Some(PolicyImage(x.image))))
             else Look(v3.modules, k);
    }
  }

  function Updated(v: ChartValues, k: ModuleName, x: ModuleValue): ChartValues {
    v.(modules := v.modules[k := x])
  }

  ghost function MergeOne(x: Option<Module>, i: Option<Image>): Option<Module> {
    if i.None? then x
    else Some((if x.Some? then x.value else Module(None, null, None, "")).(image := i.value))
  }

  /** Every module but etcd has taken its image from `m`. */
  ghost predicate Merged(before: map<ModuleName, Module>, after: map<ModuleName, Module>, m: ImageMap) {
    forall k :: Look(after, k) == MergeOne(Look(before, k), if k == Etcd then None else Look(m, k))
  }

  lemma MergedOne(before: map<ModuleName, Module>, after: map<ModuleName, Module>, m: ImageMap,
                  todo: set<ModuleName>, k: ModuleName)
    requires k in todo && todo <= m.Keys
    requires Merged(before, after, map j | j in m && j !in todo :: m[j])
    ensures Merged(before, if k == Etcd then after else after[k := MergeOne(Look(after, k), Some(m[k])).value],
                   map j | j in m && j !in todo - {k} :: m[j])
  {
    var was, now := (map j | j in m && j !in todo :: m[j]), (map j | j in m && j !in todo - {k} :: m[j]);
    assert now == was[k := m[k]];
  }

  // ---- Converting ----

  /** What module `k` ends up as, the image objects being those of `m`. */
  ghost function Assembled(spec: Spec, m: ImageMap, k: ModuleName): Option<Module> {
    var serving := k == ApiServer && spec.serviceType != "";
    if k != Etcd && (Named(spec.modules, k) || k in m || serving) then
      Some(Module(ReplicasOf(spec.modules, k), if k in m then m[k] else null, None,
                  if serving then spec.serviceType else ""))
    else None
  }

  lemma StagesAssemble(spec: Spec, listed: map<ModuleName, Module>, merged: map<ModuleName, Module>, m: ImageMap,
                       k: ModuleName)
    requires Listed(listed, spec.modules) && Merged(listed, merged, m)
    ensures Look(Serving(merged, spec.serviceType), k) == Assembled(spec, m, k)
  {
    if !Named(spec.modules, k) {
      UnnamedKeepsDefaults(spec.modules, k, None);
    }
    assert Look(listed, k) ==
           if k != Etcd && Named(spec.modules, k) then Some(Module(ReplicasOf(spec.modules, k), null, None, ""))
           else None;
    assert Look(merged, k) == MergeOne(Look(listed, k), if k == Etcd then None else Look(m, k));
  }

  lemma StagesAssembleAll(spec: Spec, listed: map<ModuleName, Module>, merged: map<ModuleName, Module>, m: ImageMap)
    requires Listed(listed, spec.modules) && Merged(listed, merged, m)
    ensures forall k :: Look(Serving(merged, spec.serviceType), k) == Assembled(spec, m, k)
  {
    forall k ensures Look(Serving(merged, spec.serviceType), k) == Assembled(spec, m, k) {
      StagesAssemble(spec, listed, merged, m, k);
    }
  }

  lemma AssembledAt(spec: Spec, m: ImageMap, k: ModuleName)
    requires Holds(View(m), spec.modules, spec.images)
    ensures var r := Assembled(spec, m, k);
            && (r.Some? <==> HasModule(spec, k))
            && (r.Some? ==> ModuleAt(r.value, Contents(m.Values)) == ConvertedModule(spec, k))
  {
    assert Look(View(m), k) == ConvertedImage(spec, k);
  }

  lemma AssembledIsSeparate(spec: Spec, v: Values, m: ImageMap)
    requires Apart(m) && forall k :: Look(v.modules, k) == Assembled(spec, m, k)
    requires v.etcd.image == if Etcd in m then m[Etcd] else null
    ensures AllSeparate(v.modules, v.etcd, m.Values)
  {
    forall k | k in v.modules ensures k != Etcd && v.modules[k].image == if k in m then m[k] else null {
      assert Look(v.modules, k) == Assembled(spec, m, k);
    }
  }

  lemma AssembledIsConverted(spec: Spec, v: Values, m: ImageMap)
    requires Holds(View(m), spec.modules, spec.images)
    requires forall k :: Look(v.modules, k) == Assembled(spec, m, k)
    requires v.etcd.image == (if Etcd in m then m[Etcd] else null) && v.etcd.replicas == EtcdReplicas(spec.modules)
    requires var e := if spec.etcd.Some? then spec.etcd.value else EtcdSpec("", "", "");
             v.etcd.storageType == e.storageMode && v.etcd.storageClass == e.storageClass && v.etcd.size == e.size
    requires v.components == spec.components && v.certHosts == None
    requires v.Repr == m.Values
    ensures IsConverted(spec, v.Chart())
  {
    forall k
      ensures k in v.modules <==> HasModule(spec, k)
      ensures k in v.modules ==> ModuleAt(v.modules[k], Contents(m.Values)) == ConvertedModule(spec, k)
    {
      AssembledAt(spec, m, k);
      assert Look(v.modules, k) == Assembled(spec, m, k);
    }
    assert Look(View(m), Etcd) == ConvertedImage(spec, Etcd);
  }

  /** The chart values of a KarmadaDeployment, as new objects; the nil dereference is a result. */
  method Convert(spec: Spec) returns (panicked: bool, v: Values)
    ensures panicked <==> Panics(spec.modules, spec.images)
    ensures fresh(v) && (!panicked ==> v.Separate() && fresh(v.Repr) && IsConverted(spec, v.Chart()))
  {
    v := new Values();
    if spec.etcd.Some? {
      var e := spec.etcd.value;
      v.etcd := v.etcd.(storageType := e.storageMode, storageClass := e.storageClass, size := e.size);
    }
    var m := GroupImages(spec.images);
    panicked, m := v.ReadModules(spec.modules, m, spec.images);
    if panicked {
      return;
    }
    ghost var listed := v.modules;
    v.MergeImages(m);
    ghost var merged := v.modules;
    v.components := spec.components;
    v.SetServiceType(spec.serviceType);
    StagesAssembleAll(spec, listed, merged, m);
    AssembledIsSeparate(spec, v, m);
    v.Repr := m.Values;
    AssembledIsConverted(spec, v, m);
  }

  /** Both passes, as the preflight phase runs them. */
  method Compose(spec: Spec, external: seq<string>) returns (panicked: bool, v: Values)
    ensures panicked <==> Panics(spec.modules, spec.images)
    ensures fresh(v) && (!panicked ==> v.Separate() && IsChart(spec, v.Chart(), external))
  {
    panicked, v := Convert(spec);
    if !panicked {
      ghost var converted := v.Chart();
      v.SetDefaults(spec.namespace, external);
      BothPasses(spec, converted, v.Chart(), external);
    }
  }
}
