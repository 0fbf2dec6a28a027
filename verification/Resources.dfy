/** The objects of the cluster and the values the JVB controller builds for them. */
module Resources {
  import opened Basics
  import opened Naming

  datatype Source =
    | Literal
    | SecretKey(name: string, key: string)
    | ConfigMapKey(name: string, key: string)
    | OtherSource

  datatype EnvVar = EnvVar(name: string, value: string, source: Source)

  datatype Exporter = Exporter(kind: string, image: string, port: int, configMap: string, environments: seq<EnvVar>)

  /** `image` stands for the record of pod details that the controller only copies. */
  datatype Spec = Spec(
    replicas: int,
    image: string,
    environments: seq<EnvVar>,
    exporter: Exporter,
    customSip: seq<string>,
    serviceAnnotations: map<string, string>,
    serviceType: string,
    protocol: string,
    port: int)

  /** Rendered text, kept as the template together with what it is rendered from. */
  datatype Text = ShutdownScript | SipOptions(options: seq<string>) | LoggingAt(level: string) | OtherText(text: string)

  datatype ConfigMap = ConfigMap(app: string, data: Text)

  /** `selector` is the value the Service asks of the label `jitsi-jvb`. */
  datatype Service = Service(
    annotations: map<string, string>,
    serviceType: string,
    portName: string,
    protocol: string,
    port: int,
    targetPort: int,
    selector: Name)

  datatype ExporterContainer =
    | Telegraf(image: string, environments: seq<EnvVar>)
    | Videobridge(image: string, port: int)

  datatype Pod = Pod(
    image: string,
    env: seq<EnvVar>,
    protocol: string,
    port: int,
    exporter: ExporterContainer,
    mounts: seq<Name>)

  datatype Deployment = Deployment(selector: Name, podLabel: Name, annotations: map<string, string>, pod: Pod)

  datatype Store = Store(
    deployments: map<Name, Deployment>,
    services: map<Name, Service>,
    configMaps: map<Name, ConfigMap>)

  /**
   What one reconcile works from: the spec, the replica count in the status, the metadata
   annotations, and the external address of each LoadBalancer Service.
   */
  datatype Plan = Plan(spec: Spec, annotations: map<string, string>, status: int, addresses: map<Name, string>)

  function BasePort(spec: Spec): int {
    if spec.port != 0 then spec.port else 10000
  }

  function PortOf(p: Plan, r: int): int {
    Wrap32(BasePort(p.spec) + r)
  }

  // ---- Replica indices ----

  /** Indices the scale-down loop visits: above the spec, up to the status, and never index 1 coming from above. */
  predicate Doomed(p: Plan, r: int) {
    p.spec.replicas < r <= p.status && (p.status >= 1 ==> r > 1)
  }

  predicate Wanted(p: Plan, r: int) {
    1 <= r <= p.spec.replicas
  }

  // ---- Environment lists ----

  predicate HasName(envs: seq<EnvVar>, name: string) {
    exists i :: 0 <= i < |envs| && envs[i].name == name
  }

  /** Value of the last entry with a name. */
  function LastValue(envs: seq<EnvVar>, name: string): Option<string> {
    if envs == [] then None
    else if envs[|envs| - 1].name == name then Some(envs[|envs| - 1].value)
    else LastValue(envs[..|envs| - 1], name)
  }

  function LoggingLevel(envs: seq<EnvVar>): string {
    match LastValue(envs, "LOGGING_LEVEL")
    case Some(v) => v
    case None => "INFO"
  }

  function Plain(name: string, value: string): EnvVar { EnvVar(name, value, Literal) }

  function HostAddress(p: Plan, r: int): EnvVar {
    Plain("DOCKER_HOST_ADDRESS",
          if p.spec.serviceType == "LoadBalancer" && Replica(r) in p.addresses then p.addresses[Replica(r)] else "")
  }

  /** Variables announcing the port of replica `r`. */
  function PortBlock(p: Plan, r: int): seq<EnvVar> {
    var port := Itoa(PortOf(p, r));
    if p.spec.protocol == "TCP" then
      [Plain("JVB_PORT", "30300"), Plain("JVB_TCP_PORT", port), Plain("JVB_TCP_MAPPED_PORT", port),
       Plain("TCP_HARVESTER_PORT", port), Plain("TCP_HARVESTER_MAPPED_PORT", port)]
    else
      [Plain("JVB_PORT", port)]
  }

  /** True when the controller adds a block to the list at all. */
  predicate WantsBlock(p: Plan, envs: seq<EnvVar>) {
    (p.spec.protocol == "TCP" || p.spec.protocol == "UDP") && !HasName(envs, "JVB_PORT")
  }

  function AddedVars(p: Plan, envs: seq<EnvVar>, r: int): seq<EnvVar> {
    (if HasName(envs, "DOCKER_HOST_ADDRESS") then [] else [HostAddress(p, r)]) + PortBlock(p, r)
  }

  function ExtendEnv(p: Plan, envs: seq<EnvVar>, r: int): seq<EnvVar> {
    if WantsBlock(p, envs) then envs + AddedVars(p, envs, r) else envs
  }

  // ---- Builders ----

  function ShutdownConfig(): ConfigMap { ConfigMap("jvb", ShutdownScript) }

  function SipConfig(p: Plan): ConfigMap { ConfigMap("jvb", SipOptions(p.spec.customSip)) }

  function LoggingConfig(envs: seq<EnvVar>): ConfigMap { ConfigMap("jvb", LoggingAt(LoggingLevel(envs))) }

  function InstanceService(p: Plan, r: int): Service {
    var port := PortOf(p, r);
    Service(p.spec.serviceAnnotations, p.spec.serviceType, "jvb", p.spec.protocol, port, port, Replica(r))
  }

  /** An existing Service keeps its selector; annotations, port and type are overwritten. */
  function Refreshed(current: Service, p: Plan, r: int): Service {
    InstanceService(p, r).(selector := current.selector)
  }

  function ExporterService(p: Plan, r: int): Service {
    Service(map[], "ClusterIP", "exporter", "TCP", p.spec.exporter.port, p.spec.exporter.port, Replica(r))
  }

  function ExporterSidecar(p: Plan): ExporterContainer {
    if p.spec.exporter.kind == "telegraf" then Telegraf(p.spec.exporter.image, p.spec.exporter.environments)
    else Videobridge(p.spec.exporter.image, p.spec.exporter.port)
  }

  function Mounts(p: Plan, r: int): seq<Name> {
    if p.spec.exporter.kind == "telegraf" then [ShutdownMap, SipOf(r), Foreign(p.spec.exporter.configMap), LoggingMap]
    else [ShutdownMap, SipOf(r), LoggingMap]
  }

  function PodFor(p: Plan, r: int, envs: seq<EnvVar>): Pod {
    Pod(p.spec.image, envs, p.spec.protocol, PortOf(p, r), ExporterSidecar(p), Mounts(p, r))
  }

  function Instance(p: Plan, r: int, envs: seq<EnvVar>): Deployment {
    Deployment(Replica(r), Replica(r), p.annotations, PodFor(p, r, envs))
  }

  // ---- Views of a store ----

  /** Everything a store holds for one replica index. */
  datatype Slot = Slot(dep: Option<Deployment>, svc: Option<Service>, exp: Option<Service>, sip: Option<ConfigMap>)

  function At(s: Store, r: int): Slot {
    Slot(Find(s.deployments, Replica(r)), Find(s.services, Replica(r)),
         Find(s.services, ExporterOf(r)), Find(s.configMaps, SipOf(r)))
  }

  predicate Has(s: Store, r: int) {
    Replica(r) in s.deployments
  }

  /** The objects outside every slot, and the two shared ConfigMaps, agree. */
  ghost predicate SameForeign(s: Store, t: Store) {
    && (forall n: Name :: !n.Replica? ==> Find(s.deployments, n) == Find(t.deployments, n))
    && (forall n: Name :: !n.Replica? && !n.ExporterOf? ==> Find(s.services, n) == Find(t.services, n))
    && (forall n: Name :: !n.SipOf? && n != ShutdownMap && n != LoggingMap ==>
          Find(s.configMaps, n) == Find(t.configMaps, n))
  }

  ghost predicate SameShared(s: Store, t: Store) {
    && Find(s.configMaps, ShutdownMap) == Find(t.configMaps, ShutdownMap)
    && Find(s.configMaps, LoggingMap) == Find(t.configMaps, LoggingMap)
  }

  lemma MapExtensionality<K, V>(m: map<K, V>, m': map<K, V>)
    requires forall k :: Find(m, k) == Find(m', k)
    ensures m == m'
  {
    forall k ensures k in m <==> k in m'
      ensures k in m ==> m[k] == m'[k]
    {
      assert Find(m, k) == Find(m', k);
    }
  }

  /** A store is determined by its slots, the shared ConfigMaps and the rest. */
  lemma StoreExtensionality(s: Store, t: Store)
    requires forall r :: At(s, r) == At(t, r)
    requires SameForeign(s, t) && SameShared(s, t)
    ensures s == t
  {
    forall n: Name
      ensures Find(s.deployments, n) == Find(t.deployments, n)
      ensures Find(s.services, n) == Find(t.services, n)
      ensures Find(s.configMaps, n) == Find(t.configMaps, n)
    {
      if n.Replica? || n.ExporterOf? || n.SipOf? { assert At(s, n.index) == At(t, n.index); }
    }
    MapExtensionality(s.deployments, t.deployments);
    MapExtensionality(s.services, t.services);
    MapExtensionality(s.configMaps, t.configMaps);
  }
}
