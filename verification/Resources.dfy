/** The objects the metrics-resources controller owns, what it wants of them, and its watch filter. */
module Resources {
  import opened Collections

  datatype Kind = Service | Secret | ServiceMonitor

  datatype ObjKey = ObjKey(kind: Kind, namespace: string, name: string)

  datatype Config = Config(namespace: string, serviceAccount: string, port: int, secure: bool)

  datatype ServicePort = ServicePort(name: string, port: int, targetPort: int, protocol: string)

  datatype Endpoint = Endpoint(
    port: string, tokenSecret: string, tokenKey: string,
    scheme: string, insecureSkipVerify: Option<bool>, other: map<string, string>)

  datatype MonitorSpec = MonitorSpec(matchLabels: map<string, string>, endpoints: seq<Endpoint>, other: map<string, string>)

  /** `rest` is everything the controller never writes to an existing object: type, data,
      cluster IP, a Service's annotations, and so on. Nil and empty maps are one value, as
      semantic equality has it. */
  datatype Object =
    | ServiceObject(labels: map<string, string>, ports: seq<ServicePort>, selector: map<string, string>, rest: map<string, string>)
    | SecretObject(labels: map<string, string>, annotations: map<string, string>, rest: map<string, string>)
    | MonitorObject(labels: map<string, string>, spec: MonitorSpec, rest: map<string, string>)

  const CONTROLLER_NAME := "virt-observability-controller"
  const SERVICE_NAME := "virt-observability-controller-metrics"
  const SECRET_NAME := "virt-observability-controller-metrics-token"
  const MONITOR_NAME := "virt-observability-controller"
  const SERVICE_ACCOUNT_KEY := "kubernetes.io/service-account.name"

  function KindOf(o: Object): Kind {
    match o
    case ServiceObject(_, _, _, _) => Service
    case SecretObject(_, _, _) => Secret
    case MonitorObject(_, _, _) => ServiceMonitor
  }

  function NameOf(kind: Kind): string {
    match kind
    case Service => SERVICE_NAME
    case Secret => SECRET_NAME
    case ServiceMonitor => MONITOR_NAME
  }

  function Owned(cfg: Config, kind: Kind): ObjKey {
    ObjKey(kind, cfg.namespace, NameOf(kind))
  }

  function CommonLabels(component: string): map<string, string> {
    map["app.kubernetes.io/name" := CONTROLLER_NAME,
        "app.kubernetes.io/component" := component,
        "app.kubernetes.io/managed-by" := CONTROLLER_NAME]
  }

  function DesiredService(cfg: Config): Object {
    ServiceObject(
      CommonLabels("metrics"),
      [ServicePort("metrics", cfg.port, cfg.port, "TCP")],
      map["app.kubernetes.io/name" := CONTROLLER_NAME],
      map[])
  }

  function DesiredSecret(cfg: Config): Object {
    SecretObject(
      CommonLabels("metrics"),
      map[SERVICE_ACCOUNT_KEY := cfg.serviceAccount],
      map["type" := "kubernetes.io/service-account-token"])
  }

  function DesiredMonitor(cfg: Config): Object {
    var endpoint := Endpoint(
      "metrics", SECRET_NAME, "token",
      if cfg.secure then "https" else "http",
      if cfg.secure then Some(true) else None,
      map[]);
    MonitorObject(CommonLabels("metrics"), MonitorSpec(CommonLabels("metrics"), [endpoint], map[]), map[])
  }

  function Desired(cfg: Config, kind: Kind): Object {
    match kind
    case Service => DesiredService(cfg)
    case Secret => DesiredSecret(cfg)
    case ServiceMonitor => DesiredMonitor(cfg)
  }

  /** A Go map read: a missing key reads as the empty string. */
  function Annotation(annotations: map<string, string>, key: string): string {
    if key in annotations then annotations[key] else ""
  }

  /** The managed fields are as desired. Of a Secret's annotations only the service account is compared. */
  predicate InSync(cfg: Config, o: Object) {
    match o
    case ServiceObject(labels, ports, selector, _) =>
      var d := DesiredService(cfg);
      ports == d.ports && selector == d.selector && labels == d.labels
    case SecretObject(labels, annotations, _) =>
      Annotation(annotations, SERVICE_ACCOUNT_KEY) == cfg.serviceAccount && labels == DesiredSecret(cfg).labels
    case MonitorObject(labels, spec, _) =>
      var d := DesiredMonitor(cfg);
      spec == d.spec && labels == d.labels
  }

  /** What an update sends: the object that was read, its managed fields overwritten. */
  function Overwrite(cfg: Config, o: Object): Object {
    var d := Desired(cfg, KindOf(o));
    match o
    case ServiceObject(_, _, _, rest) => ServiceObject(d.labels, d.ports, d.selector, rest)
    case SecretObject(_, _, rest) => SecretObject(d.labels, d.annotations, rest)
    case MonitorObject(_, _, rest) => MonitorObject(d.labels, d.spec, rest)
  }

  /** A Secret's annotations besides the one that is compared. */
  function Foreign(o: Object): map<string, string> {
    match o
    case SecretObject(_, annotations, _) => annotations - {SERVICE_ACCOUNT_KEY}
    case _ => map[]
  }

  /** Overwriting brings an object in sync and leaves the unmanaged rest of it alone; but it keeps a Secret's
      foreign annotations exactly when there are none. */
  lemma OverwriteSyncs(cfg: Config, o: Object)
    ensures InSync(cfg, Overwrite(cfg, o))
    ensures KindOf(Overwrite(cfg, o)) == KindOf(o) && Overwrite(cfg, o).rest == o.rest
    ensures Foreign(Overwrite(cfg, o)) == map[]
    ensures Foreign(Overwrite(cfg, o)) == Foreign(o) <==> Foreign(o) == map[]
    ensures !InSync(cfg, o) ==> Overwrite(cfg, o) != o
  {
  }

  lemma DesiredSyncs(cfg: Config, kind: Kind)
    ensures InSync(cfg, Desired(cfg, kind)) && KindOf(Desired(cfg, kind)) == kind
  {
  }

  /** The map function of each watch: the names of its kind, in the controller's namespace. */
  predicate MapIfOwned(cfg: Config, names: set<string>, key: ObjKey) {
    key.namespace == cfg.namespace && key.name in names
  }

  predicate Enqueues(cfg: Config, key: ObjKey) {
    match key.kind
    case Service => MapIfOwned(cfg, {SERVICE_NAME}, key)
    case Secret => MapIfOwned(cfg, {SECRET_NAME}, key)
    case ServiceMonitor => MapIfOwned(cfg, {MONITOR_NAME}, key)
  }

  /** The watches ask for a reconcile on events of the owned objects and of no others. */
  lemma EnqueuesOwnedOnly(cfg: Config, key: ObjKey)
    ensures Enqueues(cfg, key) <==> exists kind :: key == Owned(cfg, kind)
    ensures Enqueues(cfg, key) <==>
      || key == ObjKey(Service, cfg.namespace, "virt-observability-controller-metrics")
      || key == ObjKey(Secret, cfg.namespace, "virt-observability-controller-metrics-token")
      || key == ObjKey(ServiceMonitor, cfg.namespace, "virt-observability-controller")
  {
    if Enqueues(cfg, key) { assert key == Owned(cfg, key.kind); }
  }

  // What is desired, spelled out from the configuration.

  ghost predicate ServiceAsConfigured(cfg: Config, o: Object) {
    && o.ServiceObject?
    && o.ports == [ServicePort("metrics", cfg.port, cfg.port, "TCP")]
    && o.selector == map["app.kubernetes.io/name" := "virt-observability-controller"]
    && o.labels == map["app.kubernetes.io/name" := "virt-observability-controller",
                       "app.kubernetes.io/component" := "metrics",
                       "app.kubernetes.io/managed-by" := "virt-observability-controller"]
  }

  /** A missing annotation counts as an empty one. */
  ghost predicate SecretAsConfigured(cfg: Config, o: Object) {
    && o.SecretObject?
    && (if "kubernetes.io/service-account.name" in o.annotations
        then o.annotations["kubernetes.io/service-account.name"] == cfg.serviceAccount
        else cfg.serviceAccount == "")
    && o.labels == map["app.kubernetes.io/name" := "virt-observability-controller",
                       "app.kubernetes.io/component" := "metrics",
                       "app.kubernetes.io/managed-by" := "virt-observability-controller"]
  }

  /** One endpoint, over https with unverified certificates exactly when metrics are secure, with the token of the
      owned Secret; and it selects what carries the labels of the Service. */
  ghost predicate MonitorAsConfigured(cfg: Config, o: Object) {
    && o.MonitorObject?
    && |o.spec.endpoints| == 1
    && var e := o.spec.endpoints[0];
    && e.port == "metrics"
    && e.tokenSecret == "virt-observability-controller-metrics-token" && e.tokenKey == "token"
    && (cfg.secure ==> e.scheme == "https" && e.insecureSkipVerify == Some(true))
    && (!cfg.secure ==> e.scheme == "http" && e.insecureSkipVerify == None)
    && e.other == map[] && o.spec.other == map[]
    && o.spec.matchLabels == map["app.kubernetes.io/name" := "virt-observability-controller",
                                 "app.kubernetes.io/component" := "metrics",
                                 "app.kubernetes.io/managed-by" := "virt-observability-controller"]
    && o.labels == map["app.kubernetes.io/name" := "virt-observability-controller",
                       "app.kubernetes.io/component" := "metrics",
                       "app.kubernetes.io/managed-by" := "virt-observability-controller"]
  }

  /** The object of the kind is there, under its name in the controller's namespace, as the configuration says. */
  ghost predicate AsConfigured(cfg: Config, kind: Kind, objects: map<ObjKey, Object>) {
    match kind
    case Service =>
      var key := ObjKey(Service, cfg.namespace, "virt-observability-controller-metrics");
      key in objects && ServiceAsConfigured(cfg, objects[key])
    case Secret =>
      var key := ObjKey(Secret, cfg.namespace, "virt-observability-controller-metrics-token");
      key in objects && SecretAsConfigured(cfg, objects[key])
    case ServiceMonitor =>
      var key := ObjKey(ServiceMonitor, cfg.namespace, "virt-observability-controller");
      key in objects && MonitorAsConfigured(cfg, objects[key])
  }

  /** Being in sync is being as configured, kind by kind. */
  lemma ServiceInSyncIff(cfg: Config, o: Object)
    requires KindOf(o) == Service
    ensures InSync(cfg, o) <==> ServiceAsConfigured(cfg, o)
  {
  }

  lemma SecretInSyncIff(cfg: Config, o: Object)
    requires KindOf(o) == Secret
    ensures InSync(cfg, o) <==> SecretAsConfigured(cfg, o)
  {
  }

  lemma MonitorInSyncIff(cfg: Config, o: Object)
    requires KindOf(o) == ServiceMonitor
    ensures InSync(cfg, o) <==> MonitorAsConfigured(cfg, o)
  {
    if MonitorAsConfigured(cfg, o) {
      assert o.spec.endpoints == [o.spec.endpoints[0]];
      assert o.spec == DesiredMonitor(cfg).spec;
    }
  }

  /** An owned object is there and in sync exactly when it is as configured. */
  lemma InSyncIff(cfg: Config, kind: Kind, objects: map<ObjKey, Object>)
    requires forall k :: k in objects ==> KindOf(objects[k]) == k.kind
    ensures Owned(cfg, kind) in objects && InSync(cfg, objects[Owned(cfg, kind)]) <==> AsConfigured(cfg, kind, objects)
  {
    if Owned(cfg, kind) in objects {
      var o := objects[Owned(cfg, kind)];
      match kind
      case Service => ServiceInSyncIff(cfg, o);
      case Secret => SecretInSyncIff(cfg, o);
      case ServiceMonitor => MonitorInSyncIff(cfg, o);
    }
  }
}
