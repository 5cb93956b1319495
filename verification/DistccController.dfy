/** The Distcc controller: one Sync against the API server, over one namespace. */
module DistccSync {
  import opened Prelude
  import opened KubeTime
  import opened Errors
  import opened Labels
  import opened Scaling

  type Uid = nat

  datatype Spec = Spec(
    deploymentName: string,
    serviceName: string,
    selector: Option<LabelSelector>,
    limits: Limits,
    lease: Time,
    window: Option<Time>)

  datatype Distcc = Distcc(
    name: string, uid: Uid, version: nat, labels: Labels, spec: Spec,
    lastUpdate: Option<Time>, lastScale: Option<Time>)

  datatype Deployment = Deployment(owner: Option<Uid>, labels: Labels, selector: Option<LabelSelector>,
                                   replicas: Option<Int32>)

  datatype Service = Service(owner: Option<Uid>, labels: Labels, selector: Labels)

  datatype Claim = Claim(labels: Labels, expiration: Option<Time>)

  datatype Cluster = Cluster(
    deployments: map<string, Deployment>,
    services: map<string, Service>,
    distccs: map<string, Distcc>,
    next: nat)

  /** What the local caches show; the claims come in whatever order the lister has them. */
  datatype Listers = Listers(deployments: map<string, Deployment>, services: map<string, Service>, claims: seq<Claim>)

  /** The answers of the outside world during one Sync: the clock readings for counting, for needScale
      and for the status, the failures of calls, and the replicas the server fills in when unset. */
  datatype Env = Env(
    counting: Time,
    scaling: Time,
    recording: Time,
    getDeployment: Option<Error>,
    createDeployment: Option<Error>,
    listClaims: Option<Error>,
    updateDeployment: Option<Error>,
    getService: Option<Error>,
    createService: Option<Error>,
    updateStatus: Option<Error>,
    defaultReplicas: Option<Int32>)

  datatype Updates = Updates(created: bool, scaled: bool, serviceCreated: bool) {
    predicate Any() { created || scaled || serviceCreated }
  }

  datatype Outcome = Outcome(cluster: Cluster, updates: Updates, err: Option<Error>)

  const UNCHANGED: Updates := Updates(false, false, false)

  const NO_DEPLOYMENT_NAME: Error :=
    Eventful(Plain("spec.deploymentName name must be specified"),
             Event("ErrDeployNotSpecified", "spec.deploymentName name must be specified"))
  const NO_SERVICE_NAME: Error := Plain("spec.ServiceName must be specified")

  function Foreign(name: string): Error {
    Eventful(Plain("resource exists: " + name), Event("ErrResourceExists", "resource exists: " + name))
  }

  // ---------------------------------------------------------------- the API server

  /** A Create of a Deployment; the server fills in unset replicas. */
  function CreateDeployment(cl: Cluster, name: string, d: Deployment, fault: Option<Error>,
                            default: Option<Int32>): Result<Cluster, Error>
  {
    if fault.Some? then Err(fault.value)
    else if name in cl.deployments then Err(Status(AlreadyExists))
    else
      var stored := if d.replicas.None? then d.(replicas := default) else d;
      Ok(cl.(deployments := cl.deployments[name := stored]))
  }

  /** An Update without a resource version is unconditional, but the object has to exist. */
  function UpdateDeployment(cl: Cluster, name: string, d: Deployment, fault: Option<Error>): Result<Cluster, Error> {
    if fault.Some? then Err(fault.value)
    else if name !in cl.deployments then Err(Status(NotFound))
    else Ok(cl.(deployments := cl.deployments[name := d]))
  }

  function CreateService(cl: Cluster, name: string, s: Service, fault: Option<Error>): Result<Cluster, Error> {
    if fault.Some? then Err(fault.value)
    else if name in cl.services then Err(Status(AlreadyExists))
    else Ok(cl.(services := cl.services[name := s]))
  }

  function UpdateDistcc(cl: Cluster, d: Distcc, fault: Option<Error>): Result<Cluster, Error> {
    if fault.Some? then Err(fault.value)
    else if d.name !in cl.distccs then Err(Status(NotFound))
    else if cl.distccs[d.name].version != d.version then Err(Status(Conflict))
    else Ok(cl.(distccs := cl.distccs[d.name := d.(version := cl.next)], next := cl.next + 1))
  }

  // ---------------------------------------------------------------- Sync as a function

  function NewDeployment(d: Distcc, replicas: Option<Int32>): Deployment {
    Deployment(Some(d.uid), d.labels, d.spec.selector, replicas)
  }

  function NewService(d: Distcc): Service {
    var selector := if d.spec.selector.Some? then LabelsOrEmpty(d.spec.selector.value.matchLabels) else map[];
    Service(Some(d.uid), d.labels, selector)
  }

  /** The expirations of the claims that the selector lists, in the lister's order. */
  function Listed(claims: seq<Claim>, s: Selector): seq<Option<Time>> {
    if claims == [] then []
    else
      Listed(claims[..|claims| - 1], s)
      + if Matches(s, claims[|claims| - 1].labels) then [claims[|claims| - 1].expiration] else []
  }

  /** desiredReplicas */
  function Wanted(d: Distcc, claims: seq<Claim>, env: Env): Result<Int32, Error> {
    match AsSelector(d.spec.selector)
    case Err(e) => Err(e)
    case Ok(s) =>
      if env.listClaims.Some? then Err(Transient(env.listClaims.value))
      else Ok(Desired(d.spec.limits, Listed(claims, s), env.counting + d.spec.lease))
  }

  function FoundDeployment(cl: Cluster, l: Listers, d: Distcc, env: Env): Result<(Cluster, Deployment, bool), Error> {
    var name := d.spec.deploymentName;
    var missing := if env.getDeployment.Some? then IsNotFound(env.getDeployment.value) else name !in l.deployments;
    if missing then
      match CreateDeployment(cl, name, NewDeployment(d, None), env.createDeployment, env.defaultReplicas)
      case Err(e) => Err(Transient(e))
      case Ok(cl') => Ok((cl', cl'.deployments[name], true))
    else if env.getDeployment.Some? then Err(Transient(env.getDeployment.value))
    else Ok((cl, l.deployments[name], false))
  }

  /** Whether a failing lookup still counts as a creation in the returned state. */
  predicate TriedToCreate(l: Listers, d: Distcc, env: Env) {
    if env.getDeployment.Some? then IsNotFound(env.getDeployment.value) else d.spec.deploymentName !in l.deployments
  }

  function SyncDeployment(cl: Cluster, l: Listers, d: Distcc, env: Env): Outcome {
    if d.spec.deploymentName == "" then Outcome(cl, UNCHANGED, Some(NO_DEPLOYMENT_NAME))
    else
      match FoundDeployment(cl, l, d, env)
      case Err(e) => Outcome(cl, Updates(TriedToCreate(l, d, env), false, false), Some(e))
      case Ok((cl', deploy, created)) =>
        var updates := Updates(created, false, false);
        if deploy.owner != Some(d.uid) then Outcome(cl', updates, Some(Foreign(d.spec.deploymentName)))
        else
          match Wanted(d, l.claims, env)
          case Err(e) => Outcome(cl', updates, Some(Wrap(e, "cannot determine desired replicas for distcc")))
          case Ok(desired) => Scaled(cl', updates, d, deploy.replicas, desired, env)
  }

  /** The last part of syncDeployment: scale, if needScale says so of the replicas that were found. */
  function Scaled(cl: Cluster, updates: Updates, d: Distcc, found: Option<Int32>, desired: Int32, env: Env): Outcome {
    if NeedScale(env.scaling, d.spec.window, d.lastScale, found, desired) then
      match UpdateDeployment(cl, d.spec.deploymentName, NewDeployment(d, Some(desired)), env.updateDeployment)
      case Err(e) => Outcome(cl, updates, Some(Transient(e)))
      case Ok(cl') => Outcome(cl', updates.(scaled := true), None)
    else Outcome(cl, updates, None)
  }

  function SyncService(cl: Cluster, l: Listers, d: Distcc, env: Env): (Cluster, bool, Option<Error>) {
    var name := d.spec.serviceName;
    if name == "" then (cl, false, Some(NO_SERVICE_NAME))
    else
      var missing := if env.getService.Some? then IsNotFound(env.getService.value) else name !in l.services;
      if missing then
        match CreateService(cl, name, NewService(d), env.createService)
        case Err(e) => (cl, true, Some(Transient(e)))
        case Ok(cl') => (cl', true, None)
      else if env.getService.Some? then (cl, false, Some(Transient(env.getService.value)))
      else (cl, false, if l.services[name].owner != Some(d.uid) then Some(Foreign(name)) else None)
  }

  function RecordStatus(cl: Cluster, d: Distcc, updates: Updates, env: Env): (Cluster, Option<Error>) {
    if !updates.Any() then (cl, None)
    else
      var now := Some(ToKubeTime(env.recording));
      match UpdateDistcc(cl, d.(lastUpdate := now, lastScale := if updates.scaled then now else d.lastScale),
                         env.updateStatus)
      case Err(e) => (cl, Some(e))
      case Ok(cl') => (cl', None)
  }

  function Sync(cl: Cluster, l: Listers, d: Distcc, env: Env): Outcome {
    var first := SyncDeployment(cl, l, d, env);
    if first.err.Some? then first
    else
      var (cl', serviceCreated, err) := SyncService(first.cluster, l, d, env);
      var updates := first.updates.(serviceCreated := serviceCreated);
      if err.Some? then Outcome(cl', updates, err)
      else
        var (cl'', err') := RecordStatus(cl', d, updates, env);
        Outcome(cl'', updates, err')
  }

  // ---------------------------------------------------------------- what Sync achieves

  ghost predicate CachesCurrent(cl: Cluster, l: Listers) {
    l.deployments == cl.deployments && l.services == cl.services
  }

  /** The Deployment and the Service are there, belong to the Distcc, and there are enough replicas;
      more than that only while the downscale window is open. */
  predicate Converged(cl: Cluster, d: Distcc, desired: Int32, env: Env) {
    && d.spec.deploymentName in cl.deployments && Settled(cl.deployments[d.spec.deploymentName], d, desired, env)
    && d.spec.serviceName in cl.services && cl.services[d.spec.serviceName].owner == Some(d.uid)
  }

  lemma FoundIsOnItsOwn(cl: Cluster, l: Listers, d: Distcc, env: Env)
    requires FoundDeployment(cl, l, d, env).Ok?
    ensures var cl' := FoundDeployment(cl, l, d, env).value.0; cl' == cl.(deployments := cl'.deployments)
  {
  }

  lemma FoundIsThere(cl: Cluster, l: Listers, d: Distcc, env: Env)
    requires l.deployments == cl.deployments && FoundDeployment(cl, l, d, env).Ok?
    ensures var (cl', deploy, _) := FoundDeployment(cl, l, d, env).value;
            cl' == cl.(deployments := cl.deployments[d.spec.deploymentName := deploy])
  {
  }

  /** Nothing but the Deployment of this name may be different. */
  predicate OnlyDeployment(cl: Cluster, cl': Cluster, name: string) {
    name in cl'.deployments && cl' == cl.(deployments := cl.deployments[name := cl'.deployments[name]])
  }

  lemma ScaledConverges(cl: Cluster, updates: Updates, d: Distcc, found: Deployment, desired: Int32, env: Env)
    requires d.spec.deploymentName in cl.deployments && cl.deployments[d.spec.deploymentName] == found
    requires found.owner == Some(d.uid) && Scaled(cl, updates, d, found.replicas, desired, env).err.None?
    ensures var out := Scaled(cl, updates, d, found.replicas, desired, env);
            var cl' := out.cluster;
            && d.spec.deploymentName in cl'.deployments
            && OnlyDeployment(cl, cl', d.spec.deploymentName)
            && Settled(cl'.deployments[d.spec.deploymentName], d, desired, env)
            && (!updates.scaled && out.updates.scaled ==>
                cl'.deployments[d.spec.deploymentName].replicas == Some(desired))
  {
  }

  /** The Deployment belongs to the Distcc and has enough replicas; more only while the window is open. */
  predicate Settled(deploy: Deployment, d: Distcc, desired: Int32, env: Env) {
    && deploy.owner == Some(d.uid) && deploy.replicas.Some? && deploy.replicas.value >= desired
    && (deploy.replicas.value > desired ==> WindowOpen(env.scaling, d.spec.window, d.lastScale))
  }

  lemma SyncDeploymentConverges(cl: Cluster, l: Listers, d: Distcc, env: Env)
    requires l.deployments == cl.deployments && SyncDeployment(cl, l, d, env).err.None?
    ensures Wanted(d, l.claims, env).Ok?
    ensures var cl' := SyncDeployment(cl, l, d, env).cluster;
            var scaled := SyncDeployment(cl, l, d, env).updates.scaled;
            var desired := Wanted(d, l.claims, env).value;
            && d.spec.deploymentName in cl'.deployments
            && OnlyDeployment(cl, cl', d.spec.deploymentName)
            && Settled(cl'.deployments[d.spec.deploymentName], d, desired, env)
            && (scaled ==> cl'.deployments[d.spec.deploymentName].replicas == Some(desired))
  {
    FoundIsThere(cl, l, d, env);
    var (cl', deploy, created) := FoundDeployment(cl, l, d, env).value;
    ScaledConverges(cl', Updates(created, false, false), d, deploy, Wanted(d, l.claims, env).value, env);
  }

  lemma SyncServiceConverges(cl: Cluster, l: Listers, d: Distcc, env: Env)
    requires l.services == cl.services && SyncService(cl, l, d, env).2.None?
    ensures var cl' := SyncService(cl, l, d, env).0;
            && cl'.deployments == cl.deployments && cl'.distccs == cl.distccs
            && d.spec.serviceName in cl'.services && cl'.services[d.spec.serviceName].owner == Some(d.uid)
            && cl'.services == cl.services[d.spec.serviceName := cl'.services[d.spec.serviceName]]
  {
  }

  lemma SyncDeploymentKeepsDistccs(cl: Cluster, l: Listers, d: Distcc, env: Env)
    ensures SyncDeployment(cl, l, d, env).cluster.distccs == cl.distccs
    ensures SyncDeployment(cl, l, d, env).updates.scaled ==> SyncDeployment(cl, l, d, env).err.None?
  {
    if FoundDeployment(cl, l, d, env).Ok? {
      FoundIsOnItsOwn(cl, l, d, env);
      var (cl', deploy, created) := FoundDeployment(cl, l, d, env).value;
      var wanted := Wanted(d, l.claims, env);
      if wanted.Ok? { ScaledIsOnItsOwn(cl', Updates(created, false, false), d, deploy.replicas, wanted.value, env); }
    }
  }

  lemma ScaledIsOnItsOwn(cl: Cluster, updates: Updates, d: Distcc, found: Option<Int32>, desired: Int32, env: Env)
    requires !updates.scaled
    ensures var out := Scaled(cl, updates, d, found, desired, env);
            out.cluster == cl.(deployments := out.cluster.deployments) && (out.updates.scaled ==> out.err.None?)
  {
  }

  lemma SyncServiceKeepsTheRest(cl: Cluster, l: Listers, d: Distcc, env: Env)
    ensures var cl' := SyncService(cl, l, d, env).0; cl' == cl.(services := cl'.services)
  {
  }

  lemma RecordStatusKeepsObjects(cl: Cluster, d: Distcc, updates: Updates, env: Env)
    ensures var cl' := RecordStatus(cl, d, updates, env).0;
            cl'.deployments == cl.deployments && cl'.services == cl.services
  {
  }

  /** The rest of a Sync keeps what its first part did to Deployments. */
  lemma SyncKeepsItsDeployment(cl: Cluster, l: Listers, d: Distcc, env: Env)
    ensures var first, out := SyncDeployment(cl, l, d, env), Sync(cl, l, d, env);
            && out.cluster.deployments == first.cluster.deployments && out.updates.scaled == first.updates.scaled
            && (out.err.None? ==> first.err.None? && SyncService(first.cluster, l, d, env).2.None?
                                  && out.cluster.services == SyncService(first.cluster, l, d, env).0.services)
  {
    var first := SyncDeployment(cl, l, d, env);
    SyncServiceKeepsTheRest(first.cluster, l, d, env);
    var (cl', created, err) := SyncService(first.cluster, l, d, env);
    RecordStatusKeepsObjects(cl', d, first.updates.(serviceCreated := created), env);
  }

  /** A successful Sync on current caches converges and touches nothing else. */
  lemma SyncConverges(cl: Cluster, l: Listers, d: Distcc, env: Env)
    requires CachesCurrent(cl, l) && Sync(cl, l, d, env).err.None?
    ensures Wanted(d, l.claims, env).Ok?
            && Converged(Sync(cl, l, d, env).cluster, d, Wanted(d, l.claims, env).value, env)
    ensures var cl' := Sync(cl, l, d, env).cluster;
            && cl'.deployments == cl.deployments[d.spec.deploymentName := cl'.deployments[d.spec.deploymentName]]
            && cl'.services == cl.services[d.spec.serviceName := cl'.services[d.spec.serviceName]]
  {
    SyncKeepsItsDeployment(cl, l, d, env);
    SyncDeploymentConverges(cl, l, d, env);
    SyncServiceConverges(SyncDeployment(cl, l, d, env).cluster, l, d, env);
  }

  /** The Service created for a Distcc selects every pod that its Deployment selects. */
  lemma ServiceCoversPods(d: Distcc, replicas: Option<Int32>, pod: Labels)
    requires AsSelector(NewDeployment(d, replicas).selector).Ok?
    requires Matches(AsSelector(NewDeployment(d, replicas).selector).value, pod)
    ensures Carries(pod, NewService(d).selector)
  {
  }

  /** The Deployment and the Service that Sync has to create belong to the Distcc and carry its labels. */
  lemma CreatedObjectsCarryLabels(cl: Cluster, l: Listers, d: Distcc, env: Env)
    requires CachesCurrent(cl, l) && Sync(cl, l, d, env).err.None?
    ensures var cl' := Sync(cl, l, d, env).cluster;
            && d.spec.deploymentName in cl'.deployments && d.spec.serviceName in cl'.services
            && (d.spec.deploymentName !in cl.deployments ==> cl'.deployments[d.spec.deploymentName].labels == d.labels)
            && (d.spec.serviceName !in cl.services ==> cl'.services[d.spec.serviceName] == NewService(d))
  {
    SyncConverges(cl, l, d, env);
    SyncKeepsItsDeployment(cl, l, d, env);
    var first := SyncDeployment(cl, l, d, env);
    SyncDeploymentConverges(cl, l, d, env);
    if d.spec.deploymentName !in cl.deployments { CreatedDeploymentCarriesLabels(cl, l, d, env); }
    if d.spec.serviceName !in cl.services { CreatedServiceIsNew(first.cluster, l, d, env); }
  }

  lemma CreatedDeploymentCarriesLabels(cl: Cluster, l: Listers, d: Distcc, env: Env)
    requires l.deployments == cl.deployments && SyncDeployment(cl, l, d, env).err.None?
    requires d.spec.deploymentName !in cl.deployments
    ensures var cl' := SyncDeployment(cl, l, d, env).cluster;
            d.spec.deploymentName in cl'.deployments && cl'.deployments[d.spec.deploymentName].labels == d.labels
  {
  }

  lemma CreatedServiceIsNew(cl: Cluster, l: Listers, d: Distcc, env: Env)
    requires l.services == cl.services && SyncService(cl, l, d, env).2.None? && d.spec.serviceName !in cl.services
    ensures var cl' := SyncService(cl, l, d, env).0;
            d.spec.serviceName in cl'.services && cl'.services[d.spec.serviceName] == NewService(d)
  {
  }

  // ---------------------------------------------------------------- when Sync succeeds, and what it writes

  /** The Deployment is somebody else's. */
  predicate ForeignDeployment(cl: Cluster, d: Distcc) {
    d.spec.deploymentName in cl.deployments && cl.deployments[d.spec.deploymentName].owner != Some(d.uid)
  }

  predicate ForeignService(cl: Cluster, d: Distcc) {
    d.spec.serviceName in cl.services && cl.services[d.spec.serviceName].owner != Some(d.uid)
  }

  /** A lookup may also fail by reporting that there is nothing, if that is true. */
  predicate Looked(there: bool, get: Option<Error>) { get.None? || (!there && IsNotFound(get.value)) }

  /** The Deployment is found, or created where there is none. */
  predicate HasDeployment(cl: Cluster, d: Distcc, env: Env) {
    var there := d.spec.deploymentName in cl.deployments;
    Looked(there, env.getDeployment) && (there || env.createDeployment.None?)
  }

  predicate HasService(cl: Cluster, d: Distcc, env: Env) {
    var there := d.spec.serviceName in cl.services;
    Looked(there, env.getService) && (there || env.createService.None?)
  }

  /** The replicas of the Deployment, as found or as created. */
  function Initial(cl: Cluster, d: Distcc, env: Env): Option<Int32> {
    if d.spec.deploymentName in cl.deployments then cl.deployments[d.spec.deploymentName].replicas
    else env.defaultReplicas
  }

  predicate CanWant(d: Distcc, env: Env) {
    (d.spec.selector.Some? ==> ValidSelector(d.spec.selector.value)) && env.listClaims.None?
  }

  /** There are no replicas, too few, or too many while the downscale window is not open. */
  predicate Off(cl: Cluster, l: Listers, d: Distcc, env: Env)
    requires CanWant(d, env)
  {
    var desired := Wanted(d, l.claims, env).value;
    match Initial(cl, d, env)
    case None => true
    case Some(r) => r < desired || (r > desired && !WindowOpen(env.scaling, d.spec.window, d.lastScale))
  }

  /** The first part of Sync: a Deployment of its own, a number of replicas to want, and an update of the
      Deployment where that is off. */
  predicate DeploymentGoesThrough(cl: Cluster, l: Listers, d: Distcc, env: Env) {
    && d.spec.deploymentName != "" && HasDeployment(cl, d, env) && !ForeignDeployment(cl, d)
    && CanWant(d, env) && (Off(cl, l, d, env) ==> env.updateDeployment.None?)
  }

  /** A Deployment is created, or at least the attempt is made. */
  predicate Creates(cl: Cluster, d: Distcc, env: Env) {
    d.spec.deploymentName != ""
    && if env.getDeployment.Some? then IsNotFound(env.getDeployment.value) else d.spec.deploymentName !in cl.deployments
  }

  predicate CreatesService(cl: Cluster, d: Distcc, env: Env) {
    d.spec.serviceName != ""
    && if env.getService.Some? then IsNotFound(env.getService.value) else d.spec.serviceName !in cl.services
  }

  /** Which errors come from the first part: an event for a missing name and for somebody else's Deployment,
      something else for an invalid selector, and a transient error for any call that fails. */
  lemma DeploymentErrorsExactly(cl: Cluster, l: Listers, d: Distcc, env: Env)
    requires l.deployments == cl.deployments
    ensures var err := SyncDeployment(cl, l, d, env).err;
            && (err.None? <==> DeploymentGoesThrough(cl, l, d, env))
            && (err.Some? ==>
                  SyncDeployment(cl, l, d, env).updates == Updates(Creates(cl, d, env), false, false))
            && (err.Some? ==>
                  var owned := d.spec.deploymentName != "" && HasDeployment(cl, d, env) && !ForeignDeployment(cl, d);
                  && (HasEvent(err.value).Some? <==>
                        d.spec.deploymentName == "" || (HasDeployment(cl, d, env) && ForeignDeployment(cl, d)))
                  && (IsTransient(err.value) <==>
                        d.spec.deploymentName != ""
                        && (!HasDeployment(cl, d, env) || (owned && AsSelector(d.spec.selector).Ok?))))
  {
    var wanted := Wanted(d, l.claims, env);
    if wanted.Err? { WrappingKeepsClass(wanted.error, ["cannot determine desired replicas for distcc"]); }
    assert forall e: Error, m :: WrapAll(e, [m]) == Wrap(e, m);
    if HasDeployment(cl, d, env) {
      var (cl', deploy, _) := FoundDeployment(cl, l, d, env).value;
      assert deploy.replicas == Initial(cl, d, env);
    }
  }

  lemma ServiceErrorsExactly(cl: Cluster, l: Listers, d: Distcc, env: Env)
    requires l.services == cl.services
    ensures var err := SyncService(cl, l, d, env).2;
            && (SyncService(cl, l, d, env).1 <==> CreatesService(cl, d, env))
            && (err.None? <==> d.spec.serviceName != "" && HasService(cl, d, env) && !ForeignService(cl, d))
            && (err.Some? ==>
                  && (HasEvent(err.value).Some? <==>
                        d.spec.serviceName != "" && HasService(cl, d, env) && ForeignService(cl, d))
                  && (IsTransient(err.value) <==> d.spec.serviceName != "" && !HasService(cl, d, env)))
  {
  }

  /** A Sync on current caches succeeds exactly if both names are there, both objects are found or can be
      created and are not somebody else's, the selector is valid and the claims can be listed, an update of
      a Deployment that is off does not fail, and neither does the status write, if there is anything to
      report. */
  lemma SyncSucceedsExactly(cl: Cluster, l: Listers, d: Distcc, env: Env)
    requires CachesCurrent(cl, l) && d.name in cl.distccs && cl.distccs[d.name] == d
    ensures Sync(cl, l, d, env).err.None? <==>
            && DeploymentGoesThrough(cl, l, d, env)
            && d.spec.serviceName != "" && HasService(cl, d, env) && !ForeignService(cl, d)
            && (Writes(cl, l, d, env) ==> env.updateStatus.None?)
  {
    DeploymentErrorsExactly(cl, l, d, env);
    var first := SyncDeployment(cl, l, d, env);
    if first.err.None? {
      SyncDeploymentKeepsTheRest(cl, l, d, env);
      ServiceErrorsExactly(first.cluster, l, d, env);
      DeploymentWritesExactly(cl, l, d, env);
      SyncServiceKeepsTheRest(first.cluster, l, d, env);
    }
  }

  /** Something is missing or off. */
  predicate Writes(cl: Cluster, l: Listers, d: Distcc, env: Env)
    requires CanWant(d, env)
  {
    d.spec.deploymentName !in cl.deployments || Off(cl, l, d, env) || d.spec.serviceName !in cl.services
  }

  lemma SyncDeploymentKeepsTheRest(cl: Cluster, l: Listers, d: Distcc, env: Env)
    ensures var cl' := SyncDeployment(cl, l, d, env).cluster; cl' == cl.(deployments := cl'.deployments)
  {
    if FoundDeployment(cl, l, d, env).Ok? { FoundIsOnItsOwn(cl, l, d, env); }
  }

  /** The Deployment after a first part that goes through: made new by the Distcc if it was missing or off,
      with its labels, its selector and the wanted replicas, and otherwise left alone. */
  lemma DeploymentWritesExactly(cl: Cluster, l: Listers, d: Distcc, env: Env)
    requires l.deployments == cl.deployments && DeploymentGoesThrough(cl, l, d, env)
    ensures var out, name := SyncDeployment(cl, l, d, env), d.spec.deploymentName;
            && out.updates == Updates(name !in cl.deployments, Off(cl, l, d, env), false)
            && out.cluster ==
               (if Off(cl, l, d, env) then
                  var desired := Wanted(d, l.claims, env).value;
                  cl.(deployments := cl.deployments[name :=
                                                    Deployment(Some(d.uid), d.labels, d.spec.selector, Some(desired))])
                else if name !in cl.deployments then
                  cl.(deployments :=
                        cl.deployments[name := Deployment(Some(d.uid), d.labels, d.spec.selector, env.defaultReplicas)])
                else cl)
  {
    var (cl', deploy, _) := FoundDeployment(cl, l, d, env).value;
    assert deploy.replicas == Initial(cl, d, env);
  }

  /** What a successful Sync on current caches writes, and what it reports: the Deployment if it was missing
      or off, the Service if it was missing, and if it wrote any of them the status, with the time of the
      scale only after a scale. */
  lemma SyncWritesExactly(cl: Cluster, l: Listers, d: Distcc, env: Env)
    requires CachesCurrent(cl, l) && d.name in cl.distccs && cl.distccs[d.name] == d && Sync(cl, l, d, env).err.None?
    ensures DeploymentGoesThrough(cl, l, d, env)
    ensures var out, cl1 := Sync(cl, l, d, env), SyncDeployment(cl, l, d, env).cluster;
            var name, now := d.spec.serviceName, Some(ToKubeTime(env.recording));
            && out.updates == Updates(d.spec.deploymentName !in cl.deployments, Off(cl, l, d, env),
                                      name !in cl.services)
            && out.cluster.deployments == cl1.deployments
            && out.cluster.services ==
               (if name in cl.services then cl.services
                else cl.services[name := Service(Some(d.uid), d.labels, MatchLabels(d.spec.selector))])
            && out.cluster.distccs ==
               (if !out.updates.Any() then cl.distccs
                else cl.distccs[d.name := d.(version := cl.next, lastUpdate := now,
                                             lastScale := if out.updates.scaled then now else d.lastScale)])
  {
    SyncSucceedsExactly(cl, l, d, env);
    DeploymentWritesExactly(cl, l, d, env);
    SyncDeploymentKeepsTheRest(cl, l, d, env);
    var first := SyncDeployment(cl, l, d, env);
    ServiceErrorsExactly(first.cluster, l, d, env);
  }

  function MatchLabels(s: Option<LabelSelector>): Labels {
    if s.Some? then LabelsOrEmpty(s.value.matchLabels) else map[]
  }

  /** An error of Sync is transient or carries an event, but for three cases: no service name, an invalid
      selector, and a status write, which passes its error on as it is. */
  lemma ErrorsAreClassified(cl: Cluster, l: Listers, d: Distcc, env: Env)
    requires Sync(cl, l, d, env).err.Some?
    ensures var e := Sync(cl, l, d, env).err.value;
            || IsTransient(e) || HasEvent(e).Some? || e == NO_SERVICE_NAME || AsSelector(d.spec.selector).Err?
            || (SyncDeployment(cl, l, d, env).err.None?
                && SyncService(SyncDeployment(cl, l, d, env).cluster, l, d, env).2.None?)
  {
    var wanted := Wanted(d, l.claims, env);
    if wanted.Err? { WrappingKeepsClass(wanted.error, ["cannot determine desired replicas for distcc"]); }
    assert forall e: Error, m :: WrapAll(e, [m]) == Wrap(e, m);
  }

  /** On current caches it is the error of the first part that does not go through; an event for somebody
      else's Service, and a transient error where the Service is neither found nor created. */
  lemma ErrorsExactly(cl: Cluster, l: Listers, d: Distcc, env: Env)
    requires CachesCurrent(cl, l) && Sync(cl, l, d, env).err.Some?
    ensures Sync(cl, l, d, env).updates ==
            (if DeploymentGoesThrough(cl, l, d, env)
             then Updates(Creates(cl, d, env), Off(cl, l, d, env), CreatesService(cl, d, env))
             else Updates(Creates(cl, d, env), false, false))
    ensures var e := Sync(cl, l, d, env).err.value;
            if !DeploymentGoesThrough(cl, l, d, env) then Some(e) == SyncDeployment(cl, l, d, env).err
            else if d.spec.serviceName == "" then e == NO_SERVICE_NAME
            else if HasService(cl, d, env) && !ForeignService(cl, d)
            then env.updateStatus == Some(e) || e == Status(NotFound) || e == Status(Conflict)
            else (IsTransient(e) <==> !HasService(cl, d, env)) && (HasEvent(e).Some? <==> HasService(cl, d, env))
  {
    DeploymentErrorsExactly(cl, l, d, env);
    var first := SyncDeployment(cl, l, d, env);
    if first.err.None? {
      DeploymentWritesExactly(cl, l, d, env);
      SyncDeploymentKeepsTheRest(cl, l, d, env);
      ServiceErrorsExactly(first.cluster, l, d, env);
    }
  }

  /** The Distcc as the next Sync will see it. */
  function Refreshed(cl: Cluster, d: Distcc): Distcc { if d.name in cl.distccs then cl.distccs[d.name] else d }

  predicate Faultless(env: Env) {
    env.getDeployment.None? && env.listClaims.None? && env.getService.None?
  }

  /** A second Sync at the same instants, on refreshed caches, changes nothing and reports no update,
      whatever would happen to the calls it does not make. */
  lemma SyncIsIdempotent(cl: Cluster, l: Listers, d: Distcc, env: Env, l2: Listers, env2: Env)
    requires CachesCurrent(cl, l) && Sync(cl, l, d, env).err.None?
    requires CachesCurrent(Sync(cl, l, d, env).cluster, l2) && l2.claims == l.claims
    requires d.name in cl.distccs && cl.distccs[d.name] == d
    requires env2.counting == env.counting && env2.scaling == env.scaling && Faultless(env2)
    ensures var cl' := Sync(cl, l, d, env).cluster;
            Sync(cl', l2, Refreshed(cl', d), env2) == Outcome(cl', UNCHANGED, None)
  {
    SyncDeploymentConverges(cl, l, d, env);
    SyncConverges(cl, l, d, env);
    SyncKeepsItsDeployment(cl, l, d, env);
    var cl' := Sync(cl, l, d, env).cluster;
    var d' := Refreshed(cl', d);
    RefreshedIsTheSame(cl, l, d, env);
    SettledIsLeft(cl', l2, d', env2, Wanted(d, l.claims, env).value);
    OwnServiceIsLeft(cl', l2, d', env2);
  }

  /** A Sync changes nothing about a Distcc but its version and its status, and the time of the last
      scale only if it scales. */
  lemma RefreshedIsTheSame(cl: Cluster, l: Listers, d: Distcc, env: Env)
    requires d.name in cl.distccs && cl.distccs[d.name] == d && Sync(cl, l, d, env).err.None?
    ensures var out := Sync(cl, l, d, env);
            var d' := Refreshed(out.cluster, d);
            && d' == d.(version := d'.version, lastUpdate := d'.lastUpdate, lastScale := d'.lastScale)
            && (!out.updates.scaled ==> d'.lastScale == d.lastScale)
  {
    var first := SyncDeployment(cl, l, d, env);
    SyncDeploymentKeepsDistccs(cl, l, d, env);
    SyncServiceKeepsTheRest(first.cluster, l, d, env);
    assert SyncService(first.cluster, l, d, env).0.distccs == cl.distccs;
  }

  lemma OwnServiceIsLeft(cl: Cluster, l: Listers, d: Distcc, env: Env)
    requires l.services == cl.services && d.spec.serviceName != "" && env.getService.None?
    requires d.spec.serviceName in cl.services && cl.services[d.spec.serviceName].owner == Some(d.uid)
    ensures SyncService(cl, l, d, env) == (cl, false, None)
  {
  }

  lemma SettledIsLeft(cl: Cluster, l: Listers, d: Distcc, env: Env, desired: Int32)
    requires l.deployments == cl.deployments && d.spec.deploymentName in cl.deployments && d.spec.deploymentName != ""
    requires Settled(cl.deployments[d.spec.deploymentName], d, desired, env)
    requires Wanted(d, l.claims, env) == Ok(desired) && env.getDeployment.None?
    ensures SyncDeployment(cl, l, d, env) == Outcome(cl, UNCHANGED, None)
  {
  }
}

/** Sync seen by the scaling machine, and Sync as the controller runs it. */
module DistccController {
  import opened Prelude
  import opened KubeTime
  import opened Errors
  import opened Labels
  import opened Scaling
  import opened DistccSync
  import opened Cells
  import ScaleRuns

  function Replicas(cl: Cluster, d: Distcc): Option<Int32> {
    if d.spec.deploymentName in cl.deployments then cl.deployments[d.spec.deploymentName].replicas else None
  }

  /** The second half of a scaling Sync: the update at `at`, the status write or its loss at the end. */
  function ApplySteps(now: Time, at: Time, end: Time, recorded: bool): seq<ScaleRuns.Step>
    requires now <= at <= end
  {
    [ScaleRuns.Tick(at - now)] + ([ScaleRuns.Apply]
    + ([ScaleRuns.Tick(end - at)] + ([if recorded then ScaleRuns.Record else ScaleRuns.Lose] + [])))
  }

  lemma ApplyStepsRun(w: ScaleRuns.World, at: Time, end: Time, recorded: bool, window: Time)
    requires w.pass.Decided? && w.now <= at <= end
    ensures var steps := ApplySteps(w.now, at, end, recorded);
            && ScaleRuns.Run(w, steps, Some(window)) && (recorded ==> ScaleRuns.Lose !in steps)
            && (ScaleRuns.Sighted(w, steps, window) <==>
                  (ScaleRuns.Blind(w) ==> ScaleRuns.Far(w.scales, at, window)))
            && ScaleRuns.After(w, steps, Some(window)) ==
               ScaleRuns.World(end, Some(w.pass.desired),
                               if recorded then Some(ToKubeTime(end)) else w.lastScale, ScaleRuns.Free,
                               w.scales + [ScaleRuns.Scale(at, w.replicas, w.pass.desired)])
  {
    var last := if recorded then ScaleRuns.Record else ScaleRuns.Lose;
    var w1 := ScaleRuns.Next(w, ScaleRuns.Tick(at - w.now), Some(window));
    var w2 := ScaleRuns.Next(w1, ScaleRuns.Apply, Some(window));
    var w3 := ScaleRuns.Next(w2, ScaleRuns.Tick(end - at), Some(window));
    ScaleRuns.Prepend(w3, last, [], window);
    ScaleRuns.Prepend(w2, ScaleRuns.Tick(end - at), [last] + [], window);
    ScaleRuns.Prepend(w1, ScaleRuns.Apply, [ScaleRuns.Tick(end - at)] + ([last] + []), window);
    ScaleRuns.Prepend(w, ScaleRuns.Tick(at - w.now),
                      [ScaleRuns.Apply] + ([ScaleRuns.Tick(end - at)] + ([last] + [])), window);
  }

  /** A scaling Sync in the scaling machine. */
  function ScaleSteps(now: Time, seen: Option<Int32>, last: Option<Time>, desired: Int32, env: Env, at: Time,
                      recorded: bool): seq<ScaleRuns.Step>
    requires now <= env.scaling <= at <= env.recording
  {
    [ScaleRuns.Tick(env.scaling - now)] + ([ScaleRuns.Decide(seen, last, desired)]
    + ApplySteps(env.scaling, at, env.recording, recorded))
  }

  /** Nobody but the pass changes the Deployment. */
  predicate Untouched(steps: seq<ScaleRuns.Step>) { forall i | 0 <= i < |steps| :: !steps[i].Change? }

  lemma ScaleStepsRun(w: ScaleRuns.World, seen: Option<Int32>, last: Option<Time>, desired: Int32,
                      env: Env, at: Time, recorded: bool, window: Time)
    requires w.pass.Free? && w.now <= env.scaling <= at <= env.recording
    requires NeedScale(env.scaling, Some(window), last, seen, desired)
    ensures var steps := ScaleSteps(w.now, seen, last, desired, env, at, recorded);
            && ScaleRuns.Run(w, steps, Some(window)) && (recorded ==> ScaleRuns.Lose !in steps) && Untouched(steps)
            && (ScaleRuns.Sighted(w, steps, window) <==>
                  (Unseen(w.replicas, seen, w.lastScale, last, desired) ==> ScaleRuns.Far(w.scales, at, window)))
            && ScaleRuns.After(w, steps, Some(window)) ==
               ScaleRuns.World(env.recording, Some(desired),
                               if recorded then Some(ToKubeTime(env.recording)) else w.lastScale, ScaleRuns.Free,
                               w.scales + [ScaleRuns.Scale(at, w.replicas, desired)])
  {
    var w2 := w.(now := env.scaling);
    var w3 := w2.(pass := ScaleRuns.Decided(seen, last, desired));
    assert w3 == ScaleRuns.Next(w2, ScaleRuns.Decide(seen, last, desired), Some(window));
    var rest := ApplySteps(env.scaling, at, env.recording, recorded);
    ApplyStepsRun(w3, at, env.recording, recorded, window);
    ScaleRuns.Prepend(w2, ScaleRuns.Decide(seen, last, desired), rest, window);
    ScaleRuns.Prepend(w, ScaleRuns.Tick(env.scaling - w.now), [ScaleRuns.Decide(seen, last, desired)] + rest, window);
  }

  /** A downscale of the live replicas that the caches do not show as one, or with another last scale. */
  predicate Unseen(live: Option<Int32>, seen: Option<Int32>, liveLast: Option<Time>, last: Option<Time>,
                   desired: Int32)
  {
    live.Some? && desired < live.value && !(seen.Some? && desired < seen.value && last == liveLast)
  }

  /** The time of the last scale that the server has for the Distcc. */
  function LiveLast(cl: Cluster, d: Distcc): Option<Time> {
    if d.name in cl.distccs then cl.distccs[d.name].lastScale else None
  }

  /** The cached Distcc may be of any age, but versions identify contents. */
  predicate Versioned(cl: Cluster, d: Distcc) {
    d.name in cl.distccs && cl.distccs[d.name].version == d.version ==> cl.distccs[d.name] == d
  }

  /** What a Sync does to the live time of the last scale. */
  lemma SyncRecordsScales(cl: Cluster, l: Listers, d: Distcc, env: Env)
    requires Versioned(cl, d)
    ensures var out := Sync(cl, l, d, env);
            && LiveLast(out.cluster, d) ==
               (if out.updates.scaled && out.err.None? then Some(ToKubeTime(env.recording)) else LiveLast(cl, d))
            && (out.updates.scaled && out.err.None? ==> d.lastScale == LiveLast(cl, d))
  {
    SyncDeploymentKeepsDistccs(cl, l, d, env);
    var first := SyncDeployment(cl, l, d, env);
    SyncServiceKeepsTheRest(first.cluster, l, d, env);
    var (cl', created, _) := SyncService(first.cluster, l, d, env);
    StatusRecordsScales(cl', d, env, first.updates.(serviceCreated := created));
  }

  lemma StatusRecordsScales(cl: Cluster, d: Distcc, env: Env, updates: Updates)
    requires Versioned(cl, d)
    ensures var (cl', err) := RecordStatus(cl, d, updates, env);
            && LiveLast(cl', d) ==
               (if updates.scaled && err.None? then Some(ToKubeTime(env.recording)) else LiveLast(cl, d))
            && (updates.scaled && err.None? ==> d.lastScale == LiveLast(cl, d))
  {
  }

  lemma ScaledSyncNeededIt(cl: Cluster, l: Listers, d: Distcc, env: Env)
    requires Sync(cl, l, d, env).updates.scaled
    ensures FoundDeployment(cl, l, d, env).Ok? && Wanted(d, l.claims, env).Ok?
    ensures var desired := Wanted(d, l.claims, env).value;
            && NeedScale(env.scaling, d.spec.window, d.lastScale, FoundDeployment(cl, l, d, env).value.1.replicas,
                         desired)
            && Replicas(Sync(cl, l, d, env).cluster, d) == Some(desired)
  {
    SyncKeepsItsDeployment(cl, l, d, env);
    ScaledDeploymentNeededIt(cl, l, d, env);
  }

  lemma ScaledDeploymentNeededIt(cl: Cluster, l: Listers, d: Distcc, env: Env)
    requires SyncDeployment(cl, l, d, env).updates.scaled
    ensures FoundDeployment(cl, l, d, env).Ok? && Wanted(d, l.claims, env).Ok?
    ensures var desired := Wanted(d, l.claims, env).value;
            && NeedScale(env.scaling, d.spec.window, d.lastScale, FoundDeployment(cl, l, d, env).value.1.replicas,
                         desired)
            && Replicas(SyncDeployment(cl, l, d, env).cluster, d) == Some(desired)
  {
  }

  /** The Sync scales the Deployment. */
  predicate Scales(cl: Cluster, l: Listers, d: Distcc, env: Env) {
    Sync(cl, l, d, env).updates.scaled && FoundDeployment(cl, l, d, env).Ok? && Wanted(d, l.claims, env).Ok?
  }

  /** The live replicas that a scaling Sync changes. */
  function Live(cl: Cluster, l: Listers, d: Distcc, env: Env): Option<Int32>
    requires FoundDeployment(cl, l, d, env).Ok?
  {
    Replicas(FoundDeployment(cl, l, d, env).value.0, d)
  }

  /** The scale that a Sync makes, if it makes one. */
  function ScalesOf(cl: Cluster, l: Listers, d: Distcc, env: Env, at: Time): seq<ScaleRuns.Scale> {
    if Scales(cl, l, d, env) then [ScaleRuns.Scale(at, Live(cl, l, d, env), Wanted(d, l.claims, env).value)] else []
  }

  /** The Sync lowers the live replicas although its caches show no downscale, or another last scale. */
  predicate ScalesBlindly(cl: Cluster, l: Listers, d: Distcc, env: Env) {
    && Scales(cl, l, d, env)
    && Unseen(Live(cl, l, d, env), FoundDeployment(cl, l, d, env).value.1.replicas, LiveLast(cl, d), d.lastScale,
              Wanted(d, l.claims, env).value)
  }

  /** The steps do to the world what the Sync does to the live Deployment and the live status. */
  ghost predicate Mirrors(steps: seq<ScaleRuns.Step>, w: ScaleRuns.World, cl: Cluster, l: Listers, d: Distcc, env: Env,
                          at: Time, window: Time)
  {
    var out := Sync(cl, l, d, env);
    && ScaleRuns.Run(w, steps, Some(window))
    && (var w' := ScaleRuns.After(w, steps, Some(window));
        && w'.pass.Free? && w'.now == env.recording
        && w'.replicas == Replicas(out.cluster, d) && w'.lastScale == LiveLast(out.cluster, d)
        && w'.scales == w.scales + ScalesOf(cl, l, d, env, at))
    && (ScaleRuns.Lose in steps ==> out.updates.scaled && out.err.Some?)
    && (d.spec.deploymentName in cl.deployments ==> Untouched(steps))
    && (ScaleRuns.Sighted(w, steps, window) <==>
          (ScalesBlindly(cl, l, d, env) ==> ScaleRuns.Far(w.scales, at, window)))
  }

  /** Every Sync, on whatever version of the Distcc it has cached, is a run of the scaling machine on the live
      Deployment and the live status.  It loses a status write only if it scales and fails after that, and
      the run is sighted exactly if the Sync does not scale blindly too soon.  The Deployment changes by
      nothing but that scale, unless it is created first. */
  lemma SyncIsAScaleRun(cl: Cluster, l: Listers, d: Distcc, env: Env, at: Time, w: ScaleRuns.World)
    returns (steps: seq<ScaleRuns.Step>)
    requires Versioned(cl, d) && d.spec.window.Some?
    requires w.pass.Free? && w.lastScale == LiveLast(cl, d) && w.replicas == Replicas(cl, d)
    requires w.now <= env.scaling <= at <= env.recording
    ensures Mirrors(steps, w, cl, l, d, env, at, d.spec.window.value)
  {
    SyncRecordsScales(cl, l, d, env);
    if Sync(cl, l, d, env).updates.scaled {
      steps := ScalingSyncIsARun(cl, l, d, env, at, w, d.spec.window.value);
    } else {
      steps := UnscaledRun(w, Replicas(Sync(cl, l, d, env).cluster, d), env.recording, d.spec.window.value);
      UnscaledIsLeft(cl, l, d, env);
      assert w.scales + [] == w.scales;
    }
  }

  lemma ScalingSyncIsARun(cl: Cluster, l: Listers, d: Distcc, env: Env, at: Time, w: ScaleRuns.World, window: Time)
    returns (steps: seq<ScaleRuns.Step>)
    requires Versioned(cl, d) && d.spec.window == Some(window) && Sync(cl, l, d, env).updates.scaled
    requires w.pass.Free? && w.lastScale == LiveLast(cl, d) && w.replicas == Replicas(cl, d)
    requires w.now <= env.scaling <= at <= env.recording
    ensures Mirrors(steps, w, cl, l, d, env, at, window)
  {
    SyncRecordsScales(cl, l, d, env);
    ScaledSyncNeededIt(cl, l, d, env);
    var seen, live := FoundDeployment(cl, l, d, env).value.1.replicas, Live(cl, l, d, env);
    var desired, recorded := Wanted(d, l.claims, env).value, Sync(cl, l, d, env).err.None?;
    var w1 := w.(replicas := live);
    ScaleStepsRun(w1, seen, d.lastScale, desired, env, at, recorded, window);
    steps := ScaleSteps(w.now, seen, d.lastScale, desired, env, at, recorded);
    if d.spec.deploymentName in cl.deployments {
      assert w1 == w;
    } else {
      ScaleRuns.Prepend(w, ScaleRuns.Change(live), steps, window);
      steps := [ScaleRuns.Change(live)] + steps;
    }
  }

  lemma UnscaledIsLeft(cl: Cluster, l: Listers, d: Distcc, env: Env)
    requires !Sync(cl, l, d, env).updates.scaled
    ensures d.spec.deploymentName in cl.deployments ==> Sync(cl, l, d, env).cluster.deployments == cl.deployments
  {
    SyncKeepsItsDeployment(cl, l, d, env);
  }

  /** Without a scale time passes, after the Deployment has been created if it was missing. */
  lemma UnscaledRun(w: ScaleRuns.World, replicas: Option<Int32>, end: Time, window: Time)
    returns (steps: seq<ScaleRuns.Step>)
    requires w.pass.Free? && w.now <= end
    ensures ScaleRuns.Run(w, steps, Some(window)) && ScaleRuns.Lose !in steps
    ensures ScaleRuns.Sighted(w, steps, window) && (replicas == w.replicas ==> Untouched(steps))
    ensures ScaleRuns.After(w, steps, Some(window)) == w.(now := end, replicas := replicas)
  {
    var w1 := w.(replicas := replicas);
    steps := [ScaleRuns.Tick(end - w.now)] + [];
    ScaleRuns.Prepend(w1, ScaleRuns.Tick(end - w.now), [], window);
    if replicas != w.replicas {
      ScaleRuns.Prepend(w, ScaleRuns.Change(replicas), steps, window);
      steps := [ScaleRuns.Change(replicas)] + steps;
    }
  }

  // ---------------------------------------------------------------- any number of Syncs

  /** One Sync of the same Distcc among others: the state it met and when it updated the Deployment. */
  datatype Occurrence = Occurrence(cl: Cluster, l: Listers, d: Distcc, env: Env, at: Time) {
    function Result(): Outcome { Sync(cl, l, d, env) }

    function Scales(): seq<ScaleRuns.Scale> { ScalesOf(cl, l, d, env, at) }

    predicate Blind() { ScalesBlindly(cl, l, d, env) }

    /** A Sync on any version of the Distcc, that records its scale if it makes one. */
    predicate Fine(window: Time) {
      && Versioned(cl, d) && d.spec.window == Some(window) && env.scaling <= at <= env.recording
      && (Result().updates.scaled ==> Result().err.None?)
    }

    /** The cache does not show other replicas than the live ones. */
    predicate SeesReplicas() {
      var name := d.spec.deploymentName;
      name in l.deployments && name in cl.deployments ==> l.deployments[name].replicas == cl.deployments[name].replicas
    }
  }

  /** Syncs of one Distcc, one after the other; in between everything may change but the time of its last
      scale and its downscale window. */
  predicate History(h: seq<Occurrence>, window: Time) {
    && (forall i | 0 <= i < |h| :: h[i].Fine(window))
    && (forall i | 0 <= i < |h| - 1 ::
          && h[i].env.recording <= h[i + 1].env.scaling
          && LiveLast(h[i + 1].cl, h[i + 1].d) == LiveLast(h[i].Result().cluster, h[i].d))
  }

  function AllScales(h: seq<Occurrence>): seq<ScaleRuns.Scale> {
    if h == [] then [] else AllScales(h[..|h| - 1]) + h[|h| - 1].Scales()
  }

  /** No Sync scales blindly while a scale is less than the window, less a second, ago. */
  predicate Sighted(h: seq<Occurrence>, window: Time) {
    h == [] ||
    var o, before := h[|h| - 1], h[..|h| - 1];
    Sighted(before, window) && (o.Blind() ==> ScaleRuns.Far(AllScales(before), o.at, window))
  }

  ghost predicate Tracks(w: ScaleRuns.World, h: seq<Occurrence>, window: Time)
    requires h != []
  {
    var last := h[|h| - 1];
    && ScaleRuns.Inv(w, window) && w.pass.Free? && w.scales == AllScales(h)
    && w.now == last.env.recording && w.lastScale == LiveLast(last.Result().cluster, last.d)
    && (ScaleRuns.Spaced(w.scales, window) <==> Sighted(h, window))
  }

  lemma {:induction false} HistoryIsTracked(h: seq<Occurrence>, window: Time)
    requires History(h, window) && h != []
    ensures exists w :: Tracks(w, h, window)
    decreases |h|
  {
    var o, before := h[|h| - 1], h[..|h| - 1];
    var w: ScaleRuns.World;
    if before == [] {
      w := ScaleRuns.World(o.env.scaling, Replicas(o.cl, o.d), LiveLast(o.cl, o.d), ScaleRuns.Free, []);
      assert AllScales(before) == [];
    } else {
      HistoryIsTracked(before, window);
      var w0 :| Tracks(w0, before, window);
      w := ScaleRuns.Next(w0, ScaleRuns.Change(Replicas(o.cl, o.d)), Some(window));
      ScaleRuns.StepKeepsInv(w0, ScaleRuns.Change(Replicas(o.cl, o.d)), window);
    }
    var steps := SyncIsAScaleRun(o.cl, o.l, o.d, o.env, o.at, w);
    ScaleRuns.RunKeepsInv(w, steps, window);
    ScaleRuns.SpacedExactly(w, steps, window);
    assert Tracks(ScaleRuns.After(w, steps, Some(window)), h, window);
  }

  /** Over any number of Syncs that record their scales, downscales of the live Deployment come more than
      the window less a second after every scale before them, exactly if no Sync scaled blindly sooner than
      that. */
  lemma SyncsSpaceDownscalesExactly(h: seq<Occurrence>, window: Time)
    requires History(h, window)
    ensures ScaleRuns.Spaced(AllScales(h), window) <==> Sighted(h, window)
  {
    if h != [] {
      HistoryIsTracked(h, window);
      var w :| Tracks(w, h, window);
    }
  }

  /** A scale that is recorded was decided on the live time of the last scale. */
  lemma CurrentReplicasAreSeen(cl: Cluster, l: Listers, d: Distcc, env: Env, at: Time, window: Time)
    requires Occurrence(cl, l, d, env, at).SeesReplicas() && Occurrence(cl, l, d, env, at).Fine(window)
    ensures !ScalesBlindly(cl, l, d, env)
  {
    SyncKeepsItsDeployment(cl, l, d, env);
    SyncRecordsScales(cl, l, d, env);
  }

  /** So they are spaced if the cache shows the live replicas to every Sync. */
  lemma SyncsSpaceDownscales(h: seq<Occurrence>, window: Time)
    requires History(h, window) && forall i | 0 <= i < |h| :: h[i].SeesReplicas()
    ensures ScaleRuns.Spaced(AllScales(h), window)
  {
    SyncsSpaceDownscalesExactly(h, window);
    CurrentHistoryIsSighted(h, window);
  }

  lemma {:induction false} CurrentHistoryIsSighted(h: seq<Occurrence>, window: Time)
    requires forall i | 0 <= i < |h| :: h[i].SeesReplicas() && h[i].Fine(window)
    ensures Sighted(h, window)
  {
    if h != [] {
      var o := h[|h| - 1];
      CurrentReplicasAreSeen(o.cl, o.l, o.d, o.env, o.at, window);
      CurrentHistoryIsSighted(h[..|h| - 1], window);
    }
  }

  // ---------------------------------------------------------------- a stale Deployment

  /** A Distcc that wants `replicas`, whoever holds a claim. */
  function Wanting(replicas: Int32, window: Time, lastScale: Option<Time>, version: nat): Distcc {
    var spec := Spec("deploy", "service", None, Limits(Some(replicas), replicas, 0), 0, Some(window));
    Distcc("distcc", 0, version, map[], spec, lastScale, lastScale)
  }

  /** A cluster of that Distcc alone, with a Deployment of so many replicas. */
  function Running(d: Distcc, replicas: Int32): Cluster {
    var distccs := map["distcc" := d];
    Cluster(map["deploy" := NewDeployment(d, Some(replicas))], map["service" := NewService(d)], distccs, d.version + 1)
  }

  /** Somebody lowers the replicas that the Distcc wants to five. */
  function Edited(cl: Cluster): Cluster
    requires "distcc" in cl.distccs
  {
    var d := cl.distccs["distcc"];
    var spec := d.spec.(limits := Limits(Some(5), 5, 0));
    cl.(distccs := cl.distccs["distcc" := d.(spec := spec, version := cl.next)], next := cl.next + 1)
  }

  /** A Sync at time 0 without failures, whose Deployment lister still shows three replicas. */
  function LateCache(d: Distcc, replicas: Int32): Occurrence {
    var stale := Running(d, 3);
    var env := Env(0, 0, 0, None, None, None, None, None, None, None, None);
    Occurrence(Running(d, replicas), Listers(stale.deployments, stale.services, []), d, env, 0)
  }

  /** Without the live replicas the property fails although every Sync succeeds on a current Distcc and
      records its scale: a lister that goes on showing three replicas hides that ten become five. */
  lemma StaleDeploymentBreaksSpacing(window: Time)
    requires window >= SECOND
    ensures var h := [LateCache(Wanting(10, window, None, 0), 3), LateCache(Wanting(5, window, Some(0), 2), 10)];
            && History(h, window)
            && "distcc" in h[0].Result().cluster.distccs && h[1].cl == Edited(h[0].Result().cluster)
            && h[0].SeesReplicas() && h[1].Blind() && !ScaleRuns.Spaced(AllScales(h), window)
  {
    var o1, o2 := LateCache(Wanting(10, window, None, 0), 3), LateCache(Wanting(5, window, Some(0), 2), 10);
    LateSyncScales(10, window, None, 0, 3);
    LateSyncScales(5, window, Some(0), 2, 10);
    TwoSyncsAreAHistory(o1, o2, window);
    TwoScalesAreNotSpaced(o1, o2, window);
  }

  lemma TwoSyncsAreAHistory(o1: Occurrence, o2: Occurrence, window: Time)
    requires o1.Fine(window) && o2.Fine(window) && o1.env.recording <= o2.env.scaling
    requires LiveLast(o2.cl, o2.d) == LiveLast(o1.Result().cluster, o1.d)
    ensures History([o1, o2], window)
  {
  }

  lemma TwoScalesAreNotSpaced(o1: Occurrence, o2: Occurrence, window: Time)
    requires window >= SECOND && o1.Scales() == [ScaleRuns.Scale(0, Some(3), 10)]
    requires o2.Scales() == [ScaleRuns.Scale(0, Some(10), 5)]
    ensures !ScaleRuns.Spaced(AllScales([o1, o2]), window)
  {
    var h := [o1, o2];
    assert h[..1] == [o1] && [o1][..0] == [];
    assert AllScales([o1]) == [] + o1.Scales();
    assert AllScales(h) == [ScaleRuns.Scale(0, Some(3), 10), ScaleRuns.Scale(0, Some(10), 5)];
    assert ScaleRuns.Lowers(AllScales(h)[1]) && AllScales(h)[1].at - AllScales(h)[0].at == 0;
  }

  lemma LateSyncScales(wanted: Int32, window: Time, lastScale: Option<Time>, version: nat, live: Int32)
    requires wanted > 3
    ensures var o := LateCache(Wanting(wanted, window, lastScale, version), live);
            && o.Fine(window) && o.Scales() == [ScaleRuns.Scale(0, Some(live), wanted)]
            && (o.Blind() <==> wanted < live) && (o.SeesReplicas() <==> live == 3)
            && o.Result().cluster == Running(Wanting(wanted, window, Some(0), version + 1), wanted)
  {
    var o := LateCache(Wanting(wanted, window, lastScale, version), live);
    assert Wanted(o.d, [], o.env) == Ok(wanted);
    SyncKeepsItsDeployment(o.cl, o.l, o.d, o.env);
    SyncRecordsScales(o.cl, o.l, o.d, o.env);
  }

  // ---------------------------------------------------------------- the objects and the controller

  class DistccObject {
    const name: string
    const uid: Uid
    const labels: Labels
    const spec: Spec
    var version: nat
    var lastUpdateTime: TimeCell?
    var lastScaleTime: TimeCell?

    constructor (name: string, uid: Uid, version: nat, labels: Labels, spec: Spec)
      ensures this.name == name && this.uid == uid && this.version == version && this.labels == labels
              && this.spec == spec
      ensures lastUpdateTime == null && lastScaleTime == null
    {
      this.name, this.uid, this.version, this.labels, this.spec := name, uid, version, labels, spec;
      lastUpdateTime, lastScaleTime := null, null;
    }

    /** What the object says on the wire. */
    function Value(): Distcc
      reads this, lastUpdateTime, lastScaleTime
    {
      Distcc(name, uid, version, labels, spec, At(lastUpdateTime), At(lastScaleTime))
    }

    /** DeepCopy: an equal object that shares no cell with this one. */
    method DeepCopy() returns (out: DistccObject)
      ensures fresh(out) && out.Value() == Value()
      ensures out.lastUpdateTime != null ==> fresh(out.lastUpdateTime)
      ensures out.lastScaleTime != null ==> fresh(out.lastScaleTime)
    {
      out := new DistccObject(name, uid, version, labels, spec);
      if lastUpdateTime != null {
        out.lastUpdateTime := new TimeCell(lastUpdateTime.time);
      }
      if lastScaleTime != null {
        out.lastScaleTime := new TimeCell(lastScaleTime.time);
      }
    }
  }

  class ApiServer {
    var deployments: map<string, Deployment>
    var services: map<string, Service>
    var distccs: map<string, Distcc>
    var next: nat

    constructor ()
      ensures State() == Cluster(map[], map[], map[], 0)
    {
      deployments, services, distccs, next := map[], map[], map[], 0;
    }

    function State(): Cluster
      reads this
    {
      Cluster(deployments, services, distccs, next)
    }

    method CreateDeployment(name: string, d: Deployment, fault: Option<Error>, default: Option<Int32>)
      returns (res: Result<Deployment, Error>)
      modifies this
      ensures match DistccSync.CreateDeployment(old(State()), name, d, fault, default)
              case Err(e) => res == Err(e) && State() == old(State())
              case Ok(cl) => State() == cl && res == Ok(cl.deployments[name])
    {
      if fault.Some? { return Err(fault.value); }
      if name in deployments { return Err(Status(AlreadyExists)); }
      var stored := if d.replicas.None? then d.(replicas := default) else d;
      deployments := deployments[name := stored];
      return Ok(stored);
    }

    method UpdateDeployment(name: string, d: Deployment, fault: Option<Error>) returns (err: Option<Error>)
      modifies this
      ensures match DistccSync.UpdateDeployment(old(State()), name, d, fault)
              case Err(e) => err == Some(e) && State() == old(State())
              case Ok(cl) => err == None && State() == cl
    {
      if fault.Some? { return fault; }
      if name !in deployments { return Some(Status(NotFound)); }
      deployments := deployments[name := d];
      return None;
    }

    method CreateService(name: string, s: Service, fault: Option<Error>) returns (err: Option<Error>)
      modifies this
      ensures match DistccSync.CreateService(old(State()), name, s, fault)
              case Err(e) => err == Some(e) && State() == old(State())
              case Ok(cl) => err == None && State() == cl
    {
      if fault.Some? { return fault; }
      if name in services { return Some(Status(AlreadyExists)); }
      services := services[name := s];
      return None;
    }

    method UpdateDistcc(d: DistccObject, fault: Option<Error>) returns (err: Option<Error>)
      modifies this
      ensures match DistccSync.UpdateDistcc(old(State()), d.Value(), fault)
              case Err(e) => err == Some(e) && State() == old(State())
              case Ok(cl) => err == None && State() == cl
    {
      if fault.Some? { return fault; }
      if d.name !in distccs { return Some(Status(NotFound)); }
      if distccs[d.name].version != d.version { return Some(Status(Conflict)); }
      distccs := distccs[d.name := d.Value().(version := next)];
      next := next + 1;
      return None;
    }
  }

  class Controller {
    const api: ApiServer
    var listers: Listers

    constructor (api: ApiServer, listers: Listers)
      ensures this.api == api && this.listers == listers
    {
      this.api, this.listers := api, listers;
    }

    /** Only the API server changes: the Distcc comes from the cache and is left alone, cells included. */
    method Sync(distcc: DistccObject, env: Env) returns (updated: bool, err: Option<Error>)
      modifies api
      ensures var out := DistccSync.Sync(old(api.State()), listers, distcc.Value(), env);
              api.State() == out.cluster && updated == out.updates.Any() && err == out.err
    {
      var update, failure := SyncDeployment(distcc, env);
      if failure.Some? { return update.Any(), failure; }
      var created;
      created, failure := SyncService(distcc, env);
      update := update.(serviceCreated := created);
      if failure.Some? { return update.Any(), failure; }
      failure := UpdateDistccStatus(distcc, update, env);
      return update.Any(), failure;
    }

    method SyncDeployment(distcc: DistccObject, env: Env) returns (state: Updates, err: Option<Error>)
      modifies api
      ensures DistccSync.SyncDeployment(old(api.State()), listers, distcc.Value(), env)
              == Outcome(api.State(), state, err)
    {
      state := UNCHANGED;
      var d := distcc.Value();
      var deployName := distcc.spec.deploymentName;
      if deployName == "" { return state, Some(NO_DEPLOYMENT_NAME); }

      var deploy: Deployment;
      var found: Option<Error> :=
        if env.getDeployment.Some? then env.getDeployment
        else if deployName !in listers.deployments then Some(Status(NotFound)) else None;
      if found.Some? && IsNotFound(found.value) {
        state := state.(created := true);
        var res := api.CreateDeployment(deployName, NewDeployment(d, None), env.createDeployment, env.defaultReplicas);
        if res.Err? { return state, Some(Transient(res.error)); }
        deploy := res.value;
      } else if found.Some? {
        return state, Some(Transient(found.value));
      } else {
        deploy := listers.deployments[deployName];
      }

      if deploy.owner != Some(distcc.uid) { return state, Some(Foreign(deployName)); }
      var desired := DesiredReplicas(distcc, env);
      if desired.Err? { return state, Some(Wrap(desired.error, "cannot determine desired replicas for distcc")); }
      if NeedScale(env.scaling, distcc.spec.window, At(distcc.lastScaleTime), deploy.replicas, desired.value) {
        var failure := api.UpdateDeployment(deployName, NewDeployment(d, Some(desired.value)), env.updateDeployment);
        if failure.Some? { return state, Some(Transient(failure.value)); }
        state := state.(scaled := true);
      }
      return state, None;
    }

    method DesiredReplicas(distcc: DistccObject, env: Env) returns (desired: Result<Int32, Error>)
      ensures desired == Wanted(distcc.Value(), listers.claims, env)
    {
      var maxExpiration := env.counting + distcc.spec.lease;
      var selector := AsSelector(distcc.spec.selector);
      if selector.Err? { return Err(selector.error); }
      if env.listClaims.Some? { return Err(Transient(env.listClaims.value)); }
      var replicas := CountReplicas(distcc.spec.limits, Listed(listers.claims, selector.value), maxExpiration);
      return Ok(replicas);
    }

    method SyncService(distcc: DistccObject, env: Env) returns (created: bool, err: Option<Error>)
      modifies api
      ensures DistccSync.SyncService(old(api.State()), listers, distcc.Value(), env) == (api.State(), created, err)
    {
      created := false;
      var serviceName := distcc.spec.serviceName;
      if serviceName == "" { return created, Some(NO_SERVICE_NAME); }
      var found: Option<Error> :=
        if env.getService.Some? then env.getService
        else if serviceName !in listers.services then Some(Status(NotFound)) else None;
      if found.Some? && IsNotFound(found.value) {
        created := true;
        var failure := api.CreateService(serviceName, NewService(distcc.Value()), env.createService);
        return created, TransientError(failure);
      }
      if found.Some? { return created, Some(Transient(found.value)); }
      if listers.services[serviceName].owner != Some(distcc.uid) { return created, Some(Foreign(serviceName)); }
      return created, None;
    }

    method UpdateDistccStatus(distcc: DistccObject, updated: Updates, env: Env) returns (err: Option<Error>)
      modifies api
      ensures RecordStatus(old(api.State()), distcc.Value(), updated, env) == (api.State(), err)
    {
      if !updated.Any() { return None; }
      var distccCopy := distcc.DeepCopy();
      var now := new TimeCell(ToKubeTime(env.recording));
      distccCopy.lastUpdateTime := now;
      if updated.scaled {
        distccCopy.lastScaleTime := now;
      }
      err := api.UpdateDistcc(distccCopy, env.updateStatus);
    }
  }
}
