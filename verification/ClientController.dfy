/** Client claims and their Deployments and Services on the API server, over one namespace. */
module ClientSync {
  import opened Prelude
  import opened KubeTime
  import opened Expiration
  import opened Errors
  import opened Labels
  import opened Resolver

  datatype Secret = Secret(name: string, secretName: string, mode: int)

  datatype Claim = Claim(
    name: string, uid: Uid, version: nat, clientName: string, userName: string, secrets: seq<Secret>,
    expiration: Option<Time>, deployment: Option<string>, service: Option<string>)

  /** What the controller reads of a DistccClient. */
  datatype Client = Client(labels: Labels, lease: Time)

  type Objects = map<string, Object>

  datatype Cluster = Cluster(claims: map<string, Claim>, deployments: Objects, services: Objects, next: nat)

  datatype Listers = Listers(clients: map<string, Client>, deployments: Lister, services: Lister)

  /** Clock readings of updateExpiration and isExpired, failures of the DistccClient lookup and of the
      calls, and the names that the server generates for what is created, or its refusal. */
  datatype Env = Env(
    stamping: Time,
    testing: Time,
    getClient: Option<Error>,
    delete: Option<Error>,
    update: Option<Error>,
    createDeployment: Result<string, Error>,
    createService: Result<string, Error>)

  datatype Outcome = Outcome(cluster: Cluster, updated: bool, err: Option<Error>)

  const NO_CLIENT_NAME: string := "spec.distccClientName must be specified"
  const BAD_CLIENT_REF: string := "spec.distccClientName points to a non existing object"
  const AMBIGUOUS_LABELS: string := "ref resolution failed"

  function Failed(reason: string, message: string): Error { Eventful(Plain(message), Event(reason, message)) }

  function Foreign(name: string): Error { Failed("ErrResourceExists", "resource exists: " + name) }

  /** The name that a Create of an object with a generated name ends up with. */
  function Created(objects: Objects, generated: Result<string, Error>): Result<string, Error> {
    if generated.Ok? && generated.value in objects then Err(Status(AlreadyExists)) else generated
  }

  datatype Part = Part(objects: Objects, ref: Option<string>, changed: bool, err: Option<Error>)

  /** What syncDeploy and syncService alike make of one kind of object. */
  function SyncPart(objects: Objects, l: Lister, ref: Option<string>, uid: Uid, labels: Labels,
                    generated: Result<string, Error>): Part
  {
    PartFrom(Resolve(l, ref, SetSelector(labels)), objects, ref, uid, labels, generated)
  }

  /** With what the lookups have found. */
  function PartFrom(found: Result<Option<Object>, Error>, objects: Objects, ref: Option<string>, uid: Uid,
                    labels: Labels, generated: Result<string, Error>): Part
  {
    match found
    case Err(e) =>
      Part(objects, ref, false, Some(if IsAmbiguousReference(e) then Failed("ErrAmbiguousMatch", AMBIGUOUS_LABELS)
                                     else e))
    case Ok(Some(o)) =>
      if o.owner != Some(uid) then Part(objects, ref, false, Some(Foreign(o.name)))
      else Part(objects, Reference(o.name), ref != Reference(o.name), None)
    case Ok(None) =>
      match Created(objects, generated)
      case Err(e) => Part(objects, ref, false, Some(Transient(e)))
      case Ok(name) =>
        Part(objects[name := Object(name, labels, Some(uid))], Reference(name), ref != Reference(name), None)
  }

  /** A nameless object leaves no reference. */
  function Reference(name: string): Option<string> { if name == "" then None else Some(name) }

  function DeleteClaim(cl: Cluster, name: string, fault: Option<Error>): Result<Cluster, Error> {
    if fault.Some? then Err(fault.value)
    else if name !in cl.claims then Err(Status(NotFound))
    else Ok(cl.(claims := cl.claims - {name}))
  }

  function UpdateClaim(cl: Cluster, c: Claim, fault: Option<Error>): Result<Cluster, Error> {
    if fault.Some? then Err(fault.value)
    else if c.name !in cl.claims then Err(Status(NotFound))
    else if cl.claims[c.name].version != c.version then Err(Status(Conflict))
    else Ok(cl.(claims := cl.claims[c.name := c.(version := cl.next)], next := cl.next + 1))
  }

  /** The DistccClient that a claim refers to, or why there is none. */
  function ClientOf(l: Listers, c: Claim, env: Env): Result<Client, Error> {
    if c.clientName == "" then Err(Failed("ErrClientNotSpecified", NO_CLIENT_NAME))
    else if env.getClient.Some? then
      Err(if IsNotFound(env.getClient.value) then Failed("ErrClientRefInvalid", BAD_CLIENT_REF)
          else Transient(env.getClient.value))
    else if c.clientName !in l.clients then Err(Failed("ErrClientRefInvalid", BAD_CLIENT_REF))
    else Ok(l.clients[c.clientName])
  }

  /** The second half of Sync, on the copy whose expiration has been updated, if it was `due`. */
  function SyncObjects(cl: Cluster, deployments: Lister, services: Lister, c: Claim, labels: Labels,
                       due: bool, env: Env): Outcome
  {
    var d := SyncPart(cl.deployments, deployments, c.deployment, c.uid, labels, env.createDeployment);
    var s := SyncPart(cl.services, services, c.service, c.uid, labels, env.createService);
    Combined(cl, d, s, c, due, env)
  }

  /** The Service comes only after the Deployment, and the write only after both. */
  function Combined(cl: Cluster, d: Part, s: Part, c: Claim, due: bool, env: Env): Outcome {
    var cl1 := cl.(deployments := d.objects);
    if d.err.Some? then Outcome(cl1, due, d.err)
    else
      var cl2 := cl1.(services := s.objects);
      if s.err.Some? then Outcome(cl2, due || d.changed, s.err)
      else Written(cl2, c.(deployment := d.ref, service := s.ref), due || d.changed || s.changed, env)
  }

  /** The claim is written back if anything about it has changed. */
  function Written(cl: Cluster, c: Claim, changed: bool, env: Env): Outcome {
    if !changed then Outcome(cl, false, None)
    else
      match UpdateClaim(cl, c, env.update)
      case Err(err) => Outcome(cl, true, Some(Transient(err)))
      case Ok(cl') => Outcome(cl', true, None)
  }

  /** What Sync does once it has the client of the claim. */
  function SyncFor(cl: Cluster, deployments: Lister, services: Lister, c: Claim, client: Client, env: Env): Outcome {
    var e := Updated(c.expiration, env.stamping, client.lease);
    if Expired(e, env.testing) then
      match DeleteClaim(cl, c.name, env.delete)
      case Err(err) => Outcome(cl, false, Some(Transient(err)))
      case Ok(cl') => Outcome(cl', false, None)
    else
      var due := Due(c.expiration, env.stamping, client.lease);
      var copy := c.(expiration := Some(e));
      SyncObjects(cl, deployments, services, copy, UserLabels(client.labels, c.userName), due, env)
  }

  /** Sync as a function of the cluster, the caches, the cached claim and the environment. */
  function Sync(cl: Cluster, l: Listers, c: Claim, env: Env): Outcome {
    match ClientOf(l, c, env)
    case Err(e) => Outcome(cl, false, Some(e))
    case Ok(client) => SyncFor(cl, l.deployments, l.services, c, client, env)
  }

  // ---------------------------------------------------------------- what Sync achieves

  /** The lister shows exactly the live objects. */
  ghost predicate Shows(l: Lister, objects: Objects) {
    && l.get.None? && l.list.None? && Distinct(l.objects)
    && (forall o | o in l.objects :: o.name in objects && objects[o.name] == o)
    && (forall n | n in objects :: objects[n].name == n && objects[n] in l.objects)
  }

  /** The reference names a live object that the claim controls. */
  predicate Linked(objects: Objects, ref: Option<string>, uid: Uid) {
    ref.Some? && ref.value in objects && objects[ref.value].owner == Some(uid)
  }

  ghost predicate ProperNames(objects: Objects, generated: Result<string, Error>) {
    "" !in objects && (generated.Ok? ==> generated.value != "")
  }

  lemma PartConverges(objects: Objects, l: Lister, ref: Option<string>, uid: Uid, labels: Labels,
                      generated: Result<string, Error>)
    requires Shows(l, objects) && ProperNames(objects, generated)
    requires SyncPart(objects, l, ref, uid, labels, generated).err.None?
    ensures var p := SyncPart(objects, l, ref, uid, labels, generated);
            && Linked(p.objects, p.ref, uid) && (p.changed <==> p.ref != ref)
            && "" !in p.objects
            && (forall n | n in objects :: n in p.objects && p.objects[n] == objects[n])
            && (forall n | n in p.objects && n !in objects :: p.ref == Some(n))
  {
    var found := Resolve(l, ref, SetSelector(labels));
    if found.value.Some? { ResolvedIsThere(l, ref, SetSelector(labels), found.value.value); }
  }

  /** There is no object that the reference names or that the selector matches. */
  ghost predicate NothingThere(objects: Objects, ref: Option<string>, s: Selector) {
    !(ref.Some? && ref.value in objects) && forall n | n in objects :: !Matches(s, objects[n].labels)
  }

  ghost predicate OnlyMatch(objects: Objects, s: Selector, n: string) {
    n in objects && Matches(s, objects[n].labels) && forall m | m in objects && Matches(s, objects[m].labels) :: m == n
  }

  /** The claim can be given an object: its reference names one of its own, or the only match is its own, or
      there is nothing and one can be created. */
  ghost predicate Attainable(objects: Objects, ref: Option<string>, uid: Uid, s: Selector, generated: Result<string,
                             Error>) {
    if ref.Some? && ref.value in objects then objects[ref.value].owner == Some(uid)
    else if NothingThere(objects, ref, s) then generated.Ok? && generated.value !in objects
    else exists n :: OnlyMatch(objects, s, n) && objects[n].owner == Some(uid)
  }

  /** The error is transient where nothing is there, and carries an event where something is. */
  ghost predicate ErrorFits(objects: Objects, ref: Option<string>, s: Selector, e: Error) {
    && (IsTransient(e) <==> NothingThere(objects, ref, s))
    && (HasEvent(e).Some? <==> !NothingThere(objects, ref, s))
  }

  /** On a current cache, syncing one kind of object succeeds exactly if the claim can be given an object.
      Otherwise the error is transient if the object could not be created, and carries an event if there is
      one that is foreign, or several. */
  lemma PartSucceedsExactly(objects: Objects, l: Lister, ref: Option<string>, uid: Uid, labels: Labels,
                            generated: Result<string, Error>)
    requires Shows(l, objects)
    ensures var p, s := SyncPart(objects, l, ref, uid, labels, generated), SetSelector(labels);
            && (p.err.None? <==> Attainable(objects, ref, uid, s, generated))
            && (p.err.Some? ==> ErrorFits(objects, ref, s, p.err.value))
  {
    if ref.Some? && ref.value in objects {
      ReferenceResolves(objects, l, ref, SetSelector(labels));
    } else {
      UnreferencedSucceedsExactly(objects, l, ref, uid, labels, generated);
    }
  }

  lemma UnreferencedSucceedsExactly(objects: Objects, l: Lister, ref: Option<string>, uid: Uid, labels: Labels,
                                    generated: Result<string, Error>)
    requires Shows(l, objects) && !(ref.Some? && ref.value in objects)
    ensures var p, s := SyncPart(objects, l, ref, uid, labels, generated), SetSelector(labels);
            && (p.err.None? <==> Attainable(objects, ref, uid, s, generated))
            && (p.err.Some? ==> ErrorFits(objects, ref, s, p.err.value))
  {
    LabelsResolve(objects, l, ref, SetSelector(labels));
    FoundSucceedsExactly(Resolve(l, ref, SetSelector(labels)), objects, ref, uid, labels, generated);
  }

  lemma FoundSucceedsExactly(found: Result<Option<Object>, Error>, objects: Objects, ref: Option<string>, uid: Uid,
                             labels: Labels, generated: Result<string, Error>)
    requires !(ref.Some? && ref.value in objects)
    requires var s := SetSelector(labels);
             && (found == Ok(None) <==> NothingThere(objects, ref, s))
             && match found
                case Ok(None) => true
                case Ok(Some(o)) => OnlyMatch(objects, s, o.name) && objects[o.name] == o
                case Err(e) => e == AMBIGUOUS && forall n :: !OnlyMatch(objects, s, n)
    ensures var p, s := PartFrom(found, objects, ref, uid, labels, generated), SetSelector(labels);
            && (p.err.None? <==> Attainable(objects, ref, uid, s, generated))
            && (p.err.Some? ==> ErrorFits(objects, ref, s, p.err.value))
  {
  }

  lemma ReferenceResolves(objects: Objects, l: Lister, ref: Option<string>, s: Selector)
    requires Shows(l, objects) && ref.Some? && ref.value in objects
    ensures Resolve(l, ref, s) == Ok(Some(objects[ref.value]))
  {
    ByNameFinds(l.objects, ref.value);
    assert objects[ref.value] in l.objects;
  }

  /** A missing or dangling reference leaves it to the labels. */
  lemma LabelsResolve(objects: Objects, l: Lister, ref: Option<string>, s: Selector)
    requires Shows(l, objects) && !(ref.Some? && ref.value in objects)
    ensures Resolve(l, ref, s) == Ok(None) <==> NothingThere(objects, ref, s)
    ensures forall n :: OnlyMatch(objects, s, n) ==> Resolve(l, ref, s) == Ok(Some(objects[n]))
    ensures match Resolve(l, ref, s)
            case Ok(None) => true
            case Ok(Some(o)) => OnlyMatch(objects, s, o.name) && objects[o.name] == o
            case Err(e) => e == AMBIGUOUS && forall n :: !OnlyMatch(objects, s, n)
  {
    if ref.Some? { ByNameFinds(l.objects, ref.value); }
    assert Resolve(l, ref, s) == FromLabels(l, s);
    FromLabelsExactly(l, s);
    assert forall n | n in objects :: objects[n] in l.objects;
    match FromLabels(l, s) {
      case Ok(None) =>
      case Ok(Some(o)) => assert o in l.objects;
      case Err(_) =>
        var o, p :| o in l.objects && p in l.objects && o.name != p.name && Matches(s, o.labels)
            && Matches(s, p.labels);
        assert o.name in objects && p.name in objects;
    }
  }

  /** A lookup of the reference that fails makes the part fail transiently and changes nothing, unless it
      fails by reporting that there is nothing: then it is as if there were no reference. */
  lemma FailingGetExactly(objects: Objects, l: Lister, ref: Option<string>, uid: Uid, labels: Labels,
                          generated: Result<string, Error>)
    requires ref.Some? && l.get.Some?
    ensures var p := SyncPart(objects, l, ref, uid, labels, generated);
            var without := SyncPart(objects, l, None, uid, labels, generated);
            if IsNotFound(l.get.value)
            then p.objects == without.objects && p.err == without.err && (p.err.None? ==> p.ref == without.ref)
            else p.objects == objects && p.ref == ref && !p.changed && p.err.Some? && IsTransient(p.err.value)
  {
  }

  /** Where the reference leads to nothing, a listing that fails makes the part fail transiently and changes
      nothing, unless it fails by reporting that there is nothing: then an object is created. */
  lemma FailingListExactly(objects: Objects, l: Lister, ref: Option<string>, uid: Uid, labels: Labels,
                           generated: Result<string, Error>)
    requires l.list.Some? && l.get.None? && (ref.Some? ==> forall o | o in l.objects :: o.name != ref.value)
    ensures var p := SyncPart(objects, l, ref, uid, labels, generated);
            && (p.err.None? <==> IsNotFound(l.list.value) && generated.Ok? && generated.value !in objects)
            && (p.err.Some? ==> IsTransient(p.err.value) && p.objects == objects && p.ref == ref && !p.changed)
  {
    if ref.Some? { ByNameFinds(l.objects, ref.value); }
  }

  /** A reference always has a name. */
  lemma ReferencesHaveNames(objects: Objects, l: Lister, ref: Option<string>, uid: Uid, labels: Labels,
                            generated: Result<string, Error>)
    requires SyncPart(objects, l, ref, uid, labels, generated).err.None?
    ensures SyncPart(objects, l, ref, uid, labels, generated).ref != Some("")
  {
  }

  /** A user whose labels are not valid finds everybody's objects, but is given none of them: as long as
      others have any, the claim gets neither a reference nor an object, and an event says why. */
  lemma InvalidUserIsRefused(objects: Objects, l: Lister, uid: Uid, labels: Labels, generated: Result<string, Error>)
    requires !ValidSet(labels) && l.list.None? && l.objects != []
    requires forall o | o in l.objects :: o.owner != Some(uid)
    ensures var p := SyncPart(objects, l, None, uid, labels, generated);
            p.objects == objects && p.ref.None? && p.err.Some? && HasEvent(p.err.value).Some?
  {
    var found := BySelector(l.objects, SetSelector(labels));
    BySelectorIsTheMatches(l.objects, SetSelector(labels));
    assert l.objects[0] in found;
    assert found[0] in found;
  }

  /** An object that is linked already is found through its reference, and nothing happens. */
  lemma LinkedPartIsStable(objects: Objects, l: Lister, ref: Option<string>, uid: Uid, labels: Labels,
                           generated: Result<string, Error>)
    requires Shows(l, objects) && Linked(objects, ref, uid) && "" !in objects
    ensures SyncPart(objects, l, ref, uid, labels, generated) == Part(objects, ref, false, None)
  {
    ByNameFinds(l.objects, ref.value);
    assert objects[ref.value] in l.objects;
  }

  /** The cluster keeps all its objects and claims, except that claim `c` now says `c'`. */
  ghost predicate KeepsTheRest(cl: Cluster, cl': Cluster, c: Claim, c': Claim) {
    && c' == c.(version := c'.version, expiration := c'.expiration, deployment := c'.deployment, service := c'.service)
    && cl'.claims == cl.claims[c.name := c']
    && (forall n | n in cl.deployments :: n in cl'.deployments && cl'.deployments[n] == cl.deployments[n])
    && (forall n | n in cl.services :: n in cl'.services && cl'.services[n] == cl.services[n])
    && "" !in cl'.deployments && "" !in cl'.services
  }

  lemma SyncObjectsConverges(cl: Cluster, l: Listers, c: Claim, labels: Labels, e: Time, due: bool, env: Env)
    requires Shows(l.deployments, cl.deployments) && Shows(l.services, cl.services)
    requires ProperNames(cl.deployments, env.createDeployment) && ProperNames(cl.services, env.createService)
    requires c.name in cl.claims && cl.claims[c.name] == c && (!due ==> c.expiration == Some(e))
    requires SyncObjects(cl, l.deployments, l.services, c.(expiration := Some(e)), labels, due, env).err.None?
    ensures var cl' := SyncObjects(cl, l.deployments, l.services, c.(expiration := Some(e)), labels, due, env).cluster;
            && c.name in cl'.claims
            && var c' := cl'.claims[c.name];
            && Linked(cl'.deployments, c'.deployment, c.uid) && Linked(cl'.services, c'.service, c.uid)
            && c'.expiration == Some(e) && KeepsTheRest(cl, cl', c, c')
  {
    PartConverges(cl.deployments, l.deployments, c.deployment, c.uid, labels, env.createDeployment);
    PartConverges(cl.services, l.services, c.service, c.uid, labels, env.createService);
  }

  /** From any state, dangling or missing references included: a Sync on current caches that succeeds
      and does not delete the claim leaves both references naming live objects that the claim controls,
      with an expiration within the lease.  It changes no other claim and no existing object. */
  lemma SyncConverges(cl: Cluster, l: Listers, c: Claim, env: Env)
    requires Shows(l.deployments, cl.deployments) && Shows(l.services, cl.services)
    requires ProperNames(cl.deployments, env.createDeployment) && ProperNames(cl.services, env.createService)
    requires c.name in cl.claims && cl.claims[c.name] == c
    requires Sync(cl, l, c, env).err.None? && c.name in Sync(cl, l, c, env).cluster.claims
    ensures ClientOf(l, c, env).Ok?
    ensures var cl' := Sync(cl, l, c, env).cluster;
            var c' := cl'.claims[c.name];
            && Linked(cl'.deployments, c'.deployment, c.uid) && Linked(cl'.services, c'.service, c.uid)
            && c'.expiration.Some? && c'.expiration.value <= env.stamping + ClientOf(l, c, env).value.lease
            && !Expired(c'.expiration.value, env.testing)
            && KeepsTheRest(cl, cl', c, c')
  {
    var client := ClientOf(l, c, env).value;
    var e, due := Updated(c.expiration, env.stamping, client.lease), Due(c.expiration, env.stamping, client.lease);
    assert !Expired(e, env.testing);
    SyncObjectsConverges(cl, l, c, UserLabels(client.labels, c.userName), e, due, env);
  }

  /** What a Sync of a current claim does to the claim.  As long as the test follows the stamp by no more than
      a lease less a second, it deletes exactly the claims whose expiration is set and past at the test.
      Otherwise, if it succeeds, an expiration within the lease stays, any other becomes the stored form of a
      full lease, and the claim is written exactly if that or a reference has changed. */
  lemma SyncDecides(cl: Cluster, l: Listers, c: Claim, env: Env)
    requires c.name in cl.claims && cl.claims[c.name] == c && ClientOf(l, c, env).Ok? && env.delete.None?
    requires env.stamping <= env.testing
    ensures var out, lease := Sync(cl, l, c, env), ClientOf(l, c, env).value.lease;
            && (c.name !in out.cluster.claims <==> Lapsed(c.expiration, env.stamping, env.testing, lease))
            && (c.name !in out.cluster.claims ==>
                  out == Outcome(cl.(claims := cl.claims - {c.name}), false, None))
            && (env.testing <= env.stamping + lease - SECOND ==>
                  (c.name !in out.cluster.claims <==> c.expiration.Some? && c.expiration.value < env.testing))
            && (out.err.None? && c.name in out.cluster.claims ==>
                  var c' := out.cluster.claims[c.name];
                  && c'.expiration == (if Kept(c.expiration, env.stamping, lease) then c.expiration
                                       else Some(ToKubeTime(env.stamping + lease)))
                  && (out.updated <==> c'.(version := c.version) != c) && (out.updated ==> c'.version == cl.next))
  {
    var client := ClientOf(l, c, env).value;
    var e, due := Updated(c.expiration, env.stamping, client.lease), Due(c.expiration, env.stamping, client.lease);
    if env.testing <= env.stamping + client.lease - SECOND {
      LapsedIsPast(c.expiration, env.stamping, env.testing, client.lease);
    }
    if !Expired(e, env.testing) {
      ObjectsDecide(cl, l, c, e, due, UserLabels(client.labels, c.userName), env);
    }
  }

  /** A Sync of a cached claim that the server has in another version, or not at all, does not write it.  It
      deletes whatever the server has under that name, exactly if the cached claim has lapsed. */
  lemma StaleSyncDecides(cl: Cluster, l: Listers, c: Claim, env: Env)
    requires ClientOf(l, c, env).Ok? && env.delete.None?
    requires c.name in cl.claims ==> cl.claims[c.name].version != c.version
    ensures var out, lease := Sync(cl, l, c, env), ClientOf(l, c, env).value.lease;
            out.cluster.claims == if Lapsed(c.expiration, env.stamping, env.testing, lease)
                                  then cl.claims - {c.name} else cl.claims
  {
    var client := ClientOf(l, c, env).value;
    var e, due := Updated(c.expiration, env.stamping, client.lease), Due(c.expiration, env.stamping, client.lease);
    if !Expired(e, env.testing) {
      var labels := UserLabels(client.labels, c.userName);
      var d := SyncPart(cl.deployments, l.deployments, c.deployment, c.uid, labels, env.createDeployment);
      var s := SyncPart(cl.services, l.services, c.service, c.uid, labels, env.createService);
      StaleIsNotWritten(cl, d, s, c.(expiration := Some(e)), due, env);
    }
  }

  lemma StaleIsNotWritten(cl: Cluster, d: Part, s: Part, c: Claim, due: bool, env: Env)
    requires c.name in cl.claims ==> cl.claims[c.name].version != c.version
    ensures Combined(cl, d, s, c, due, env).cluster.claims == cl.claims
  {
  }

  lemma ObjectsDecide(cl: Cluster, l: Listers, c: Claim, e: Time, due: bool, labels: Labels, env: Env)
    requires c.name in cl.claims && cl.claims[c.name] == c && (due <==> c.expiration != Some(e))
    ensures var out := SyncObjects(cl, l.deployments, l.services, c.(expiration := Some(e)), labels, due, env);
            && c.name in out.cluster.claims
            && (out.err.None? ==>
                  var c' := out.cluster.claims[c.name];
                  && c'.expiration == Some(e) && (out.updated ==> c'.version == cl.next)
                  && (out.updated <==> c'.(version := c.version) != c))
  {
    PartReports(cl.deployments, l.deployments, c.deployment, c.uid, labels, env.createDeployment);
    PartReports(cl.services, l.services, c.service, c.uid, labels, env.createService);
  }

  lemma PartReports(objects: Objects, l: Lister, ref: Option<string>, uid: Uid, labels: Labels,
                    generated: Result<string, Error>)
    ensures var p := SyncPart(objects, l, ref, uid, labels, generated); p.changed <==> p.ref != ref
  {
  }

  /** The client of a claim is the one it names, if the cache has it and can be asked. */
  lemma ClientIsTheNamedOne(l: Listers, c: Claim, env: Env)
    ensures ClientOf(l, c, env).Ok? <==> c.clientName != "" && env.getClient.None? && c.clientName in l.clients
    ensures ClientOf(l, c, env).Ok? ==> ClientOf(l, c, env).value == l.clients[c.clientName]
    ensures ClientOf(l, c, env).Err? ==>
              (IsTransient(ClientOf(l, c, env).error) <==>
                 c.clientName != "" && env.getClient.Some? && !IsNotFound(env.getClient.value))
  {
  }

  /** The reference is right as it is: it names an object of the claim, or by chance the one that is created. */
  ghost predicate Right(objects: Objects, ref: Option<string>, uid: Uid, s: Selector, generated: Result<string,
                        Error>) {
    ref.Some? && (Linked(objects, ref, uid) || (NothingThere(objects, ref, s) && generated == Ok(ref.value)))
  }

  /** A Sync of a current claim on current caches succeeds exactly if its client is there and the calls that
      it needs do not fail: the deletion of a lapsed claim; for any other claim it must be possible to give
      it a Deployment and a Service, and to write it unless its expiration and its references are right. */
  lemma SyncSucceedsExactly(cl: Cluster, l: Listers, c: Claim, env: Env)
    requires Shows(l.deployments, cl.deployments) && Shows(l.services, cl.services)
    requires ProperNames(cl.deployments, env.createDeployment) && ProperNames(cl.services, env.createService)
    requires c.name in cl.claims && cl.claims[c.name] == c
    ensures Sync(cl, l, c, env).err.None? <==>
            && c.clientName != "" && env.getClient.None? && c.clientName in l.clients
            && var client := l.clients[c.clientName];
            var s := SetSelector(UserLabels(client.labels, c.userName));
            if Lapsed(c.expiration, env.stamping, env.testing, client.lease) then env.delete.None?
            else
              && Attainable(cl.deployments, c.deployment, c.uid, s, env.createDeployment)
              && Attainable(cl.services, c.service, c.uid, s, env.createService)
              && (env.update.None?
                  || (&& Kept(c.expiration, env.stamping, client.lease)
                      && Right(cl.deployments, c.deployment, c.uid, s, env.createDeployment)
                      && Right(cl.services, c.service, c.uid, s, env.createService)))
  {
    if ClientOf(l, c, env).Ok? {
      var client := ClientOf(l, c, env).value;
      var e := Updated(c.expiration, env.stamping, client.lease);
      if !Expired(e, env.testing) {
        var due := Due(c.expiration, env.stamping, client.lease);
        ObjectsSucceedExactly(cl, l, c, e, due, UserLabels(client.labels, c.userName), env);
      }
    }
  }

  /** Which error a Sync of a current claim on current caches returns: that of the client, a transient one if
      the deletion fails, that of the first object that the claim cannot be given, and a transient one if
      the write fails.  It reports what it would have written of what it got to. */
  lemma ErrorsExactly(cl: Cluster, l: Listers, c: Claim, env: Env)
    requires Shows(l.deployments, cl.deployments) && Shows(l.services, cl.services)
    requires ProperNames(cl.deployments, env.createDeployment) && ProperNames(cl.services, env.createService)
    requires c.name in cl.claims && cl.claims[c.name] == c && Sync(cl, l, c, env).err.Some?
    ensures var out, found := Sync(cl, l, c, env), ClientOf(l, c, env);
            if found.Err? then out == Outcome(cl, false, Some(found.error))
            else
              var s := SetSelector(UserLabels(found.value.labels, c.userName));
              var kept := Kept(c.expiration, env.stamping, found.value.lease);
              if Lapsed(c.expiration, env.stamping, env.testing, found.value.lease)
              then !out.updated && IsTransient(out.err.value) && out.cluster == cl
              else if !Attainable(cl.deployments, c.deployment, c.uid, s, env.createDeployment)
              then out.updated == !kept && ErrorFits(cl.deployments, c.deployment, s, out.err.value)
              else if !Attainable(cl.services, c.service, c.uid, s, env.createService)
              then out.updated == !(kept && Right(cl.deployments, c.deployment, c.uid, s, env.createDeployment))
                   && ErrorFits(cl.services, c.service, s, out.err.value)
              else out.updated && IsTransient(out.err.value)
  {
    if ClientOf(l, c, env).Ok? {
      var labels := UserLabels(ClientOf(l, c, env).value.labels, c.userName);
      PartSucceedsExactly(cl.deployments, l.deployments, c.deployment, c.uid, labels, env.createDeployment);
      PartSucceedsExactly(cl.services, l.services, c.service, c.uid, labels, env.createService);
      PartChangesExactly(cl.deployments, l.deployments, c.deployment, c.uid, labels, env.createDeployment);
    }
  }

  lemma ObjectsSucceedExactly(cl: Cluster, l: Listers, c: Claim, e: Time, due: bool, labels: Labels, env: Env)
    requires Shows(l.deployments, cl.deployments) && Shows(l.services, cl.services)
    requires ProperNames(cl.deployments, env.createDeployment) && ProperNames(cl.services, env.createService)
    requires c.name in cl.claims && cl.claims[c.name] == c
    ensures SyncObjects(cl, l.deployments, l.services, c.(expiration := Some(e)), labels, due, env).err.None? <==>
            && Attainable(cl.deployments, c.deployment, c.uid, SetSelector(labels), env.createDeployment)
            && Attainable(cl.services, c.service, c.uid, SetSelector(labels), env.createService)
            && (env.update.None?
                || (&& !due && Right(cl.deployments, c.deployment, c.uid, SetSelector(labels), env.createDeployment)
                    && Right(cl.services, c.service, c.uid, SetSelector(labels), env.createService)))
  {
    PartSucceedsExactly(cl.deployments, l.deployments, c.deployment, c.uid, labels, env.createDeployment);
    PartSucceedsExactly(cl.services, l.services, c.service, c.uid, labels, env.createService);
    PartChangesExactly(cl.deployments, l.deployments, c.deployment, c.uid, labels, env.createDeployment);
    PartChangesExactly(cl.services, l.services, c.service, c.uid, labels, env.createService);
  }

  /** The reference changes exactly unless it is right. */
  lemma PartChangesExactly(objects: Objects, l: Lister, ref: Option<string>, uid: Uid, labels: Labels,
                           generated: Result<string, Error>)
    requires Shows(l, objects) && ProperNames(objects, generated)
    ensures var p := SyncPart(objects, l, ref, uid, labels, generated);
            p.err.None? ==> (p.changed <==> !Right(objects, ref, uid, SetSelector(labels), generated))
  {
    if ref.Some? && ref.value in objects {
      ReferenceResolves(objects, l, ref, SetSelector(labels));
    } else {
      LabelsResolve(objects, l, ref, SetSelector(labels));
    }
  }

  /** An immediate second Sync on refreshed caches writes nothing, unless the claim has expired by then. */
  lemma SyncIsIdempotent(cl: Cluster, l: Listers, c: Claim, env: Env, l2: Listers, env2: Env)
    requires Shows(l.deployments, cl.deployments) && Shows(l.services, cl.services)
    requires ProperNames(cl.deployments, env.createDeployment) && ProperNames(cl.services, env.createService)
    requires c.name in cl.claims && cl.claims[c.name] == c
    requires Sync(cl, l, c, env).err.None? && c.name in Sync(cl, l, c, env).cluster.claims
    requires var cl' := Sync(cl, l, c, env).cluster;
             && Shows(l2.deployments, cl'.deployments) && Shows(l2.services, cl'.services) && l2.clients == l.clients
             && env.stamping <= env2.stamping && env2.getClient.None?
             && !Expired(cl'.claims[c.name].expiration.value, env2.testing)
    ensures var cl' := Sync(cl, l, c, env).cluster;
            Sync(cl', l2, cl'.claims[c.name], env2) == Outcome(cl', false, None)
  {
    SyncConverges(cl, l, c, env);
    var cl' := Sync(cl, l, c, env).cluster;
    var c' := cl'.claims[c.name];
    var labels := UserLabels(l.clients[c.clientName].labels, c.userName);
    LinkedPartIsStable(cl'.deployments, l2.deployments, c'.deployment, c.uid, labels, env2.createDeployment);
    LinkedPartIsStable(cl'.services, l2.services, c'.service, c.uid, labels, env2.createService);
  }

  /** A failed Sync changes no claim and deletes nothing; its error is either transient or carries an
      event, never both. */
  lemma FailedSyncIsHarmless(cl: Cluster, l: Listers, c: Claim, env: Env)
    requires Sync(cl, l, c, env).err.Some?
    ensures var out := Sync(cl, l, c, env);
            && out.cluster.claims == cl.claims
            && (IsTransient(out.err.value) <==> HasEvent(out.err.value).None?)
            && (forall n | n in cl.deployments ::
                  n in out.cluster.deployments && out.cluster.deployments[n] == cl.deployments[n])
            && (forall n | n in cl.services :: n in out.cluster.services && out.cluster.services[n] == cl.services[n])
  {
    var found := ClientOf(l, c, env);
    if found.Ok? && !Expired(Updated(c.expiration, env.stamping, found.value.lease), env.testing) {
      var copy := c.(expiration := Some(Updated(c.expiration, env.stamping, found.value.lease)));
      var due := Due(c.expiration, env.stamping, found.value.lease);
      ObjectsFailCleanly(cl, l, copy, UserLabels(found.value.labels, c.userName), due, env);
    }
  }

  lemma ObjectsFailCleanly(cl: Cluster, l: Listers, c: Claim, labels: Labels, due: bool, env: Env)
    requires SyncObjects(cl, l.deployments, l.services, c, labels, due, env).err.Some?
    ensures var out := SyncObjects(cl, l.deployments, l.services, c, labels, due, env);
            && out.cluster.claims == cl.claims
            && (IsTransient(out.err.value) <==> HasEvent(out.err.value).None?)
            && (forall n | n in cl.deployments ::
                  n in out.cluster.deployments && out.cluster.deployments[n] == cl.deployments[n])
            && (forall n | n in cl.services :: n in out.cluster.services && out.cluster.services[n] == cl.services[n])
  {
    PartFailsCleanly(cl.deployments, l.deployments, c.deployment, c.uid, labels, env.createDeployment);
    PartFailsCleanly(cl.services, l.services, c.service, c.uid, labels, env.createService);
  }

  lemma PartFailsCleanly(objects: Objects, l: Lister, ref: Option<string>, uid: Uid, labels: Labels,
                         generated: Result<string, Error>)
    ensures var p := SyncPart(objects, l, ref, uid, labels, generated);
            && (forall n | n in objects :: n in p.objects && p.objects[n] == objects[n])
            && (p.err.Some? ==> p.objects == objects && (IsTransient(p.err.value) <==> HasEvent(p.err.value).None?))
  {
  }
}

/** A client Sync as a run of the machine that interleaves passes. */
module ClientSyncRuns {
  import opened Prelude
  import opened Errors
  import opened Labels
  import opened Resolver
  import opened ClientRuns
  import opened ClientSync
  import opened Expiration

  /** The world holds exactly these objects of the kind. */
  ghost predicate Holds(w: World, kind: Kind, objects: Objects) {
    forall n :: ((kind, n) in w.objects <==> n in objects) && (n in objects ==> w.objects[(kind, n)] == objects[n])
  }

  ghost predicate Represents(w: World, cl: ClientSync.Cluster) {
    Holds(w, Deployment, cl.deployments) && Holds(w, Service, cl.services)
  }

  ghost predicate At(w: World, k: string, uid: Uid, labels: Labels, kind: Kind) {
    && k in w.passes && w.passes[k].uid == uid && uid in w.specs && w.specs[uid] == Spec(k, labels)
    && w.passes[k].point == Looking(kind)
  }

  /** The objects of every other kind are the same. */
  ghost predicate SameElsewhere(w: World, w': World, kind: Kind) {
    forall d, n | d != kind :: ((d, n) in w'.objects <==> (d, n) in w.objects)
                               && ((d, n) in w.objects ==> w'.objects[(d, n)] == w.objects[(d, n)])
  }

  /** `w'` is `w` after the pass of claim `k` has made `p` of its objects of this kind. */
  ghost predicate PartDone(w: World, w': World, k: string, kind: Kind, p: Part)
    requires k in w.passes
  {
    && Holds(w', kind, p.objects) && SameElsewhere(w, w', kind) && w'.specs == w.specs
    && w'.passes == if p.err.None? then Advance(w, k, kind).passes else w.passes - {k}
  }

  lemma FoundPart(w: World, k: string, uid: Uid, labels: Labels, kind: Kind, objects: Objects, l: Lister,
                  generated: Result<string, Error>)
    requires At(w, k, uid, labels, kind) && Holds(w, kind, objects)
    requires Resolve(l, ClientRuns.Reference(w.passes[k], kind), SetSelector(labels)) != Ok(None)
    ensures PartDone(w, Next(w, Look(k, l)), k, kind,
                     SyncPart(objects, l, ClientRuns.Reference(w.passes[k], kind), uid, labels, generated))
  {
  }

  lemma MissingPart(w: World, k: string, uid: Uid, labels: Labels, kind: Kind, objects: Objects, l: Lister,
                    generated: Result<string, Error>)
    requires At(w, k, uid, labels, kind) && Holds(w, kind, objects)
    requires Resolve(l, ClientRuns.Reference(w.passes[k], kind), SetSelector(labels)) == Ok(None)
    ensures var name := Created(objects, generated);
            var w1 := Next(w, Look(k, l));
            var s := if name.Ok? then Make(k, name.value) else Finish(k);
            && Enabled(w1, s)
            && PartDone(w, Next(w1, s), k, kind,
                        SyncPart(objects, l, ClientRuns.Reference(w.passes[k], kind), uid, labels, generated))
  {
    var name := Created(objects, generated);
    var w1 := Next(w, Look(k, l));
    if name.Ok? {
      assert (kind, name.value) !in w.objects;
      assert Next(w1, Make(k, name.value)).passes == Advance(w, k, kind).passes;
    } else {
      assert Next(w1, Finish(k)).passes == w.passes - {k};
    }
  }

  /** Syncing one kind of object takes one lookup, perhaps one creation, and then the pass goes on; or it
      stops. */
  lemma PartIsARun(w: World, w0: World, k: string, uid: Uid, labels: Labels, kind: Kind, objects: Objects, l: Lister,
                   generated: Result<string, Error>)
    returns (w': World)
    requires ReachesAlone(w0, w, uid, k) && At(w, k, uid, labels, kind) && Holds(w, kind, objects)
    requires !Overlooks(w, uid, kind, ClientRuns.Reference(w.passes[k], kind), l)
    ensures ReachesAlone(w0, w', uid, k)
    ensures PartDone(w, w', k, kind,
                     SyncPart(objects, l, ClientRuns.Reference(w.passes[k], kind), uid, labels, generated))
  {
    AloneNext(w0, w, Look(k, l), uid, k);
    w' := Next(w, Look(k, l));
    if Resolve(l, ClientRuns.Reference(w.passes[k], kind), SetSelector(labels)) == Ok(None) {
      MissingPart(w, k, uid, labels, kind, objects, l, generated);
      var name := Created(objects, generated);
      var s := if name.Ok? then Make(k, name.value) else Finish(k);
      AloneNext(w0, w', s, uid, k);
      w' := Next(w', s);
    } else {
      FoundPart(w, k, uid, labels, kind, objects, l, generated);
    }
  }

  /** Everything a Sync does to Deployments and Services is a run in which lookups overlook nothing of
      their own claim and nobody but its pass does anything,
          as long as its two lookups do not.  So no series of such Syncs, of any number of
      claims, failing or not, with anything in between, gives a claim a second live object of a kind. */
  lemma SyncIsAClientRun(w: World, cl: ClientSync.Cluster, l: Listers, c: ClientSync.Claim, env: Env)
    requires Represents(w, cl) && c.uid in w.specs && c.name !in w.passes
    requires ClientOf(l, c, env).Ok? ==>
               w.specs[c.uid] == Spec(c.name, UserLabels(ClientOf(l, c, env).value.labels, c.userName))
    requires !Overlooks(w, c.uid, Deployment, c.deployment, l.deployments)
    requires !Overlooks(w, c.uid, Service, c.service, l.services)
    ensures exists w' :: ReachesAlone(w, w', c.uid, c.name) && Represents(w', ClientSync.Sync(cl, l, c, env).cluster)
                         && w'.passes == w.passes && w'.specs == w.specs
  {
    var found := ClientOf(l, c, env);
    if found.Ok? && !Expired(Updated(c.expiration, env.stamping, found.value.lease), env.testing) {
      var client := found.value;
      var copy := c.(expiration := Some(Updated(c.expiration, env.stamping, client.lease)));
      var due := Due(c.expiration, env.stamping, client.lease);
      var w' := ObjectsAreARun(w, cl, l, copy, env, UserLabels(client.labels, c.userName), due);
    } else {
      AloneStays(w, c.uid, c.name);
      assert Represents(w, ClientSync.Sync(cl, l, c, env).cluster);
    }
  }

  lemma ObjectsAreARun(w: World, cl: ClientSync.Cluster, l: Listers, c: ClientSync.Claim, env: Env,
                       labels: Labels, due: bool)
    returns (w': World)
    requires Represents(w, cl) && c.uid in w.specs && w.specs[c.uid] == Spec(c.name, labels) && c.name !in w.passes
    requires !Overlooks(w, c.uid, Deployment, c.deployment, l.deployments)
    requires !Overlooks(w, c.uid, Service, c.service, l.services)
    ensures ReachesAlone(w, w', c.uid, c.name)
            && Represents(w', SyncObjects(cl, l.deployments, l.services, c, labels, due, env).cluster)
    ensures w'.passes == w.passes && w'.specs == w.specs
  {
    var d := SyncPart(cl.deployments, l.deployments, c.deployment, c.uid, labels, env.createDeployment);
    SyncObjectsMakesParts(cl, l, c, labels, due, env);
    w' := DeploymentIsARun(w, c, labels, cl.deployments, cl.services, l.deployments, env.createDeployment);
    if d.err.None? {
      OwnsSame(w, w', c.uid, Service);
      w' := ServiceIsARun(w', w, c, labels, d.objects, cl.services, l.services, env.createService);
    }
  }

  /** The pass of the claim has just started. */
  ghost predicate Started(w: World, w1: World, c: ClientSync.Claim, labels: Labels) {
    && At(w1, c.name, c.uid, labels, Deployment) && w1.objects == w.objects && w1.specs == w.specs
    && w1.passes[c.name].deployment == c.deployment && w1.passes[c.name].service == c.service
    && w1.passes - {c.name} == w.passes
  }

  lemma StartReaches(w: World, c: ClientSync.Claim, labels: Labels) returns (w1: World)
    requires c.uid in w.specs && w.specs[c.uid] == Spec(c.name, labels) && c.name !in w.passes
    ensures ReachesAlone(w, w1, c.uid, c.name) && Started(w, w1, c, labels)
  {
    var s := Start(c.uid, c.deployment, c.service);
    AloneStays(w, c.uid, c.name);
    AloneNext(w, w, s, c.uid, c.name);
    w1 := Next(w, s);
  }

  /** The first half of a pass. */
  lemma DeploymentIsARun(w: World, c: ClientSync.Claim, labels: Labels, deployments: Objects, services: Objects,
                         l: Lister, generated: Result<string, Error>)
    returns (w': World)
    requires Holds(w, Deployment, deployments) && Holds(w, Service, services)
    requires c.uid in w.specs && w.specs[c.uid] == Spec(c.name, labels) && c.name !in w.passes
    requires !Overlooks(w, c.uid, Deployment, c.deployment, l)
    ensures ReachesAlone(w, w', c.uid, c.name) && w'.specs == w.specs && SameElsewhere(w, w', Deployment)
    ensures var d := SyncPart(deployments, l, c.deployment, c.uid, labels, generated);
            && Holds(w', Deployment, d.objects) && Holds(w', Service, services)
            && w'.passes - {c.name} == w.passes
            && (if d.err.Some? then c.name !in w'.passes
                else At(w', c.name, c.uid, labels, Service) && w'.passes[c.name].service == c.service)
  {
    var w1 := StartReaches(w, c, labels);
    OwnsSame(w, w1, c.uid, Deployment);
    w' := PartIsARun(w1, w, c.name, c.uid, labels, Deployment, deployments, l, generated);
    FirstPartDone(w, w1, w', c, labels, services, SyncPart(deployments, l, c.deployment, c.uid, labels, generated));
  }

  lemma FirstPartDone(w: World, w1: World, w': World, c: ClientSync.Claim, labels: Labels, services: Objects, d: Part)
    requires Started(w, w1, c, labels) && PartDone(w1, w', c.name, Deployment, d)
    requires c.uid in w.specs && w.specs[c.uid] == Spec(c.name, labels) && c.name !in w.passes
    requires Holds(w, Service, services)
    ensures w'.specs == w.specs && SameElsewhere(w, w', Deployment)
    ensures Holds(w', Deployment, d.objects) && Holds(w', Service, services) && w'.passes - {c.name} == w.passes
    ensures if d.err.Some? then c.name !in w'.passes
            else At(w', c.name, c.uid, labels, Service) && w'.passes[c.name].service == c.service
  {
  }

  /** The clusters that SyncObjects leaves behind hold what its parts made. */
  lemma SyncObjectsMakesParts(cl: ClientSync.Cluster, l: Listers, c: ClientSync.Claim, labels: Labels,
                              due: bool, env: Env)
    ensures var d := SyncPart(cl.deployments, l.deployments, c.deployment, c.uid, labels, env.createDeployment);
            var s := SyncPart(cl.services, l.services, c.service, c.uid, labels, env.createService);
            var cl' := SyncObjects(cl, l.deployments, l.services, c, labels, due, env).cluster;
            cl'.deployments == d.objects && cl'.services == if d.err.Some? then cl.services else s.objects
  {
  }

  /** The rest of a pass once its Deployment is settled. */
  lemma ServiceIsARun(w: World, w0: World, c: ClientSync.Claim, labels: Labels, deployments: Objects,
                      services: Objects, l: Lister, generated: Result<string, Error>)
    returns (w': World)
    requires ReachesAlone(w0, w, c.uid, c.name) && At(w, c.name, c.uid, labels, Service)
             && w.passes[c.name].service == c.service
    requires Holds(w, Deployment, deployments) && Holds(w, Service, services)
    requires !Overlooks(w, c.uid, Service, c.service, l)
    ensures ReachesAlone(w0, w', c.uid, c.name) && Holds(w', Deployment, deployments)
    ensures Holds(w', Service, SyncPart(services, l, c.service, c.uid, labels, generated).objects)
    ensures w'.passes == w.passes - {c.name} && w'.specs == w.specs
  {
    w' := PartIsARun(w, w0, c.name, c.uid, labels, Service, services, l, generated);
    if SyncPart(services, l, c.service, c.uid, labels, generated).err.None? {
      AloneNext(w0, w', Finish(c.name), c.uid, c.name);
      w' := Next(w', Finish(c.name));
    }
  }

  lemma OwnsSame(w: World, w': World, u: Uid, kind: Kind)
    requires forall n :: ((kind, n) in w'.objects <==> (kind, n) in w.objects)
                         && ((kind, n) in w.objects ==> w'.objects[(kind, n)] == w.objects[(kind, n)])
    ensures Owns(w', u, kind) == Owns(w, u, kind)
  {
    assert forall n :: OwnedBy(w', u, kind, n) == OwnedBy(w, u, kind, n);
  }
}
