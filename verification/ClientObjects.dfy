/** Pod templates, and the volumes that newDeploy adds to them. */
module SecretVolumes {
  import opened Prelude
  import opened Labels
  import opened LabelMaps
  import opened ClientSync

  /** The part of a secret that a volume mounts, somewhere in memory. */
  class SourceCell {
    var secretName: string
    var mode: int

    constructor (secretName: string, mode: int)
      ensures this.secretName == secretName && this.mode == mode
    {
      this.secretName, this.mode := secretName, mode;
    }
  }

  /** A volume refers to its source; volumes of other kinds than secrets have none. */
  datatype Volume = Volume(name: string, source: SourceCell?)

  function Content(v: Volume): Option<(string, int)>
    reads v.source
  {
    if v.source == null then None else Some((v.source.secretName, v.source.mode))
  }

  /** The two slices have the same volumes, with sources of their own. */
  twostate predicate Copied(new copy: seq<Volume>, volumes: seq<Volume>)
    reads set v | v in copy :: v.source, set v | v in volumes :: v.source
  {
    && |copy| == |volumes|
    && forall i | 0 <= i < |copy| ::
         && copy[i].name == volumes[i].name && Content(copy[i]) == Content(volumes[i])
         && (copy[i].source != null ==> fresh(copy[i].source))
  }

  method CopyVolumes(volumes: seq<Volume>) returns (copy: seq<Volume>)
    ensures Copied(copy, volumes)
  {
    copy := [];
    for i := 0 to |volumes|
      invariant Copied(copy, volumes[..i])
    {
      var source: SourceCell? := null;
      if volumes[i].source != null {
        source := new SourceCell(volumes[i].source.secretName, volumes[i].source.mode);
      }
      copy := copy + [Volume(volumes[i].name, source)];
    }
    assert volumes[..|volumes|] == volumes;
  }

  class PodTemplate {
    var labels: LabelMap?
    var volumes: seq<Volume>

    constructor (labels: LabelMap?, volumes: seq<Volume>)
      ensures this.labels == labels && this.volumes == volumes
    {
      this.labels, this.volumes := labels, volumes;
    }

    /** DeepCopy: an equal template that shares neither its labels nor the source of any volume. */
    method DeepCopy() returns (out: PodTemplate)
      ensures fresh(out) && Entries(out.labels) == Entries(labels) && (out.labels != null ==> fresh(out.labels))
      ensures Copied(out.volumes, volumes)
    {
      var copy := CopyVolumes(volumes);
      var copiedLabels: LabelMap? := null;
      if labels != null {
        copiedLabels := new LabelMap();
        copiedLabels.entries := labels.entries;
      }
      out := new PodTemplate(copiedLabels, copy);
    }
  }

  /** The part of a secret that a volume is meant to mount. */
  function Source(s: Secret): (string, int) { (s.secretName, s.mode) }

  /** The loop takes the address of the loop variable's source, of which there is one for all iterations
      before Go 1.22.  So every volume it adds ends up with the source of the last secret, under its own
      name. */
  method AddVolumes(template: PodTemplate, secrets: array<Secret>)
    modifies template`volumes
    ensures var before, after := old(template.volumes), template.volumes;
            && |after| == |before| + secrets.Length && after[..|before|] == before
            && forall k | |before| <= k < |after| ::
                 && after[k].name == secrets[k - |before|].name && after[k].source != null && fresh(after[k].source)
                 && Content(after[k]) == Some(Mounted(secrets[..], k - |before|))
  {
    var variable := new SourceCell("", 0);
    for i := 0 to secrets.Length
      invariant fresh(variable) && |template.volumes| == |old(template.volumes)| + i
      invariant template.volumes[..|old(template.volumes)|] == old(template.volumes)
      invariant forall k | |old(template.volumes)| <= k < |template.volumes| ::
                  template.volumes[k] == Volume(secrets[k - |old(template.volumes)|].name, variable)
      invariant i > 0 ==> (variable.secretName, variable.mode) == Source(secrets[i - 1])
    {
      variable.secretName, variable.mode := secrets[i].secretName, secrets[i].mode;
      template.volumes := template.volumes + [Volume(secrets[i].name, variable)];
    }
  }

  /** What the volume for secret `i` mounts. */
  function Mounted(secrets: seq<Secret>, i: nat): (string, int)
    requires i < |secrets|
  {
    Source(secrets[|secrets| - 1])
  }

  /** Every secret is mounted under its own name exactly if all secrets have the same source.  The claims
      that the API creates have at most one secret, so theirs are. */
  lemma SecretsAreMountedExactly(secrets: seq<Secret>)
    ensures (forall i: nat | i < |secrets| :: Mounted(secrets, i) == Source(secrets[i]))
            <==> (forall i, j | 0 <= i < j < |secrets| :: Source(secrets[i]) == Source(secrets[j]))
    ensures |secrets| <= 1 ==> forall i: nat | i < |secrets| :: Mounted(secrets, i) == Source(secrets[i])
  {
    if forall i: nat | i < |secrets| :: Mounted(secrets, i) == Source(secrets[i]) {
      forall i, j | 0 <= i < j < |secrets| ensures Source(secrets[i]) == Source(secrets[j]) {
        assert Mounted(secrets, i) == Mounted(secrets, j);
      }
    }
  }
}

/** Client claims as objects in memory, and the controller that works on copies of them. */
module ClientController {
  import opened Prelude
  import opened KubeTime
  import opened Expiration
  import opened Errors
  import opened Labels
  import opened LabelMaps
  import opened Cells
  import opened Resolver
  import opened ClientSync
  import opened SecretVolumes

  /** The slice of secrets, element by element. */
  method CopySecrets(secrets: array<Secret>) returns (copied: array<Secret>)
    ensures fresh(copied) && copied[..] == secrets[..]
  {
    var n := secrets.Length;
    copied := new Secret[n](_ => Secret("", "", 0));
    for i := 0 to n
      invariant copied[..i] == secrets[..i]
    {
      copied[i] := secrets[i];
    }
    assert secrets[..] == secrets[..n] && copied[..] == copied[..n];
  }

  class ClientClaim {
    const name: string
    const uid: Uid
    const clientName: string
    const userName: string
    var version: nat
    var secrets: array<Secret>
    var expirationTime: TimeCell?
    var deployment: NameCell?
    var service: NameCell?

    constructor (name: string, uid: Uid, version: nat, clientName: string, userName: string, secrets: array<Secret>)
      ensures this.name == name && this.uid == uid && this.version == version
      ensures this.clientName == clientName && this.userName == userName && this.secrets == secrets
      ensures expirationTime == null && deployment == null && service == null
    {
      this.name, this.uid, this.version, this.clientName, this.userName := name, uid, version, clientName, userName;
      this.secrets := secrets;
      expirationTime, deployment, service := null, null, null;
    }

    /** What the object says on the wire. */
    function Value(): Claim
      reads this, secrets, expirationTime, deployment, service
    {
      Claim(name, uid, version, clientName, userName, secrets[..], At(expirationTime), Named(deployment),
            Named(service))
    }

    /** The parts of the object that live outside it. */
    ghost function Parts(): set<object?>
      reads this
    {
      {secrets, expirationTime, deployment, service}
    }

    /** DeepCopy: an equal object that shares neither its secrets nor any cell. */
    method DeepCopy() returns (out: ClientClaim)
      ensures fresh(out) && out.Value() == Value()
      ensures fresh(out.Parts() - {null})
    {
      var copied := CopySecrets(secrets);
      out := new ClientClaim(name, uid, version, clientName, userName, copied);
      if expirationTime != null { out.expirationTime := new TimeCell(expirationTime.time); }
      if deployment != null { out.deployment := new NameCell(deployment.name); }
      if service != null { out.service := new NameCell(service.name); }
    }
  }

  /** A DistccClient as the lister hands it out. */
  class DistccClient {
    const labels: LabelMap?
    const lease: Time
    const selector: Option<LabelSelector>
    const template: PodTemplate

    constructor (labels: LabelMap?, lease: Time, selector: Option<LabelSelector>, template: PodTemplate)
      ensures this.labels == labels && this.lease == lease && this.selector == selector && this.template == template
    {
      this.labels, this.lease, this.selector, this.template := labels, lease, selector, template;
    }

    /** What the object says on the wire. */
    function Value(): Client
      reads labels
    {
      Client(Entries(labels), lease)
    }
  }

  /** A Deployment to be created; its name is generated. */
  class NewDeployment {
    const labels: LabelMap
    const owner: Uid
    const selector: Option<LabelSelector>
    const template: PodTemplate

    constructor (labels: LabelMap, owner: Uid, selector: Option<LabelSelector>, template: PodTemplate)
      ensures this.labels == labels && this.owner == owner && this.selector == selector && this.template == template
    {
      this.labels, this.owner, this.selector, this.template := labels, owner, selector, template;
    }
  }

  /** newDeploy.  The pods get the labels of the client with the user's, and the volumes of the client's
      template with one for each secret.  All of it is new: the client, its labels and its template, which
      come from the cache, are left alone. */
  method NewDeploy(claim: ClientClaim, client: DistccClient) returns (d: NewDeployment)
    ensures fresh(d) && fresh(d.labels) && fresh(d.template) && d.template.labels == d.labels
    ensures d.owner == claim.uid && d.labels.entries == UserLabels(Entries(client.labels), claim.userName)
    ensures d.selector == GetSelectorForUser(client.selector, claim.userName)
    ensures var mine, theirs := d.template.volumes, client.template.volumes;
            && |mine| == |theirs| + claim.secrets.Length && Copied(mine[..|theirs|], theirs)
            && forall k | |theirs| <= k < |mine| ::
                 && mine[k].name == claim.secrets[k - |theirs|].name && mine[k].source != null && fresh(mine[k].source)
                 && Content(mine[k]) == Some(Mounted(claim.secrets[..], k - |theirs|))
  {
    var labels := GetLabelsForUser(client.labels, claim.userName);
    var template := client.template.DeepCopy();
    AddVolumes(template, claim.secrets);
    template.labels := labels;
    d := new NewDeployment(labels, claim.uid, GetSelectorForUser(client.selector, claim.userName), template);
  }

  class ApiServer {
    var claims: map<string, Claim>
    var deployments: Objects
    var services: Objects
    var next: nat

    constructor ()
      ensures State() == Cluster(map[], map[], map[], 0)
    {
      claims, deployments, services, next := map[], map[], map[], 0;
    }

    function State(): Cluster
      reads this
    {
      Cluster(claims, deployments, services, next)
    }

    /** Creates an object with a generated name. */
    method CreateDeployment(d: NewDeployment, generated: Result<string, Error>) returns (res: Result<Object, Error>)
      modifies this`deployments
      ensures match Created(old(deployments), generated)
              case Err(e) => res == Err(e) && deployments == old(deployments)
              case Ok(n) =>
                && res == Ok(Object(n, d.labels.entries, Some(d.owner)))
                && deployments == old(deployments)[n := res.value]
    {
      var created := Created(deployments, generated);
      if created.Err? { return Err(created.error); }
      var o := Object(created.value, d.labels.entries, Some(d.owner));
      deployments := deployments[o.name := o];
      return Ok(o);
    }

    method CreateService(labels: LabelMap, owner: Uid, generated: Result<string, Error>)
      returns (res: Result<Object, Error>)
      modifies this`services
      ensures match Created(old(services), generated)
              case Err(e) => res == Err(e) && services == old(services)
              case Ok(n) =>
                && res == Ok(Object(n, labels.entries, Some(owner)))
                && services == old(services)[n := res.value]
    {
      var created := Created(services, generated);
      if created.Err? { return Err(created.error); }
      var o := Object(created.value, labels.entries, Some(owner));
      services := services[o.name := o];
      return Ok(o);
    }

    method UpdateClaim(c: ClientClaim, fault: Option<Error>) returns (err: Option<Error>)
      modifies this`claims, this`next
      ensures match ClientSync.UpdateClaim(old(State()), c.Value(), fault)
              case Err(e) => err == Some(e) && State() == old(State())
              case Ok(cl) => err == None && State() == cl
    {
      if fault.Some? { return fault; }
      if c.name !in claims { return Some(Status(NotFound)); }
      if claims[c.name].version != c.version { return Some(Status(Conflict)); }
      claims := claims[c.name := c.Value().(version := next)];
      next := next + 1;
      return None;
    }

    method DeleteClaim(name: string, fault: Option<Error>) returns (err: Option<Error>)
      modifies this`claims
      ensures match ClientSync.DeleteClaim(old(State()), name, fault)
              case Err(e) => err == Some(e) && State() == old(State())
              case Ok(cl) => err == None && State() == cl
    {
      if fault.Some? { return fault; }
      if name !in claims { return Some(Status(NotFound)); }
      claims := claims - {name};
      return None;
    }
  }

  class Controller {
    const api: ApiServer
    var clients: map<string, DistccClient>
    var deployments: Lister
    var services: Lister

    constructor (api: ApiServer, clients: map<string, DistccClient>, deployments: Lister, services: Lister)
      ensures this.api == api && this.clients == clients && this.deployments == deployments && this.services == services
    {
      this.api, this.clients, this.deployments, this.services := api, clients, deployments, services;
    }

    /** What the caches show. */
    function Caches(): Listers
      reads this, set n | n in clients :: clients[n].labels
    {
      Listers(map n | n in clients :: clients[n].Value(), deployments, services)
    }

    /** Only the API server changes: the cached claim, its secrets and its cells, and the cached clients with
        their labels and templates are left alone. */
    method Sync(cached: ClientClaim, env: Env) returns (updated: bool, err: Option<Error>)
      modifies api
      ensures Outcome(api.State(), updated, err) == ClientSync.Sync(old(api.State()), Caches(), cached.Value(), env)
    {
      var found := FindClient(cached, env);
      if found.Err? { return false, Some(found.error); }
      updated, err := SyncFor(cached, found.value, env);
    }

    /** The rest of Sync, with the client of the claim. */
    method SyncFor(cached: ClientClaim, client: DistccClient, env: Env) returns (updated: bool, err: Option<Error>)
      modifies api
      ensures Outcome(api.State(), updated, err) ==
              ClientSync.SyncFor(old(api.State()), deployments, services, cached.Value(), client.Value(), env)
    {
      ghost var c := cached.Value();
      var claim := cached.DeepCopy();
      var expirationChanged := UpdateExpiration(claim, client, env.stamping);
      if Expired(claim.expirationTime.time, env.testing) {
        err := api.DeleteClaim(claim.name, env.delete);
        return false, TransientError(err);
      }
      assert claim.Value() == c.(expiration := Some(Updated(c.expiration, env.stamping, client.lease)));
      updated, err := SyncObjects(claim, client, expirationChanged, env);
    }

    method FindClient(cached: ClientClaim, env: Env) returns (found: Result<DistccClient, Error>)
      ensures match ClientOf(Caches(), cached.Value(), env)
              case Err(e) => found == Err(e)
              case Ok(_) => cached.clientName in clients && found == Ok(clients[cached.clientName])
    {
      if cached.clientName == "" { return Err(Failed("ErrClientNotSpecified", NO_CLIENT_NAME)); }
      var lookup: Option<Error> :=
        if env.getClient.Some? then env.getClient
        else if cached.clientName !in clients then Some(Status(NotFound)) else None;
      if lookup.Some? {
        if IsNotFound(lookup.value) { return Err(Failed("ErrClientRefInvalid", BAD_CLIENT_REF)); }
        return Err(Transient(lookup.value));
      }
      return Ok(clients[cached.clientName]);
    }

    /** The second half of Sync, on the copy. */
    method SyncObjects(claim: ClientClaim, client: DistccClient, expirationChanged: bool, env: Env)
      returns (updated: bool, err: Option<Error>)
      modifies api, claim
      ensures Outcome(api.State(), updated, err) ==
              ClientSync.SyncObjects(old(api.State()), deployments, services, old(claim.Value()),
                                     UserLabels(Entries(client.labels), claim.userName), expirationChanged, env)
    {
      var deployChanged;
      deployChanged, err := SyncDeploy(claim, client, env);
      if err.Some? { return expirationChanged || deployChanged, err; }
      var serviceChanged;
      serviceChanged, err := SyncService(claim, client, env);
      if err.Some? { return expirationChanged || deployChanged || serviceChanged, err; }
      updated := expirationChanged || deployChanged || serviceChanged;
      err := WriteBack(claim, updated, env);
    }

    /** The end of Sync: one write, if anything has changed. */
    method WriteBack(claim: ClientClaim, changed: bool, env: Env) returns (err: Option<Error>)
      modifies api
      ensures Outcome(api.State(), changed, err) == Written(old(api.State()), claim.Value(), changed, env)
    {
      if !changed { return None; }
      err := api.UpdateClaim(claim, env.update);
      err := TransientError(err);
    }

    method UpdateExpiration(claim: ClientClaim, client: DistccClient, now: Time) returns (changed: bool)
      modifies claim`expirationTime
      ensures var e := Updated(old(At(claim.expirationTime)), now, client.lease);
              claim.Value() == old(claim.Value()).(expiration := Some(e))
      ensures changed == Due(old(At(claim.expirationTime)), now, client.lease)
      ensures claim.expirationTime != null
      ensures claim.expirationTime != old(claim.expirationTime) ==> fresh(claim.expirationTime)
    {
      var maxExpiration := now + client.lease;
      if claim.expirationTime == null || claim.expirationTime.time > maxExpiration {
        claim.expirationTime := new TimeCell(ToKubeTime(maxExpiration));
        return true;
      }
      return false;
    }

    method SyncDeploy(claim: ClientClaim, client: DistccClient, env: Env) returns (updated: bool, err: Option<Error>)
      modifies api`deployments, claim`deployment
      ensures var p := SyncPart(old(api.deployments), this.deployments, old(Named(claim.deployment)), claim.uid,
                                UserLabels(Entries(client.labels), claim.userName), env.createDeployment);
              && api.deployments == p.objects && updated == p.changed && err == p.err
              && claim.Value() == old(claim.Value()).(deployment := p.ref)
    {
      var labels := GetLabelsForUser(client.labels, claim.userName);
      var obj := Resolve(this.deployments, Named(claim.deployment), SetSelector(labels.entries));
      if obj.Err? {
        if IsAmbiguousReference(obj.error) { return false, Some(Failed("ErrAmbiguousMatch", AMBIGUOUS_LABELS)); }
        return false, Some(obj.error);
      }
      var given := GiveDeploy(claim, client, obj.value, env);
      if given.Err? { return false, Some(given.error); }
      var deploy := given.value;
      if deploy.owner != Some(claim.uid) { return false, Some(Foreign(deploy.name)); }
      updated := LinkDeployment(claim, deploy.name);
      return updated, None;
    }

    /** The middle part of syncDeploy: what was found, or else a new one. */
    method GiveDeploy(claim: ClientClaim, client: DistccClient, found: Option<Object>, env: Env)
      returns (given: Result<Object, Error>)
      modifies api`deployments
      ensures found.Some? ==> given == Ok(found.value) && api.deployments == old(api.deployments)
      ensures found.None? ==>
                match Created(old(api.deployments), env.createDeployment)
                case Err(e) => given == Err(Transient(e)) && api.deployments == old(api.deployments)
                case Ok(n) =>
                  && given == Ok(Object(n, UserLabels(Entries(client.labels), claim.userName), Some(claim.uid)))
                  && api.deployments == old(api.deployments)[n := given.value]
    {
      if found.Some? { return Ok(found.value); }
      var d := NewDeploy(claim, client);
      var created := api.CreateDeployment(d, env.createDeployment);
      if created.Err? { return Err(Transient(created.error)); }
      return Ok(created.value);
    }

    /** The last part of syncDeploy: the reference in the status follows the object. */
    method LinkDeployment(claim: ClientClaim, name: string) returns (updated: bool)
      modifies claim`deployment
      ensures claim.Value() == old(claim.Value()).(deployment := ClientSync.Reference(name))
      ensures updated <==> old(Named(claim.deployment)) != ClientSync.Reference(name)
    {
      updated := false;
      if name != "" {
        if claim.deployment == null || claim.deployment.name != name {
          claim.deployment := new NameCell(name);
          updated := true;
        }
      } else if claim.deployment != null {
        claim.deployment := null;
        updated := true;
      }
    }

    method SyncService(claim: ClientClaim, client: DistccClient, env: Env) returns (updated: bool, err: Option<Error>)
      modifies api`services, claim`service
      ensures var p := SyncPart(old(api.services), this.services, old(Named(claim.service)), claim.uid,
                                UserLabels(Entries(client.labels), claim.userName), env.createService);
              && api.services == p.objects && updated == p.changed && err == p.err
              && claim.Value() == old(claim.Value()).(service := p.ref)
    {
      var labels := GetLabelsForUser(client.labels, claim.userName);
      var obj := Resolve(this.services, Named(claim.service), SetSelector(labels.entries));
      if obj.Err? {
        if IsAmbiguousReference(obj.error) { return false, Some(Failed("ErrAmbiguousMatch", AMBIGUOUS_LABELS)); }
        return false, Some(obj.error);
      }
      var given := GiveService(claim, client, obj.value, env);
      if given.Err? { return false, Some(given.error); }
      var service := given.value;
      if service.owner != Some(claim.uid) { return false, Some(Foreign(service.name)); }
      updated := LinkService(claim, service.name);
      return updated, None;
    }

    /** The middle part of syncService: what was found, or else a new one. */
    method GiveService(claim: ClientClaim, client: DistccClient, found: Option<Object>, env: Env)
      returns (given: Result<Object, Error>)
      modifies api`services
      ensures found.Some? ==> given == Ok(found.value) && api.services == old(api.services)
      ensures found.None? ==>
                match Created(old(api.services), env.createService)
                case Err(e) => given == Err(Transient(e)) && api.services == old(api.services)
                case Ok(n) =>
                  && given == Ok(Object(n, UserLabels(Entries(client.labels), claim.userName), Some(claim.uid)))
                  && api.services == old(api.services)[n := given.value]
    {
      if found.Some? { return Ok(found.value); }
      var selector := GetLabelsForUser(client.labels, claim.userName);
      var created := api.CreateService(selector, claim.uid, env.createService);
      if created.Err? { return Err(Transient(created.error)); }
      return Ok(created.value);
    }

    /** The last part of syncService: the reference in the status follows the object. */
    method LinkService(claim: ClientClaim, name: string) returns (updated: bool)
      modifies claim`service
      ensures claim.Value() == old(claim.Value()).(service := ClientSync.Reference(name))
      ensures updated <==> old(Named(claim.service)) != ClientSync.Reference(name)
    {
      updated := false;
      if name != "" {
        if claim.service == null || claim.service.name != name {
          claim.service := new NameCell(name);
          updated := true;
        }
      } else if claim.service != null {
        claim.service := null;
        updated := true;
      }
    }
  }
}
