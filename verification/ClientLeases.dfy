/** Client claims under the lease protocol, and why the writes to a client claim die out. */
module ClientLeases {
  import opened Prelude
  import opened KubeTime
  import opened Expiration
  import opened Errors
  import opened Labels
  import opened ClientSync
  import Leases
  import LeasePasses

  /** Client claims as the lease protocol sees them. */
  function View(claims: map<string, Claim>): map<Leases.Name, Leases.Claim> {
    map n | n in claims :: Leases.Claim(claims[n].version, claims[n].expiration)
  }

  ghost predicate Represents(w: Leases.World, cl: Cluster) { w.server == View(cl.claims) && w.next == cl.next }

  lemma WrittenOnClaims(cl: Cluster, c: Claim, changed: bool, env: Env)
    ensures var out := Written(cl, c, changed, env);
            && (changed && out.err.None? ==> out.updated)
            && if out.updated && out.err.None?
               then c.name in cl.claims && cl.claims[c.name].version == c.version && out.cluster.next == cl.next + 1
                    && View(out.cluster.claims) == View(cl.claims)[c.name := Leases.Claim(cl.next, c.expiration)]
               else out.cluster.claims == cl.claims && out.cluster.next == cl.next
  {
  }

  lemma CombinedOnClaims(cl: Cluster, d: Part, p: Part, c: Claim, due: bool, env: Env)
    ensures var out := Combined(cl, d, p, c, due, env);
            && (due && out.err.None? ==> out.updated)
            && if out.updated && out.err.None?
               then c.name in cl.claims && cl.claims[c.name].version == c.version && out.cluster.next == cl.next + 1
                    && View(out.cluster.claims) == View(cl.claims)[c.name := Leases.Claim(cl.next, c.expiration)]
               else out.cluster.claims == cl.claims && out.cluster.next == cl.next
  {
    var copy := c.(deployment := d.ref, service := p.ref);
    WrittenOnClaims(cl.(deployments := d.objects, services := p.objects), copy, due || d.changed || p.changed, env);
  }

  /** What Sync does to claims, apart from the objects. */
  lemma SyncObjectsOnClaims(cl: Cluster, l: Listers, c: Claim, labels: Labels, e: Time, due: bool, env: Env)
    ensures var out := SyncObjects(cl, l.deployments, l.services, c.(expiration := Some(e)), labels, due, env);
            && (due && out.err.None? ==> out.updated)
            && if out.updated && out.err.None?
               then c.name in cl.claims && cl.claims[c.name].version == c.version && out.cluster.next == cl.next + 1
                    && View(out.cluster.claims) == View(cl.claims)[c.name := Leases.Claim(cl.next, Some(e))]
               else out.cluster.claims == cl.claims && out.cluster.next == cl.next
  {
    var d := SyncPart(cl.deployments, l.deployments, c.deployment, c.uid, labels, env.createDeployment);
    var p := SyncPart(cl.services, l.services, c.service, c.uid, labels, env.createService);
    CombinedOnClaims(cl, d, p, c.(expiration := Some(e)), due, env);
  }

  /** The pass on `n` leads from `w` to `w'` with nobody else around, and may write something else about the
      claim at its end. */
  ghost predicate ReachesByPass(w: Leases.World, w': Leases.World, n: string) {
    || Leases.ReachesAlone(w, w', n)
    || exists w1 :: Leases.ReachesAlone(w, w1, n) && n in w1.server && w' == Leases.Next(w1, Leases.Touch(n))
  }

  /** Every client Sync is a run of the lease protocol too, in which nobody but the pass on the claim does
      anything.  So its promise, its bounds on expirations and on writes of expirations hold for client
      claims as they do for server claims. */
  lemma SyncIsALeaseRun(w: Leases.World, cl: Cluster, l: Listers, c: Claim, env: Env) returns (w': Leases.World)
    requires Leases.Inv(w) && Represents(w, cl) && w.now <= env.stamping <= env.testing
    requires c.name !in w.passes && Leases.Known(w.past, c.name, Leases.Claim(c.version, c.expiration))
    requires ClientOf(l, c, env).Ok? ==> c.name in w.leases && w.leases[c.name] == ClientOf(l, c, env).value.lease
    ensures ReachesByPass(w, w', c.name) && Represents(w', ClientSync.Sync(cl, l, c, env).cluster)
    ensures w'.now == env.testing && w'.passes == w.passes
  {
    if ClientOf(l, c, env).Err? {
      Leases.AloneStays(w, c.name);
      Leases.AloneNext(w, w, Leases.Tick(env.testing - w.now), c.name);
      w' := Leases.Next(w, Leases.Tick(env.testing - w.now));
    } else {
      w' := SyncForIsALeaseRun(w, cl, l, c, ClientOf(l, c, env).value, env);
    }
  }

  lemma SyncForIsALeaseRun(w: Leases.World, cl: Cluster, l: Listers, c: Claim, client: Client, env: Env)
    returns (w': Leases.World)
    requires Leases.Inv(w) && Represents(w, cl) && w.now <= env.stamping <= env.testing
    requires c.name !in w.passes && Leases.Known(w.past, c.name, Leases.Claim(c.version, c.expiration))
    requires c.name in w.leases && w.leases[c.name] == client.lease
    ensures ReachesByPass(w, w', c.name)
    ensures Represents(w', SyncFor(cl, l.deployments, l.services, c, client, env).cluster)
    ensures w'.now == env.testing && w'.passes == w.passes
  {
    var e, due := Updated(c.expiration, env.stamping, client.lease), Due(c.expiration, env.stamping, client.lease);
    if Expired(e, env.testing) {
      var seen, deletes := Leases.Claim(c.version, c.expiration), DeleteClaim(cl, c.name, env.delete).Ok?;
      w' := LeasePasses.PassReaches(w, c.name, seen, env.stamping, env.testing, deletes);
    } else {
      var labels := UserLabels(client.labels, c.userName);
      var out := SyncObjects(cl, l.deployments, l.services, c.(expiration := Some(e)), labels, due, env);
      SyncObjectsOnClaims(cl, l, c, labels, e, due, env);
      w' := ObjectsAreALeaseRun(w, cl, c, e, due, env, out);
    }
  }

  /** A Sync that does not delete writes the expiration, only something else, or nothing. */
  lemma ObjectsAreALeaseRun(w: Leases.World, cl: Cluster, c: Claim, e: Time, due: bool, env: Env, out: Outcome)
    returns (w': Leases.World)
    requires Leases.Inv(w) && Represents(w, cl) && w.now <= env.stamping <= env.testing
    requires c.name !in w.passes && Leases.Known(w.past, c.name, Leases.Claim(c.version, c.expiration))
    requires c.name in w.leases && e == Updated(c.expiration, env.stamping, w.leases[c.name])
    requires due == Due(c.expiration, env.stamping, w.leases[c.name]) && !Expired(e, env.testing)
    requires due && out.err.None? ==> out.updated
    requires if out.updated && out.err.None?
             then c.name in cl.claims && cl.claims[c.name].version == c.version && out.cluster.next == cl.next + 1
                  && View(out.cluster.claims) == View(cl.claims)[c.name := Leases.Claim(cl.next, Some(e))]
             else out.cluster.claims == cl.claims && out.cluster.next == cl.next
    ensures ReachesByPass(w, w', c.name) && Represents(w', out.cluster) && w'.now == env.testing
            && w'.passes == w.passes
  {
    var n, seen := c.name, Leases.Claim(c.version, c.expiration);
    var writes := out.updated && out.err.None?;
    w' := LeasePasses.PassReaches(w, n, seen, env.stamping, env.testing, writes);
    if writes && !due {
      assert Leases.Known(w.past, n, w.server[n]);
      w' := Leases.Next(w', Leases.Touch(n));
    }
  }

  // ---------------------------------------------------------------- quiescence

  /** One client claim, its client and everything around it. */
  datatype World = World(cl: Cluster, now: Time, client: Client)

  /** `Quiet` is anything that leaves the claim alone, `Disturb` anything at all. */
  datatype Step =
    | Quiet(next: World)
    | Disturb(next: World)
    | Sync(l: Listers, env: Env)

  /** Nothing about the claim is left to do: it is gone, or its expiration is within the lease and both
      its references name live objects it controls. */
  predicate Settled(w: World, n: string) {
    n in w.cl.claims ==>
      var c := w.cl.claims[n];
      && c.expiration.Some? && c.expiration.value <= w.now + w.client.lease
      && Linked(w.cl.deployments, c.deployment, c.uid) && Linked(w.cl.services, c.service, c.uid)
  }

  /** The clock does not go back, the lease is not cut, the claim is neither renewed nor recreated, and
      the objects it refers to are neither deleted nor taken away. */
  ghost predicate Undisturbed(w: World, w': World, n: string) {
    && w.now <= w'.now && w.client.lease <= w'.client.lease
    && (n in w'.cl.claims ==> n in w.cl.claims && w'.cl.claims[n].(version := w.cl.claims[n].version) == w.cl.claims[n])
    && (n in w.cl.claims ==>
          var c := w.cl.claims[n];
          && (Linked(w.cl.deployments, c.deployment, c.uid) ==> Linked(w'.cl.deployments, c.deployment, c.uid))
          && (Linked(w.cl.services, c.service, c.uid) ==> Linked(w'.cl.services, c.service, c.uid)))
  }

  /** A Sync of the claim on current caches. */
  ghost predicate OnCurrentCaches(w: World, n: string, l: Listers, env: Env) {
    && n in w.cl.claims && w.cl.claims[n].name == n
    && Shows(l.deployments, w.cl.deployments) && Shows(l.services, w.cl.services)
    && ProperNames(w.cl.deployments, env.createDeployment) && ProperNames(w.cl.services, env.createService)
    && ClientOf(l, w.cl.claims[n], env) == Ok(w.client)
    && w.now <= env.stamping <= env.testing
  }

  ghost predicate Enabled(w: World, s: Step, n: string) {
    match s
    case Quiet(w') => Undisturbed(w, w', n)
    case Disturb(_) => true
    case Sync(l, env) => OnCurrentCaches(w, n, l, env)
  }

  function Next(w: World, s: Step, n: string): World {
    match s
    case Quiet(w') => w'
    case Disturb(w') => w'
    case Sync(l, env) =>
      if n !in w.cl.claims then w
      else World(ClientSync.Sync(w.cl, l, w.cl.claims[n], env).cluster, env.testing, w.client)
  }

  /** The step is a Sync that successfully writes the claim. */
  predicate Writes(w: World, s: Step, n: string) {
    s.Sync? && n in w.cl.claims
    && var out := ClientSync.Sync(w.cl, s.l, w.cl.claims[n], s.env); out.updated && out.err.None?
  }

  lemma WriteSettles(w: World, s: Step, n: string)
    requires Enabled(w, s, n) && Writes(w, s, n)
    ensures !Settled(w, n) && Settled(Next(w, s, n), n)
  {
    var c := w.cl.claims[n];
    var e := Updated(c.expiration, s.env.stamping, w.client.lease);
    if Settled(w, n) {
      SettledSyncIsSilent(w, s.l, s.env, n);
      assert false;
    }
    var due := Due(c.expiration, s.env.stamping, w.client.lease);
    SyncObjectsOnClaims(w.cl, s.l, c, UserLabels(w.client.labels, c.userName), e, due, s.env);
    SyncConverges(w.cl, s.l, c, s.env);
  }

  lemma SettledSyncIsSilent(w: World, l: Listers, env: Env, n: string)
    requires OnCurrentCaches(w, n, l, env) && Settled(w, n)
    ensures var out := ClientSync.Sync(w.cl, l, w.cl.claims[n], env);
            !out.updated && out.cluster.deployments == w.cl.deployments && out.cluster.services == w.cl.services
            && (out.cluster.claims == w.cl.claims || out.cluster.claims == w.cl.claims - {n})
  {
    var c := w.cl.claims[n];
    var labels := UserLabels(w.client.labels, c.userName);
    LinkedPartIsStable(w.cl.deployments, l.deployments, c.deployment, c.uid, labels, env.createDeployment);
    LinkedPartIsStable(w.cl.services, l.services, c.service, c.uid, labels, env.createService);
  }

  ghost predicate Run(w: World, steps: seq<Step>, n: string)
    decreases |steps|
  {
    steps == [] || (Enabled(w, steps[0], n) && Run(Next(w, steps[0], n), steps[1..], n))
  }

  function Bit(b: bool): nat { if b then 1 else 0 }

  function WriteCount(w: World, steps: seq<Step>, n: string): nat
    decreases |steps|
  {
    if steps == [] then 0 else Bit(Writes(w, steps[0], n)) + WriteCount(Next(w, steps[0], n), steps[1..], n)
  }

  function DisturbCount(steps: seq<Step>): nat {
    if steps == [] then 0 else Bit(steps[0].Disturb?) + DisturbCount(steps[1..])
  }

  /** Successful writes of a client claim number at most the disturbances (renewals, lease cuts, losses of
      a referenced object and the like), plus one if there was something to do to begin with. */
  lemma {:induction false} Quiescence(w: World, steps: seq<Step>, n: string)
    requires Run(w, steps, n)
    ensures WriteCount(w, steps, n) <= Bit(!Settled(w, n)) + DisturbCount(steps)
    decreases |steps|
  {
    if steps != [] {
      var s := steps[0];
      Quiescence(Next(w, s, n), steps[1..], n);
      if Writes(w, s, n) {
        WriteSettles(w, s, n);
      } else if s.Sync? && Settled(w, n) {
        SettledSyncIsSilent(w, s.l, s.env, n);
      }
    }
  }
}

/** The API's renewal of a client lease. */
module ClientLease {
  import opened Prelude
  import opened Errors
  import opened Labels
  import opened Cells
  import opened Resolver
  import opened ClientSync
  import ClientController
  import ClientLeases
  import Leases
  import Renewals

  /** What the API knows of the DistccClient it got first. */
  datatype Client = Client(name: string, lease: int)

  /** Failures of calls, the uid for a created claim, and the node ports that Services show. */
  datatype Env = Env(
    getClaim: Option<Error>,
    getSecret: Option<Error>,
    createClaim: Option<Error>,
    updateClaim: Option<Error>,
    getService: Option<Error>,
    uid: Uid,
    ports: map<string, seq<int>>)

  const NOT_YET: Error := Transient(Plain("service for claim not present yet"))

  /** newDistccClientClaim, on the wire; the secret is mounted as "ssh". */
  function NewClaim(user: string, client: Client, env: Env, version: nat): Claim {
    var secrets := if env.getSecret.None? then [Secret("ssh", user + "-ssh-key", 493)] else [];
    Claim(ClaimName(user, client.name), env.uid, version, client.name, user, secrets, None, None, None)
  }

  /** getServiceForClaim: the node port of the claim's Service. */
  function NodePort(services: Objects, c: Claim, env: Env): Result<int, Error> {
    if c.service.None? || c.deployment.None? then Err(NOT_YET)
    else if env.getService.Some? || c.service.value !in services then Err(NOT_YET)
    else
      var name := c.service.value;
      if name !in env.ports || |env.ports[name]| == 0 || env.ports[name][0] == 0 then Err(NOT_YET)
      else Ok(env.ports[name][0])
  }

  /** The claim after the renewal has left it with an empty expiration. */
  function Renewed(cl: Cluster, user: string, client: Client, env: Env): Cluster {
    var n := ClaimName(user, client.name);
    if n !in cl.claims then cl.(claims := cl.claims[n := NewClaim(user, client, env, cl.next)], next := cl.next + 1)
    else if cl.claims[n].expiration.None? then cl
    else cl.(claims := cl.claims[n := cl.claims[n].(expiration := None, version := cl.next)], next := cl.next + 1)
  }

  /** No call that leaves the claim with an empty expiration fails. */
  predicate GoesThrough(cl: Cluster, user: string, client: Client, env: Env) {
    var n := ClaimName(user, client.name);
    if n in cl.claims then env.getClaim.None? && (cl.claims[n].expiration.Some? ==> env.updateClaim.None?)
    else
      && (env.getClaim.None? || IsNotFound(env.getClaim.value))
      && (env.getSecret.None? || IsNotFound(env.getSecret.value)) && env.createClaim.None?
  }

  /** The claim was there before, and the controller has given it a live Service with a node port. */
  predicate Served(cl: Cluster, user: string, client: Client, env: Env) {
    var n := ClaimName(user, client.name);
    && n in cl.claims && cl.claims[n].deployment.Some? && cl.claims[n].service.Some?
    && var service := cl.claims[n].service.value;
    && service in cl.services && env.getService.None?
    && service in env.ports && |env.ports[service]| > 0 && env.ports[service][0] != 0
  }

  /** renewDistccClientLease.  It renews the lease exactly if no call that it needs for that fails, and
      succeeds exactly if, besides, the claim is served already.  Success means that the user's claim has an
      empty expiration and that the node port is that of the live Service the claim refers to.  Every failure
      is transient; it has changed nothing, or only renewed the lease. */
  method RenewDistccClientLease(api: ClientController.ApiServer, user: string, client: Client, env: Env)
    returns (res: Result<int, Error>)
    requires forall n | n in api.claims :: api.claims[n].name == n
    modifies api
    ensures api.deployments == old(api.deployments) && api.services == old(api.services)
    ensures var st := old(api.State());
            && api.State() == (if GoesThrough(st, user, client, env) then Renewed(st, user, client, env) else st)
            && (res.Ok? <==> GoesThrough(st, user, client, env) && Served(st, user, client, env))
    ensures res.Err? ==> IsTransient(res.error)
    ensures res.Ok? ==>
              var c := api.claims[ClaimName(user, client.name)];
              && c.expiration.None? && c.deployment.Some? && c.service.Some? && c.service.value in api.services
              && c.service.value in env.ports && |env.ports[c.service.value]| > 0
              && res.value == env.ports[c.service.value][0] != 0
  {
    var n := ClaimName(user, client.name);
    var got: Option<Error> :=
      if env.getClaim.Some? then env.getClaim else if n !in api.claims then Some(Status(NotFound)) else None;
    var claim: Claim;
    if got.Some? && IsNotFound(got.value) {
      if env.getSecret.Some? && !IsNotFound(env.getSecret.value) {
        return Err(Transient(Wrap(env.getSecret.value, "get secret failed")));
      }
      var failure := if env.createClaim.Some? then env.createClaim
                     else if n in api.claims then Some(Status(AlreadyExists)) else None;
      if failure.Some? { return Err(Transient(Wrap(failure.value, "get/create client claim failed"))); }
      claim := NewClaim(user, client, env, api.next);
      api.claims := api.claims[n := claim];
      api.next := api.next + 1;
    } else if got.Some? {
      return Err(Transient(Wrap(got.value, "get/create client claim failed")));
    } else {
      claim := api.claims[n];
    }
    if claim.expiration.Some? {
      claim := claim.(expiration := None);
      if env.updateClaim.Some? { return Err(Transient(Wrap(env.updateClaim.value, "update claim failed"))); }
      api.claims := api.claims[n := claim.(version := api.next)];
      api.next := api.next + 1;
    }
    return NodePort(api.services, claim, env);
  }

  /** A renewal concerns one claim: one that is there changes nothing but its expiration and its version, and
      a new one is found by the controller's lookups with the client's name, for the user, and mounts the
      user's key exactly if there is one. */
  lemma RenewalKeepsTheRest(cl: Cluster, user: string, client: Client, env: Env)
    ensures var n, cl' := ClaimName(user, client.name), Renewed(cl, user, client, env);
            && cl'.deployments == cl.deployments && cl'.services == cl.services
            && n in cl'.claims && cl'.claims - {n} == cl.claims - {n} && cl'.claims[n].expiration.None?
            && (cl'.claims[n].version == cl.next || cl' == cl)
            && (n in cl.claims ==>
                  cl'.claims[n] == cl.claims[n].(expiration := None, version := cl'.claims[n].version))
  {
  }

  lemma NewClaimFindsItsClient(user: string, client: Client, env: Env, version: nat, l: Listers, e: ClientSync.Env)
    requires client.name != "" && client.name in l.clients && e.getClient.None?
    ensures var c := NewClaim(user, client, env, version);
            && ClientOf(l, c, e) == Ok(l.clients[client.name])
            && c.name == ClaimName(user, client.name) && c.userName == user && c.uid == env.uid
            && c.expiration.None? && c.deployment.None? && c.service.None?
            && (env.getSecret.None? <==> |c.secrets| > 0) && |c.secrets| <= 1
            && (forall s | s in c.secrets :: s.name == "ssh" && s.secretName == user + "-ssh-key" && s.mode == 0x1ed)
  {
  }

  /** What a renewal leaves behind, by success or by a failure after it, is a run of the lease protocol.  If
      it writes, its lease is promised to the user: no controller deletes the claim before the deadline,
      unless that was decided already.  It does not write exactly if the expiration is empty already. */
  lemma RenewalIsPromised(w: Leases.World, cl: Cluster, user: string, client: Client, env: Env)
    requires Leases.Inv(w) && ClientLeases.Represents(w, cl)
    requires ClaimName(user, client.name) in w.leases ==> w.leases[ClaimName(user, client.name)] >= client.lease
    ensures var n := ClaimName(user, client.name);
            if n in cl.claims && cl.claims[n].expiration.None? then Renewed(cl, user, client, env) == cl
            else exists w' :: ClientLeases.Represents(w', Renewed(cl, user, client, env))
                              && Renewals.EndsIn(w, w', n, client.lease)
  {
    var n := ClaimName(user, client.name);
    if !(n in cl.claims && cl.claims[n].expiration.None?) {
      var w' := Renewals.RenewalEnds(w, n, client.lease);
      RenewedIsRepresented(w, w', cl, user, client, env);
    }
  }

  lemma RenewedIsRepresented(w: Leases.World, w': Leases.World, cl: Cluster, user: string, client: Client, env: Env)
    requires ClientLeases.Represents(w, cl) && w'.next == w.next + 1
    requires w'.server == w.server[ClaimName(user, client.name) := Leases.Claim(w.next, None)]
    requires var n := ClaimName(user, client.name); n in cl.claims ==> cl.claims[n].expiration.Some?
    ensures ClientLeases.Represents(w', Renewed(cl, user, client, env))
  {
  }
}
