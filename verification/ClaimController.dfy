/** Server claims on the API server, over one namespace. */
module ClaimStore {
  import opened Prelude
  import opened KubeTime
  import opened Errors
  import opened Labels
  import opened Cells

  datatype Claim = Claim(
    name: string, version: nat, labels: Labels, distccName: string, userName: string, expiration: Option<Time>)

  datatype Claims = Claims(claims: map<string, Claim>, next: nat)

  function Created(st: Claims, c: Claim, fault: Option<Error>): Result<Claims, Error> {
    if fault.Some? then Err(fault.value)
    else if c.name in st.claims then Err(Status(AlreadyExists))
    else Ok(Claims(st.claims[c.name := c.(version := st.next)], st.next + 1))
  }

  /** An Update carries the version it was read at, and replaces nothing newer. */
  function Replaced(st: Claims, c: Claim, fault: Option<Error>): Result<Claims, Error> {
    if fault.Some? then Err(fault.value)
    else if c.name !in st.claims then Err(Status(NotFound))
    else if st.claims[c.name].version != c.version then Err(Status(Conflict))
    else Ok(Claims(st.claims[c.name := c.(version := st.next)], st.next + 1))
  }

  /** A Delete is by name alone. */
  function Deleted(st: Claims, name: string, fault: Option<Error>): Result<Claims, Error> {
    if fault.Some? then Err(fault.value)
    else if name !in st.claims then Err(Status(NotFound))
    else Ok(st.(claims := st.claims - {name}))
  }

  /** A claim as an object in memory. */
  class DistccClaim {
    const name: string
    const labels: Labels
    const distccName: string
    const userName: string
    var version: nat
    var expirationTime: TimeCell?

    constructor (name: string, version: nat, labels: Labels, distccName: string, userName: string)
      ensures Value() == Claim(name, version, labels, distccName, userName, None)
    {
      this.name, this.version, this.labels := name, version, labels;
      this.distccName, this.userName := distccName, userName;
      expirationTime := null;
    }

    /** What the object says on the wire. */
    function Value(): Claim
      reads this, expirationTime
    {
      Claim(name, version, labels, distccName, userName, At(expirationTime))
    }

    /** DeepCopy: an equal object with a cell of its own. */
    method DeepCopy() returns (out: DistccClaim)
      ensures fresh(out) && out.Value() == Value()
      ensures out.expirationTime != null ==> fresh(out.expirationTime)
    {
      out := new DistccClaim(name, version, labels, distccName, userName);
      if expirationTime != null {
        out.expirationTime := new TimeCell(expirationTime.time);
      }
    }
  }

  class ApiServer {
    var claims: map<string, Claim>
    var next: nat

    constructor ()
      ensures State() == Claims(map[], 0)
    {
      claims, next := map[], 0;
    }

    function State(): Claims
      reads this
    {
      Claims(claims, next)
    }

    /** Get decodes the stored claim into objects of its own. */
    method Get(name: string, fault: Option<Error>) returns (res: Result<DistccClaim, Error>)
      ensures fault.Some? ==> res == Err(fault.value)
      ensures fault.None? && name !in claims ==> res == Err(Status(NotFound))
      ensures fault.None? && name in claims ==>
                res.Ok? && fresh(res.value) && res.value.Value() == claims[name].(name := res.value.name)
      ensures res.Ok? && res.value.expirationTime != null ==> fresh(res.value.expirationTime)
      ensures res.Ok? && claims[name].name == name ==> res.value.name == name
    {
      if fault.Some? { return Err(fault.value); }
      if name !in claims { return Err(Status(NotFound)); }
      var c := claims[name];
      var out := new DistccClaim(c.name, c.version, c.labels, c.distccName, c.userName);
      if c.expiration.Some? {
        out.expirationTime := new TimeCell(c.expiration.value);
      }
      return Ok(out);
    }

    /** Create answers with the stored claim. */
    method Create(c: DistccClaim, fault: Option<Error>) returns (err: Option<Error>)
      modifies this, c`version
      ensures match Created(old(State()), old(c.Value()), fault)
              case Err(e) => err == Some(e) && State() == old(State()) && c.version == old(c.version)
              case Ok(st) => err == None && State() == st && c.version == old(next)
    {
      if fault.Some? { return fault; }
      if c.name in claims { return Some(Status(AlreadyExists)); }
      c.version := next;
      claims := claims[c.name := c.Value()];
      next := next + 1;
      return None;
    }

    method Update(c: DistccClaim, fault: Option<Error>) returns (err: Option<Error>)
      modifies this
      ensures match Replaced(old(State()), c.Value(), fault)
              case Err(e) => err == Some(e) && State() == old(State())
              case Ok(st) => err == None && State() == st
    {
      if fault.Some? { return fault; }
      if c.name !in claims { return Some(Status(NotFound)); }
      if claims[c.name].version != c.version { return Some(Status(Conflict)); }
      claims := claims[c.name := c.Value().(version := next)];
      next := next + 1;
      return None;
    }

    method Delete(name: string, fault: Option<Error>) returns (err: Option<Error>)
      modifies this
      ensures match Deleted(old(State()), name, fault)
              case Err(e) => err == Some(e) && State() == old(State())
              case Ok(st) => err == None && State() == st
    {
      if fault.Some? { return fault; }
      if name !in claims { return Some(Status(NotFound)); }
      claims := claims - {name};
      return None;
    }
  }
}

/** The claim controller: one Sync of a server claim. */
module ClaimController {
  import opened Prelude
  import opened KubeTime
  import opened Expiration
  import opened Errors
  import opened Labels
  import opened Cells
  import opened ClaimStore
  import Leases
  import LeasePasses

  /** What the controller reads of a Distcc. */
  datatype Distcc = Distcc(labels: Labels, lease: Time)

  /** Clock readings of updateExpiration and isExpired, and the failures of lookups and calls. */
  datatype Env = Env(stamping: Time, testing: Time, get: Option<Error>, delete: Option<Error>, update: Option<Error>)

  datatype Outcome = Outcome(store: Claims, updated: bool, err: Option<Error>)

  function DistccNotFound(message: string): Error { Eventful(Plain(message), Event("ErrDistccNotFound", message)) }

  const NO_NAME: string := "spec.distccName name must be specified"
  const NOT_PRESENT: string := "referenced Distcc not present yet"
  const NO_MATCH: string := "metadata.Labels cannot be matched by the referenced Distcc"

  /** The claim refers to a Distcc whose labels it carries. */
  predicate Admissible(distccs: map<string, Distcc>, c: Claim, get: Option<Error>) {
    && c.distccName != "" && get.None? && c.distccName in distccs
    && Matches(SetSelector(distccs[c.distccName].labels), c.labels)
  }

  /** What an admissible claim's Sync does to the store. */
  function Acted(st: Claims, c: Claim, e: Time, due: bool, env: Env): Outcome {
    if Expired(e, env.testing) then
      match Deleted(st, c.name, env.delete)
      case Err(err) => Outcome(st, false, Some(Transient(err)))
      case Ok(st') => Outcome(st', false, None)
    else if due then
      match Replaced(st, c.(expiration := Some(e)), env.update)
      case Err(err) => Outcome(st, true, Some(Transient(err)))
      case Ok(st') => Outcome(st', true, None)
    else Outcome(st, false, None)
  }

  /** Sync as a function of the store, the cached claim and the environment. */
  function SyncClaim(st: Claims, distccs: map<string, Distcc>, c: Claim, env: Env): Outcome {
    if c.distccName == "" then Outcome(st, false, Some(DistccNotFound(NO_NAME)))
    else if env.get.Some? || c.distccName !in distccs then Outcome(st, false, Some(DistccNotFound(NOT_PRESENT)))
    else if !Matches(SetSelector(distccs[c.distccName].labels), c.labels) then
      Outcome(st, false, Some(DistccNotFound(NO_MATCH)))
    else
      var lease := distccs[c.distccName].lease;
      var e := Updated(c.expiration, env.stamping, lease);
      Acted(st, c, e, Due(c.expiration, env.stamping, lease), env)
  }

  /** A Sync of a current claim leaves an expiration that is not past at the test and within a lease from
      the stamp: the old one if that is, else the stored form of a full lease.  It changes nothing else
      about the claim, and nothing at all unless it says so.  As long as the test follows the stamp by no
      more than a lease less a second, it deletes exactly the claims whose expiration is set and past at
      the test. */
  lemma SyncDecides(st: Claims, distccs: map<string, Distcc>, c: Claim, env: Env)
    requires Admissible(distccs, c, env.get) && env.delete.None? && env.update.None?
    requires c.name in st.claims && st.claims[c.name] == c && env.stamping <= env.testing
    ensures var out, lease := SyncClaim(st, distccs, c, env), distccs[c.distccName].lease;
            var latest := env.stamping + lease;
            && out.err.None?
            && (c.name in out.store.claims ==>
                  var c' := out.store.claims[c.name];
                  && c' == c.(version := c'.version, expiration := c'.expiration)
                  && c'.expiration.Some? && env.testing <= c'.expiration.value <= latest
                  && (if Kept(c.expiration, env.stamping, lease) then out.store == st && !out.updated
                      else c'.expiration == Some(ToKubeTime(latest)) && c'.version == st.next && out.updated))
            && (c.name !in out.store.claims ==> !out.updated)
            && (env.testing <= latest - SECOND ==>
                  (c.name !in out.store.claims <==> c.expiration.Some? && c.expiration.value < env.testing))
            && out.store.claims - {c.name} == st.claims - {c.name}
  {
    if env.testing <= env.stamping + distccs[c.distccName].lease - SECOND {
      LapsedIsPast(c.expiration, env.stamping, env.testing, distccs[c.distccName].lease);
    }
  }

  /** A Sync of a cached claim that the server has in another version, or not at all, writes nothing.  It
      deletes whatever the server has under that name, exactly if the cached claim has lapsed. */
  lemma StaleSyncDecides(st: Claims, distccs: map<string, Distcc>, c: Claim, env: Env)
    requires Admissible(distccs, c, env.get) && env.delete.None?
    requires c.name in st.claims ==> st.claims[c.name].version != c.version
    ensures var out, lease := SyncClaim(st, distccs, c, env), distccs[c.distccName].lease;
            out.store == if Lapsed(c.expiration, env.stamping, env.testing, lease)
                         then st.(claims := st.claims - {c.name}) else st
  {
  }

  /** A Sync of a current claim succeeds exactly if the claim is admissible and the one call that it needs,
      if it needs one, does not fail. */
  lemma SyncSucceedsExactly(st: Claims, distccs: map<string, Distcc>, c: Claim, env: Env)
    requires c.name in st.claims && st.claims[c.name] == c
    ensures SyncClaim(st, distccs, c, env).err.None? <==>
            && c.distccName != "" && env.get.None? && c.distccName in distccs
            && (ValidSet(distccs[c.distccName].labels) ==> Carries(c.labels, distccs[c.distccName].labels))
            && var lease := distccs[c.distccName].lease;
            if Lapsed(c.expiration, env.stamping, env.testing, lease) then env.delete.None?
            else Kept(c.expiration, env.stamping, lease) || env.update.None?
  {
  }

  /** So an admissible claim that survives its Sync is still admissible, and any selector that listed it
      lists it still. */
  lemma SurvivorStaysListed(st: Claims, distccs: map<string, Distcc>, c: Claim, env: Env, listing: Selector)
    requires Admissible(distccs, c, env.get) && env.delete.None? && env.update.None?
    requires c.name in st.claims && st.claims[c.name] == c && env.stamping <= env.testing
    ensures var st' := SyncClaim(st, distccs, c, env).store;
            c.name in st'.claims ==>
              && Admissible(distccs, st'.claims[c.name], env.get)
              && (Matches(listing, st'.claims[c.name].labels) <==> Matches(listing, c.labels))
  {
    SyncDecides(st, distccs, c, env);
  }

  /** An admissible claim is listed by a selector that lies within the labels of its Distcc. */
  lemma AdmissibleIsListed(distccs: map<string, Distcc>, c: Claim, s: LabelSelector)
    requires Admissible(distccs, c, None) && ValidSelector(s)
    requires var needed := Selecting(distccs[c.distccName].labels);
             && Carries(needed, LabelsOrEmpty(s.matchLabels))
             && forall i | 0 <= i < |s.expressions| :: Settles(needed, s.expressions[i])
    ensures Matches(AsSelector(Some(s)).value, c.labels)
  {
    AcceptedClaimsAreListed(distccs[c.distccName].labels, s);
  }

  /** A failed Sync changes nothing, and its error is either transient or carries an event.  It reports an
      update exactly if that is what failed. */
  lemma FailedSyncIsHarmless(st: Claims, distccs: map<string, Distcc>, c: Claim, env: Env)
    requires SyncClaim(st, distccs, c, env).err.Some?
    ensures var out := SyncClaim(st, distccs, c, env);
            && out.store == st
            && (IsTransient(out.err.value) <==> Admissible(distccs, c, env.get))
            && (HasEvent(out.err.value).Some? <==> !Admissible(distccs, c, env.get))
            && (out.updated <==>
                  Admissible(distccs, c, env.get)
                  && !Lapsed(c.expiration, env.stamping, env.testing, distccs[c.distccName].lease))
  {
  }

  class Controller {
    const api: ApiServer
    var distccs: map<string, Distcc>

    constructor (api: ApiServer, distccs: map<string, Distcc>)
      ensures this.api == api && this.distccs == distccs
    {
      this.api, this.distccs := api, distccs;
    }

    /** Only the API server changes: the cached claim and its cell are left alone. */
    method Sync(cached: DistccClaim, env: Env) returns (updated: bool, err: Option<Error>)
      modifies api
      ensures Outcome(api.State(), updated, err) == SyncClaim(old(api.State()), distccs, cached.Value(), env)
    {
      if cached.distccName == "" { return false, Some(DistccNotFound(NO_NAME)); }
      if env.get.Some? || cached.distccName !in distccs { return false, Some(DistccNotFound(NOT_PRESENT)); }
      var distcc := distccs[cached.distccName];
      if !Matches(SetSelector(distcc.labels), cached.labels) { return false, Some(DistccNotFound(NO_MATCH)); }
      var claim := cached.DeepCopy();
      var changed := UpdateExpiration(claim, distcc, env.stamping);
      if claim.expirationTime != null && Expired(claim.expirationTime.time, env.testing) {
        err := api.Delete(claim.name, env.delete);
        return false, TransientError(err);
      }
      if changed {
        err := api.Update(claim, env.update);
        return true, TransientError(err);
      }
      return false, None;
    }

    method UpdateExpiration(claim: DistccClaim, distcc: Distcc, now: Time) returns (changed: bool)
      modifies claim`expirationTime
      ensures var e := Updated(old(At(claim.expirationTime)), now, distcc.lease);
              claim.Value() == old(claim.Value()).(expiration := Some(e))
      ensures changed == Due(old(At(claim.expirationTime)), now, distcc.lease)
      ensures !changed ==> claim.expirationTime == old(claim.expirationTime)
    {
      var maxExpiration := now + distcc.lease;
      if claim.expirationTime == null || claim.expirationTime.time > maxExpiration {
        claim.expirationTime := new TimeCell(ToKubeTime(maxExpiration));
        return true;
      }
      return false;
    }
  }

  // ---------------------------------------------------------------- Sync as steps of the lease protocol

  /** The claims as the lease protocol sees them. */
  function View(claims: map<string, Claim>): map<Leases.Name, Leases.Claim> {
    map n | n in claims :: Leases.Claim(claims[n].version, claims[n].expiration)
  }

  ghost predicate Represents(w: Leases.World, st: Claims) { w.server == View(st.claims) && w.next == st.next }

  /** Every Sync, from whatever cached version and with whatever failures, is a run of the lease protocol in
      which nobody but the pass on the claim does anything: what is proved of all its runs holds for the
      controller. */
  lemma SyncIsALeaseRun(w: Leases.World, st: Claims, distccs: map<string, Distcc>, c: Claim, env: Env)
    returns (w': Leases.World)
    requires Represents(w, st) && w.now <= env.stamping <= env.testing
    requires c.name !in w.passes && Leases.Known(w.past, c.name, Leases.Claim(c.version, c.expiration))
    requires Admissible(distccs, c, env.get) ==> c.name in w.leases && w.leases[c.name] == distccs[c.distccName].lease
    ensures Leases.ReachesAlone(w, w', c.name) && Represents(w', SyncClaim(st, distccs, c, env).store)
    ensures w'.now == env.testing && w'.passes == w.passes
  {
    if Admissible(distccs, c, env.get) {
      var lease := distccs[c.distccName].lease;
      var e, due := Updated(c.expiration, env.stamping, lease), Due(c.expiration, env.stamping, lease);
      var succeeds := if Expired(e, env.testing) then Deleted(st, c.name, env.delete).Ok?
                      else Replaced(st, c.(expiration := Some(e)), env.update).Ok?;
      w' := LeasePasses.PassReaches(w, c.name, Leases.Claim(c.version, c.expiration), env.stamping, env.testing,
                                    succeeds);
      ActedRepresents(w, w', st, c, e, due, env, succeeds);
    } else {
      Leases.AloneStays(w, c.name);
      Leases.AloneNext(w, w, Leases.Tick(env.testing - w.now), c.name);
      w' := Leases.Next(w, Leases.Tick(env.testing - w.now));
    }
  }

  lemma ActedRepresents(w: Leases.World, w': Leases.World, st: Claims, c: Claim, e: Time, due: bool, env: Env,
                        succeeds: bool)
    requires Represents(w, st)
    requires succeeds == if Expired(e, env.testing) then Deleted(st, c.name, env.delete).Ok?
                         else Replaced(st, c.(expiration := Some(e)), env.update).Ok?
    requires (w'.server, w'.next) ==
             if !succeeds then (w.server, w.next)
             else if Expired(e, env.testing) then (w.server - {c.name}, w.next)
             else if due && Leases.Accepted(w, c.name, Leases.Claim(c.version, c.expiration))
             then (w.server[c.name := Leases.Claim(w.next, Some(e))], w.next + 1)
             else (w.server, w.next)
    ensures Represents(w', Acted(st, c, e, due, env).store)
  {
  }
}
