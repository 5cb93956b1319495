/** The API's renewal of a server lease. */
module ServerLease {
  import opened Prelude
  import opened KubeTime
  import opened Errors
  import opened Labels
  import opened Cells
  import opened ClaimStore
  import ClaimController
  import Leases
  import Renewals

  /** What the API knows of the Distcc it got first. */
  datatype Distcc = Distcc(name: string, labels: Labels, lease: Time)

  datatype Env = Env(get: Option<Error>, create: Option<Error>, update: Option<Error>)

  /** newDistccClaim */
  function NewClaim(user: string, distcc: Distcc): Claim {
    Claim(ClaimName(user, distcc.name), 0, distcc.labels, distcc.name, user, None)
  }

  /** Every stored claim is filed under its own name. */
  ghost predicate Filed(claims: map<string, Claim>) { forall n | n in claims :: claims[n].name == n }

  /** The store after a renewal that reported no error. */
  function Renewed(st: Claims, user: string, distcc: Distcc): Claims {
    var n := ClaimName(user, distcc.name);
    if n !in st.claims then Claims(st.claims[n := NewClaim(user, distcc).(version := st.next)], st.next + 1)
    else if st.claims[n].expiration.None? then st
    else Claims(st.claims[n := st.claims[n].(expiration := None, version := st.next)], st.next + 1)
  }

  /** No call that the renewal needs fails: the claim is got, and updated unless its expiration is empty, or
      it is not there and is created. */
  predicate GoesThrough(st: Claims, user: string, distcc: Distcc, env: Env) {
    var n := ClaimName(user, distcc.name);
    if n in st.claims then env.get.None? && (st.claims[n].expiration.Some? ==> env.update.None?)
    else (env.get.None? || IsNotFound(env.get.value)) && env.create.None?
  }

  /** renewDistccLease.  It succeeds exactly if no call that it needs fails.  Success leaves the user's claim
      with an empty expiration and everything else alone; every failure is transient and changes nothing. */
  method RenewDistccLease(api: ApiServer, user: string, distcc: Distcc, env: Env) returns (err: Option<Error>)
    requires Filed(api.claims)
    modifies api
    ensures Filed(api.claims)
    ensures err.None? <==> GoesThrough(old(api.State()), user, distcc, env)
    ensures err.None? ==> api.State() == Renewed(old(api.State()), user, distcc)
    ensures err.Some? ==> IsTransient(err.value) && api.State() == old(api.State())
  {
    var claimName := ClaimName(user, distcc.name);
    var got := api.Get(claimName, env.get);
    var claim: DistccClaim;
    if got.Err? && IsNotFound(got.error) {
      claim := new DistccClaim(claimName, 0, distcc.labels, distcc.name, user);
      var failure := api.Create(claim, env.create);
      if failure.Some? { return TransientError(Wrapped(failure, "get/create distcc claim failed")); }
    } else if got.Err? {
      return TransientError(Wrapped(Some(got.error), "get/create distcc claim failed"));
    } else {
      claim := got.value;
    }
    if claim.expirationTime != null {
      claim.expirationTime := null;
      err := api.Update(claim, env.update);
    } else {
      err := None;
    }
    return TransientError(Wrapped(err, "update claim failed"));
  }

  /** A renewal concerns one claim: a new one is for the user and the Distcc and carries its labels, and one
      that is there changes nothing but its expiration and its version. */
  lemma RenewalKeepsTheRest(st: Claims, user: string, distcc: Distcc)
    ensures var n, st' := ClaimName(user, distcc.name), Renewed(st, user, distcc);
            && n in st'.claims && st'.claims - {n} == st.claims - {n}
            && st'.claims[n].expiration.None?
            && (if n in st.claims
                then st'.claims[n] == st.claims[n].(expiration := None, version := st'.claims[n].version)
                else st'.claims[n].(version := 0) == Claim(n, 0, distcc.labels, distcc.name, user, None))
            && (st'.claims[n].version == st.next || st' == st)
  {
  }

  /** A claim that the API creates passes the claim controller's label test against the same Distcc. */
  lemma CreatedClaimIsAdmissible(user: string, distcc: Distcc, distccs: map<string, ClaimController.Distcc>)
    requires distcc.name != "" && distcc.name in distccs && distccs[distcc.name].labels == distcc.labels
    ensures ClaimController.Admissible(distccs, NewClaim(user, distcc), None)
  {
  }

  /** A successful renewal is a run of the lease protocol.  If it writes, its lease is promised to the user:
      no claim controller deletes the claim before the deadline, unless that was decided already.  It does
      not write exactly if the expiration is empty already. */
  lemma RenewalIsPromised(w: Leases.World, st: Claims, user: string, distcc: Distcc)
    requires Leases.Inv(w) && ClaimController.Represents(w, st)
    requires ClaimName(user, distcc.name) in w.leases ==> w.leases[ClaimName(user, distcc.name)] >= distcc.lease
    ensures var n := ClaimName(user, distcc.name);
            if n in st.claims && st.claims[n].expiration.None? then Renewed(st, user, distcc) == st
            else exists w' :: ClaimController.Represents(w', Renewed(st, user, distcc))
                              && Renewals.EndsIn(w, w', n, distcc.lease)
  {
    var n := ClaimName(user, distcc.name);
    if !(n in st.claims && st.claims[n].expiration.None?) {
      var w' := Renewals.RenewalEnds(w, n, distcc.lease);
      RenewedIsRepresented(w, w', st, user, distcc);
    }
  }

  lemma RenewedIsRepresented(w: Leases.World, w': Leases.World, st: Claims, user: string, distcc: Distcc)
    requires ClaimController.Represents(w, st) && w'.next == w.next + 1
    requires w'.server == w.server[ClaimName(user, distcc.name) := Leases.Claim(w.next, None)]
    requires var n := ClaimName(user, distcc.name); n in st.claims ==> st.claims[n].expiration.Some?
    ensures ClaimController.Represents(w', Renewed(st, user, distcc))
  {
  }
}
