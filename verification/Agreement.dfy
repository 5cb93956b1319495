/** The claim controller and the autoscaler agree: what claims go through is what the autoscaler wants. */
module Agreement {
  import opened Prelude
  import opened KubeTime
  import opened Labels
  import opened Scaling
  import Leases
  import LeaseRuns
  import ClaimStore
  import ClaimController
  import DistccSync

  type Claims = map<string, ClaimStore.Claim>

  /** The claims as the autoscaler's lister shows them, in its order. */
  function Shown(claims: Claims, order: seq<string>): seq<DistccSync.Claim>
    requires forall n | n in order :: n in claims
  {
    seq(|order|, i requires 0 <= i < |order| =>
      DistccSync.Claim(claims[order[i]].labels, claims[order[i]].expiration))
  }

  /** The order has every claim, and every claim once. */
  ghost predicate Lists(order: seq<string>, claims: Claims) {
    && (forall n :: n in order <==> n in claims)
    && (forall i, j | 0 <= i < j < |order| :: order[i] != order[j])
  }

  function Selected(claims: Claims, s: Selector): set<string> {
    set n | n in claims && Matches(s, claims[n].labels)
  }

  predicate CountsFor(c: ClaimStore.Claim, s: Selector, bound: Time) {
    Matches(s, c.labels) && c.expiration.Some? && c.expiration.value < bound
  }

  lemma ValidClaimsOfOneMore(before: seq<Option<Time>>, e: Option<Time>, bound: Time)
    ensures ValidClaims(before + [e], bound) == ValidClaims(before, bound) + if e.Some? && e.value < bound then 1 else 0
  {
    assert (before + [e])[..|before|] == before;
  }

  function CountedIn(claims: Claims, order: seq<string>, s: Selector, bound: Time): set<string>
    requires forall n | n in order :: n in claims
  {
    set n | n in order && CountsFor(claims[n], s, bound)
  }

  lemma OneMoreIsListed(claims: Claims, rest: seq<string>, last: string, s: Selector, bound: Time)
    requires last in claims && forall n | n in rest :: n in claims
    ensures ValidClaims(DistccSync.Listed(Shown(claims, rest + [last]), s), bound)
            == ValidClaims(DistccSync.Listed(Shown(claims, rest), s), bound)
               + if CountsFor(claims[last], s, bound) then 1 else 0
  {
    var c := claims[last];
    var shown, before := Shown(claims, rest + [last]), DistccSync.Listed(Shown(claims, rest), s);
    assert shown == Shown(claims, rest) + [DistccSync.Claim(c.labels, c.expiration)];
    assert shown[..|shown| - 1] == Shown(claims, rest);
    assert before + [] == before;
    ValidClaimsOfOneMore(before, c.expiration, bound);
  }

  lemma OneMoreIsCounted(claims: Claims, rest: seq<string>, last: string, s: Selector, bound: Time)
    requires last in claims && last !in rest && forall n | n in rest :: n in claims
    ensures |CountedIn(claims, rest + [last], s, bound)|
            == |CountedIn(claims, rest, s, bound)| + if CountsFor(claims[last], s, bound) then 1 else 0
  {
    var all, fewer := CountedIn(claims, rest + [last], s, bound), CountedIn(claims, rest, s, bound);
    var one := if CountsFor(claims[last], s, bound) then {last} else {};
    forall n ensures n in all <==> n in fewer + one {
      assert n in rest + [last] <==> n in rest || n == last;
    }
    assert all == fewer + one && last !in fewer;
  }

  lemma {:induction false} ListingCounts(claims: Claims, order: seq<string>, s: Selector, bound: Time)
    requires forall n | n in order :: n in claims
    requires forall i, j | 0 <= i < j < |order| :: order[i] != order[j]
    ensures ValidClaims(DistccSync.Listed(Shown(claims, order), s), bound) == |CountedIn(claims, order, s, bound)|
    decreases |order|
  {
    if order == [] {
      assert CountedIn(claims, order, s, bound) == {};
    } else {
      var rest, last := order[..|order| - 1], order[|order| - 1];
      assert order == rest + [last];
      ListingCounts(claims, rest, s, bound);
      OneMoreIsListed(claims, rest, last, s, bound);
      OneMoreIsCounted(claims, rest, last, s, bound);
    }
  }

  /** What the controller at the end of a run makes of its listing. */
  ghost predicate Counting(w: Leases.World, st: ClaimStore.Claims, order: seq<string>, s: Selector,
                           d: DistccSync.Distcc, env: DistccSync.Env)
  {
    && ClaimController.Represents(w, st) && Lists(order, st.claims)
    && AsSelector(d.spec.selector) == Ok(s) && env.listClaims.None? && env.counting == w.now
  }

  /** Over any listing of the stored claims, desiredReplicas counts exactly the claims that the lease
      protocol calls counted, and brings their replicas between the limits. */
  lemma WantedIsForTheCounted(w: Leases.World, st: ClaimStore.Claims, order: seq<string>, s: Selector,
                              d: DistccSync.Distcc, env: DistccSync.Env)
    requires Counting(w, st, order, s, d, env)
    ensures var count := |LeaseRuns.Counted(w, Selected(st.claims, s), d.spec.lease)|;
            && ValidClaims(DistccSync.Listed(Shown(st.claims, order), s), env.counting + d.spec.lease) == count
            && DistccSync.Wanted(d, Shown(st.claims, order), env).Ok?
            && (Sensible(d.spec.limits) && count * d.spec.limits.perUser <= MAX_INT32 ==>
                  DistccSync.Wanted(d, Shown(st.claims, order), env)
                  == Ok(Clamp(d.spec.limits, count * d.spec.limits.perUser)))
  {
    var bound, counted := w.now + d.spec.lease, LeaseRuns.Counted(w, Selected(st.claims, s), d.spec.lease);
    CountedIsListed(w, st, order, s, d.spec.lease);
    ListingCounts(st.claims, order, s, bound);
    WantedIsClamped(d, Shown(st.claims, order), s, env, |counted|);
  }

  lemma CountedIsListed(w: Leases.World, st: ClaimStore.Claims, order: seq<string>, s: Selector, lease: Time)
    requires ClaimController.Represents(w, st) && Lists(order, st.claims)
    ensures LeaseRuns.Counted(w, Selected(st.claims, s), lease) == CountedIn(st.claims, order, s, w.now + lease)
  {
  }

  lemma WantedIsClamped(d: DistccSync.Distcc, claims: seq<DistccSync.Claim>, s: Selector, env: DistccSync.Env,
                        count: nat)
    requires AsSelector(d.spec.selector) == Ok(s) && env.listClaims.None?
    requires ValidClaims(DistccSync.Listed(claims, s), env.counting + d.spec.lease) == count
    ensures DistccSync.Wanted(d, claims, env).Ok?
    ensures Sensible(d.spec.limits) && count * d.spec.limits.perUser <= MAX_INT32 ==>
              DistccSync.Wanted(d, claims, env) == Ok(Clamp(d.spec.limits, count * d.spec.limits.perUser))
  {
    if Sensible(d.spec.limits) && count * d.spec.limits.perUser <= MAX_INT32 {
      var listed := DistccSync.Listed(claims, s);
      DesiredWithoutOverflow(d.spec.limits, listed, env.counting + d.spec.lease, count * d.spec.limits.perUser);
    }
  }

  /** Every claim that survives a claim pass, that still exists unrenewed and that the Distcc selects is
      among the claims whose replicas desiredReplicas asks for, at every instant after the stamp of that
      pass and whatever else goes on. */
  lemma SurvivorIsWanted(w: Leases.World, steps: seq<Leases.Step>, i: nat, j: nat, n: string,
                         st: ClaimStore.Claims, order: seq<string>, s: Selector,
                         d: DistccSync.Distcc, env: DistccSync.Env)
    requires Leases.Inv(w) && Leases.Run(w, steps) && LeaseRuns.SparingPass(w, steps, i, j, n)
    requires LeaseRuns.Unrenewed(w, steps, j + 1, |steps|, n)
    requires Counting(Leases.After(w, steps), st, order, s, d, env)
    requires n in st.claims && Matches(s, st.claims[n].labels)
    requires var stamped := Leases.WorldAt(w, steps, i);
             env.counting > stamped.now && n in stamped.leases && stamped.leases[n] == d.spec.lease
    ensures var counted := LeaseRuns.Counted(Leases.After(w, steps), Selected(st.claims, s), d.spec.lease);
            && n in counted
            && ValidClaims(DistccSync.Listed(Shown(st.claims, order), s), env.counting + d.spec.lease) == |counted|
            && DistccSync.Wanted(d, Shown(st.claims, order), env).Ok?
            && (Sensible(d.spec.limits) && |counted| * d.spec.limits.perUser <= MAX_INT32 ==>
                  DistccSync.Wanted(d, Shown(st.claims, order), env)
                  == Ok(Clamp(d.spec.limits, |counted| * d.spec.limits.perUser)))
  {
    WantedIsForTheCounted(Leases.After(w, steps), st, order, s, d, env);
    LeaseRuns.SurvivorIsCounted(w, steps, i, j, n, Selected(st.claims, s), d.spec.lease);
  }
}
