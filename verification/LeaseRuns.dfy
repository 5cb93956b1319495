/** What whole runs of the lease protocol do to expirations: they only come down between renewals,
    writes die out, and the autoscaler's count follows. */
module LeaseRuns {
  import opened Prelude
  import opened KubeTime
  import opened Expiration
  import opened Leases
  import opened Scaling

  // ---------------------------------------------------------------- counting over a run

  predicate WritesBack(w: World, s: Step, n: Name) {
    s == SyncUpdate(n) && Current(w, n)
  }

  /** The step leaves a new version of `n` with an empty expiration: a creation or a renewal. */
  predicate Empties(w: World, s: Step, n: Name) {
    s == Create(n)
    || (s.ApiRenew? && s.request in w.requests
        && w.requests[s.request].0 == n && Accepted(w, n, w.requests[s.request].1))
  }

  /** The lease duration shown for `n` is reduced, or shows up. */
  predicate Cuts(w: World, s: Step, n: Name) {
    s.SetLease? && s.name == n && (n in w.leases ==> s.lease < w.leases[n])
  }

  function Bit(b: bool): nat { if b then 1 else 0 }

  function WriteCount(w: World, steps: seq<Step>, n: Name): nat
    requires Run(w, steps)
    decreases |steps|
  {
    if steps == [] then 0 else Bit(WritesBack(w, steps[0], n)) + WriteCount(Next(w, steps[0]), steps[1..], n)
  }

  function EmptyCount(w: World, steps: seq<Step>, n: Name): nat
    requires Run(w, steps)
    decreases |steps|
  {
    if steps == [] then 0 else Bit(Empties(w, steps[0], n)) + EmptyCount(Next(w, steps[0]), steps[1..], n)
  }

  function CutCount(w: World, steps: seq<Step>, n: Name): nat
    requires Run(w, steps)
    decreases |steps|
  {
    if steps == [] then 0 else Bit(Cuts(w, steps[0], n)) + CutCount(Next(w, steps[0]), steps[1..], n)
  }

  // ---------------------------------------------------------------- quiescence

  /** A pass on the current version has decided to change the expiration. */
  predicate Changing(w: World, n: Name) {
    Current(w, n) && match w.passes[n].stage
                     case Stamped(_, changed) => changed
                     case Updating(_) => true
                     case _ => false
  }

  predicate TooLong(w: World, n: Name, e: Time) {
    n in w.leases && e > w.now + w.leases[n]
  }

  /** The writes to `n` that can still happen if nobody empties the expiration or cuts the lease. */
  function Potential(w: World, n: Name): nat {
    if n !in w.server then 0 else
      var e := w.server[n].expiration;
      Bit(e.None? || TooLong(w, n, e.value) || Changing(w, n))
      + Bit(Changing(w, n) && TooLong(w, n, w.passes[n].stage.copy))
  }

  lemma StepSpendsPotential(w: World, s: Step, n: Name)
    requires Local(w, n) && Enabled(w, s)
    ensures Bit(WritesBack(w, s, n)) + Potential(Next(w, s), n)
            <= Potential(w, n) + Bit(Empties(w, s, n)) + Bit(Cuts(w, s, n))
  {
    match s {
      case SyncStamp(m) => StampSpendsPotential(w, m, n);
      case SyncTest(m) => TestSpendsPotential(w, m, n);
      case SyncUpdate(m) => UpdateSpendsPotential(w, m, n);
      case _ => OtherSpendsPotential(w, s, n);
    }
  }

  lemma StampSpendsPotential(w: World, m: Name, n: Name)
    requires Local(w, n) && Enabled(w, SyncStamp(m))
    ensures Potential(Next(w, SyncStamp(m)), n) <= Potential(w, n)
  {
  }

  lemma TestSpendsPotential(w: World, m: Name, n: Name)
    requires Local(w, n) && Enabled(w, SyncTest(m))
    ensures Potential(Next(w, SyncTest(m)), n) <= Potential(w, n)
  {
  }

  lemma UpdateSpendsPotential(w: World, m: Name, n: Name)
    requires Local(w, n) && Enabled(w, SyncUpdate(m))
    ensures Bit(WritesBack(w, SyncUpdate(m), n)) + Potential(Next(w, SyncUpdate(m)), n) <= Potential(w, n)
  {
  }

  lemma OtherSpendsPotential(w: World, s: Step, n: Name)
    requires Local(w, n) && Enabled(w, s) && !s.SyncStamp? && !s.SyncTest? && !s.SyncUpdate?
    ensures Potential(Next(w, s), n) <= Potential(w, n) + Bit(Empties(w, s, n)) + Bit(Cuts(w, s, n))
  {
  }

  /** Successful writes of an expiration number at most the empty states (creations and renewals) plus
      the reductions of the lease duration, plus what was pending: updates do not retrigger forever. */
  lemma {:induction false} Quiescence(w: World, steps: seq<Step>, n: Name)
    requires Inv(w) && Run(w, steps)
    ensures WriteCount(w, steps, n) + Potential(After(w, steps), n)
            <= Potential(w, n) + EmptyCount(w, steps, n) + CutCount(w, steps, n)
    ensures n !in w.server ==> WriteCount(w, steps, n) <= EmptyCount(w, steps, n) + CutCount(w, steps, n)
    decreases |steps|
  {
    if steps != [] {
      StepKeepsInv(w, steps[0]);
      InvIsLocal(w, n);
      StepSpendsPotential(w, steps[0], n);
      Quiescence(Next(w, steps[0]), steps[1..], n);
    }
  }

  // ---------------------------------------------------------------- expirations only come down

  /** `n` is gone, or has an expiration no later than `bound`. */
  predicate ExpiresBy(w: World, n: Name, bound: Time) {
    n in w.server ==> w.server[n].expiration.Some? && w.server[n].expiration.value <= bound
  }

  lemma StepKeepsExpiresBy(w: World, s: Step, n: Name, bound: Time)
    requires Local(w, n) && Enabled(w, s) && ExpiresBy(w, n, bound) && !Empties(w, s, n)
    ensures ExpiresBy(Next(w, s), n, bound)
  {
  }

  /** Nobody creates or renews `n` from step `i` on, up to step `j`. */
  predicate Unrenewed(w: World, steps: seq<Step>, i: nat, j: nat, n: Name)
    requires Run(w, steps) && i <= j <= |steps|
  {
    forall k | i <= k < j :: !Empties(WorldAt(w, steps, k), steps[k], n)
  }

  /** Between renewals the expiration of a claim never goes up, and a deleted claim stays deleted. */
  lemma {:induction false} OnlyLowered(w: World, steps: seq<Step>, i: nat, j: nat, n: Name, bound: Time)
    requires Inv(w) && Run(w, steps) && i <= j <= |steps|
    requires ExpiresBy(WorldAt(w, steps, i), n, bound) && Unrenewed(w, steps, i, j, n)
    ensures ExpiresBy(WorldAt(w, steps, j), n, bound)
    decreases j
  {
    if i < j {
      OnlyLowered(w, steps, i, j - 1, n, bound);
      InvAt(w, steps, j - 1);
      InvIsLocal(WorldAt(w, steps, j - 1), n);
      StepAt(w, steps, j - 1);
      StepKeepsExpiresBy(WorldAt(w, steps, j - 1), steps[j - 1], n, bound);
    }
  }

  // ---------------------------------------------------------------- claims that survive a pass

  /** The step ends the pass on `n`, which works on the current version, successfully and without deleting:
      there is nothing to write, or it is written. */
  predicate Survives(w: World, s: Step, n: Name) {
    Current(w, n) &&
    match w.passes[n].stage
    case Stamped(copy, changed) => s == SyncTest(n) && !changed && !Expired(copy, w.now)
    case Updating(_) => s == SyncUpdate(n)
    case _ => false
  }

  /** A pass stamps `n` with step `i` and ends with step `j`, sparing the claim. */
  predicate SparingPass(w: World, steps: seq<Step>, i: nat, j: nat, n: Name)
    requires Run(w, steps)
  {
    && i < j < |steps| && steps[i] == SyncStamp(n) && (forall k | i < k < j :: steps[k] != SyncStamp(n))
    && Survives(WorldAt(w, steps, j), steps[j], n)
  }

  /** A pass reads its clock once for the lease: whatever it leaves behind is within that reading. */
  predicate StampedWithin(w: World, n: Name, bound: Time) {
    n in w.passes && !w.passes[n].stage.Loaded? ==> w.passes[n].stage.copy <= bound
  }

  lemma {:induction false} StampIsKept(w: World, steps: seq<Step>, i: nat, j: nat, n: Name, bound: Time)
    requires Run(w, steps) && i <= j <= |steps| && StampedWithin(WorldAt(w, steps, i), n, bound)
    requires forall k | i <= k < j :: steps[k] != SyncStamp(n)
    ensures StampedWithin(WorldAt(w, steps, j), n, bound)
    decreases j
  {
    if i < j {
      StampIsKept(w, steps, i, j - 1, n, bound);
      StepAt(w, steps, j - 1);
      StepKeepsStamp(WorldAt(w, steps, j - 1), steps[j - 1], n, bound);
    }
  }

  lemma StepKeepsStamp(w: World, s: Step, n: Name, bound: Time)
    requires Enabled(w, s) && StampedWithin(w, n, bound) && s != SyncStamp(n)
    ensures StampedWithin(Next(w, s), n, bound)
  {
    if !OfPass(s, n) { OthersLeavePass(w, s, n); }
  }

  lemma SurvivorKeepsStamp(w: World, s: Step, n: Name, bound: Time)
    requires Local(w, n) && Enabled(w, s) && Survives(w, s, n) && StampedWithin(w, n, bound)
    ensures n in Next(w, s).server && n !in Next(w, s).passes && ExpiresBy(Next(w, s), n, bound)
  {
  }

  /** A claim that survives a pass is left with an expiration within a lease from the stamp of the pass. */
  lemma SurvivorExpiresBy(w: World, steps: seq<Step>, i: nat, j: nat, n: Name)
    requires Inv(w) && Run(w, steps) && SparingPass(w, steps, i, j, n)
    ensures n in WorldAt(w, steps, j + 1).server
    ensures var stamped := WorldAt(w, steps, i);
            n in stamped.leases && ExpiresBy(WorldAt(w, steps, j + 1), n, stamped.now + stamped.leases[n])
  {
    var stamped := WorldAt(w, steps, i);
    StepAt(w, steps, i);
    StampIsKept(w, steps, i + 1, j, n, stamped.now + stamped.leases[n]);
    InvAt(w, steps, j);
    InvIsLocal(WorldAt(w, steps, j), n);
    StepAt(w, steps, j);
    SurvivorKeepsStamp(WorldAt(w, steps, j), steps[j], n, stamped.now + stamped.leases[n]);
  }

  lemma SurvivorStaysWithin(w: World, steps: seq<Step>, i: nat, j: nat, k: nat, n: Name)
    requires Inv(w) && Run(w, steps) && SparingPass(w, steps, i, j, n)
    requires j < k <= |steps| && Unrenewed(w, steps, j + 1, k, n)
    ensures var stamped := WorldAt(w, steps, i);
            n in stamped.leases && ExpiresBy(WorldAt(w, steps, k), n, stamped.now + stamped.leases[n])
  {
    var stamped := WorldAt(w, steps, i);
    SurvivorExpiresBy(w, steps, i, j, n);
    OnlyLowered(w, steps, j + 1, k, n, stamped.now + stamped.leases[n]);
  }

  /** The pass on `n` that starts with step `a`, on what the server holds at that moment, ends with step `b`. */
  predicate CurrentPass(w: World, steps: seq<Step>, a: nat, b: nat, n: Name)
    requires Run(w, steps)
  {
    && a < b && EndsWith(w, steps, a + 1, b, n)
    && n in WorldAt(w, steps, a).server && steps[a] == SyncLoad(n, WorldAt(w, steps, a).server[n])
  }

  /** Whatever else goes on: a claim that survived a pass stamped at `t0` and is not renewed is deleted by
      the first pass that starts, on a current snapshot, more than a lease after `t0` and is not stopped. */
  lemma UnrenewedIsCollected(w: World, steps: seq<Step>, i: nat, j: nat, a: nat, b: nat, n: Name)
    requires Inv(w) && Run(w, steps) && SparingPass(w, steps, i, j, n) && j < a && CurrentPass(w, steps, a, b, n)
    requires Unrenewed(w, steps, j + 1, a, n)
    requires var stamped := WorldAt(w, steps, i);
             n in stamped.leases && WorldAt(w, steps, a).now > stamped.now + stamped.leases[n]
    ensures steps[b] == SyncDelete(n) || steps[b] == SyncStop(n)
    ensures steps[b] == SyncDelete(n) ==> n !in WorldAt(w, steps, b + 1).server
  {
    SurvivorStaysWithin(w, steps, i, j, a, n);
    StepAt(w, steps, a);
    ExpiredIsCollected(w, steps, a + 1, b, n);
  }

  // ---------------------------------------------------------------- what the autoscaler counts

  /** desiredReplicas counts a claim: its expiration is set and strictly before a lease taken now. */
  predicate Counts(c: Claim, now: Time, lease: Time) {
    c.expiration.Some? && c.expiration.value < now + lease
  }

  /** The claims counted at this instant among those whose labels the Distcc selects. */
  function Counted(w: World, selected: set<Name>, lease: Time): set<Name> {
    set n | n in w.server && n in selected && Counts(w.server[n], w.now, lease)
  }

  /** A claim that survives a pass is counted at every instant after the stamp of that pass, for the same
      lease and whatever else goes on, until somebody renews or deletes it. */
  lemma SurvivorIsCounted(w: World, steps: seq<Step>, i: nat, j: nat, n: Name, selected: set<Name>, lease: Time)
    requires Inv(w) && Run(w, steps) && SparingPass(w, steps, i, j, n) && n in selected
    requires Unrenewed(w, steps, j + 1, |steps|, n)
    requires var stamped := WorldAt(w, steps, i);
             After(w, steps).now > stamped.now && n in stamped.leases && stamped.leases[n] == lease
    ensures n in After(w, steps).server <==> n in Counted(After(w, steps), selected, lease)
  {
    SurvivorStaysWithin(w, steps, i, j, |steps|, n);
    WorldAtEnd(w, steps);
    ExpiringIsCounted(After(w, steps), n, selected, WorldAt(w, steps, i).now + lease, lease);
  }

  lemma ExpiringIsCounted(w: World, n: Name, selected: set<Name>, bound: Time, lease: Time)
    requires ExpiresBy(w, n, bound) && bound < w.now + lease && n in selected
    ensures n in w.server <==> n in Counted(w, selected, lease)
  {
  }

  /** What is counted stays counted until it is renewed or deleted. */
  lemma CountedStaysCounted(w: World, steps: seq<Step>, n: Name, selected: set<Name>, lease: Time)
    requires Inv(w) && Run(w, steps) && n in Counted(w, selected, lease) && Unrenewed(w, steps, 0, |steps|, n)
    ensures n in After(w, steps).server <==> n in Counted(After(w, steps), selected, lease)
  {
    var bound := w.server[n].expiration.value;
    OnlyLowered(w, steps, 0, |steps|, n, bound);
    WorldAtEnd(w, steps);
    InvAt(w, steps, |steps|);
    ExpiringIsCounted(After(w, steps), n, selected, bound, lease);
  }

  /** Renewing a counted claim takes exactly that claim out of the count. */
  lemma RenewalUncounts(w: World, request: nat, n: Name, selected: set<Name>, lease: Time)
    requires Inv(w) && Enabled(w, ApiRenew(request)) && Empties(w, ApiRenew(request), n)
    requires n in Counted(w, selected, lease)
    ensures Counted(Next(w, ApiRenew(request)), selected, lease) == Counted(w, selected, lease) - {n}
    ensures |Counted(Next(w, ApiRenew(request)), selected, lease)| == |Counted(w, selected, lease)| - 1
  {
  }

  /** A run that begins with the renewal of a counted claim: the next pass that the claim survives brings
      it back into the count, at every later instant and whatever else goes on.  Of the claims counted
      before the renewal, none is missing then that still exists and was not renewed again. */
  lemma PassRecounts(w: World, steps: seq<Step>, i: nat, j: nat, n: Name, selected: set<Name>, lease: Time)
    requires Inv(w) && Run(w, steps) && steps != [] && steps[0].ApiRenew? && Empties(w, steps[0], n)
    requires n in Counted(w, selected, lease)
    requires SparingPass(w, steps, i, j, n) && Unrenewed(w, steps, j + 1, |steps|, n)
    requires var stamped := WorldAt(w, steps, i);
             After(w, steps).now > stamped.now && n in stamped.leases && stamped.leases[n] == lease
    ensures |Counted(Next(w, steps[0]), selected, lease)| == |Counted(w, selected, lease)| - 1
    ensures forall m | m in Counted(w, selected, lease) && m in After(w, steps).server
                       && (m == n || Unrenewed(w, steps, 0, |steps|, m)) ::
                          m in Counted(After(w, steps), selected, lease)
  {
    RenewalUncounts(w, steps[0].request, n, selected, lease);
    SurvivorIsCounted(w, steps, i, j, n, selected, lease);
    forall m | m in Counted(w, selected, lease) && m in After(w, steps).server && Unrenewed(w, steps, 0, |steps|, m)
      ensures m in Counted(After(w, steps), selected, lease)
    {
      CountedStaysCounted(w, steps, m, selected, lease);
    }
  }
}

/** A controller pass of the lease protocol run to its end, as one Sync performs it. */
module LeasePasses {
  import opened Prelude
  import opened KubeTime
  import opened Expiration
  import opened Leases

  /** The world once the pass has stamped its copy. */
  function Stamping(w: World, n: Name, seen: Claim, stamping: Time): World
    requires n in w.leases
  {
    var e, due := Updated(seen.expiration, stamping, w.leases[n]), Due(seen.expiration, stamping, w.leases[n]);
    w.(now := stamping, passes := w.passes[n := Pass(seen, Stamped(e, due))])
  }

  /** The world once the pass has tested the expiration `e` that it stamped. */
  function Tested(w: World, n: Name, seen: Claim, testing: Time, e: Time, due: bool): World {
    var w' := w.(now := testing);
    if Expired(e, testing) then w'.(passes := w.passes[n := Pass(seen, Deleting(e))])
    else if due then w'.(passes := w.passes[n := Pass(seen, Updating(e))])
    else w'
  }

  lemma StampingReaches(w: World, n: Name, seen: Claim, stamping: Time)
    requires w.now <= stamping && n !in w.passes && n in w.leases && Known(w.past, n, seen)
    ensures ReachesAlone(w, Stamping(w, n, seen, stamping), n)
  {
    var w1 := Next(w, SyncLoad(n, seen));
    var w2 := Next(w1, Tick(stamping - w.now));
    AloneStays(w, n);
    AloneNext(w, w, SyncLoad(n, seen), n);
    AloneNext(w, w1, Tick(stamping - w.now), n);
    AloneNext(w, w2, SyncStamp(n), n);
    assert Next(w2, SyncStamp(n)).passes == Stamping(w, n, seen, stamping).passes;
  }

  lemma TestedReaches(w: World, n: Name, seen: Claim, stamping: Time, testing: Time)
    requires w.now <= stamping <= testing && n !in w.passes && n in w.leases && Known(w.past, n, seen)
    ensures var e, due := Updated(seen.expiration, stamping, w.leases[n]), Due(seen.expiration, stamping, w.leases[n]);
            ReachesAlone(w, Tested(w, n, seen, testing, e, due), n)
  {
    var e, due := Updated(seen.expiration, stamping, w.leases[n]), Due(seen.expiration, stamping, w.leases[n]);
    var w3 := Stamping(w, n, seen, stamping);
    StampingReaches(w, n, seen, stamping);
    AloneNext(w, w3, Tick(testing - stamping), n);
    var w4 := Next(w3, Tick(testing - stamping));
    AloneNext(w, w4, SyncTest(n), n);
    assert w4.passes - {n} == w.passes;
    assert w4.passes[n := Pass(seen, Deleting(e))] == w.passes[n := Pass(seen, Deleting(e))];
    assert w4.passes[n := Pass(seen, Updating(e))] == w.passes[n := Pass(seen, Updating(e))];
    assert Next(w4, SyncTest(n)) == Tested(w, n, seen, testing, e, due);
  }

  /** How a pass ends that has something to write: it succeeds, or it stops. */
  function LastStep(n: Name, e: Time, testing: Time, succeeds: bool): Step {
    if !succeeds then SyncStop(n) else if Expired(e, testing) then SyncDelete(n) else SyncUpdate(n)
  }

  /** A whole pass on a snapshot with nobody else around, ending successfully or not, with the server it
      leaves behind. */
  lemma PassReaches(w: World, n: Name, seen: Claim, stamping: Time, testing: Time, succeeds: bool) returns (w': World)
    requires w.now <= stamping <= testing
    requires n !in w.passes && n in w.leases && Known(w.past, n, seen)
    ensures ReachesAlone(w, w', n) && w'.now == testing && w'.passes == w.passes
    ensures var e, due := Updated(seen.expiration, stamping, w.leases[n]), Due(seen.expiration, stamping, w.leases[n]);
            (w'.server, w'.next) ==
            if !succeeds then (w.server, w.next)
            else if Expired(e, testing) then (w.server - {n}, w.next)
            else if due && Accepted(w, n, seen) then (w.server[n := Claim(w.next, Some(e))], w.next + 1)
            else (w.server, w.next)
  {
    TestedReaches(w, n, seen, stamping, testing);
    var e, due := Updated(seen.expiration, stamping, w.leases[n]), Due(seen.expiration, stamping, w.leases[n]);
    w' := Tested(w, n, seen, testing, e, due);
    assert ReachesAlone(w, w', n);
    if Expired(e, testing) || due {
      var s := LastStep(n, e, testing, succeeds);
      AloneNext(w, w', s, n);
      LastStepEnds(w, n, seen, testing, e, due, succeeds);
      w' := Next(w', s);
    }
  }

  lemma LastStepEnds(w: World, n: Name, seen: Claim, testing: Time, e: Time, due: bool, succeeds: bool)
    requires n !in w.passes && (Expired(e, testing) || due)
    ensures var w', s := Tested(w, n, seen, testing, e, due), LastStep(n, e, testing, succeeds);
            && Enabled(w', s) && Next(w', s).now == testing && Next(w', s).passes == w.passes
            && (Next(w', s).server, Next(w', s).next) ==
               if !succeeds then (w.server, w.next)
               else if Expired(e, testing) then (w.server - {n}, w.next)
               else if Accepted(w, n, seen) then (w.server[n := Claim(w.next, Some(e))], w.next + 1)
               else (w.server, w.next)
  {
    assert Tested(w, n, seen, testing, e, due).passes - {n} == w.passes;
  }
}

/** What the API does to a claim, as steps of the lease protocol. */
module Renewals {
  import opened Prelude
  import opened KubeTime
  import opened Leases

  /** The renewal may end in `w2`, and its lease is promised there: for good where a deletion takes effect
      only on the version it was decided on, and otherwise unless one was decided before. */
  ghost predicate EndsIn(w: World, w2: World, n: Name, lease: Time) {
    && Reaches(w, w2) && w2.now == w.now && n in w2.server && w2.server[n].expiration.None?
    && Promised(AtDelete, w2, n, lease, Deadline(w2, lease))
    && (!Condemned(w, n) ==> Promised(AtDecision, w2, n, lease, Deadline(w2, lease)))
    && (Condemned(w, n) && lease >= SECOND ==> !Promised(AtDecision, w2, n, lease, Deadline(w2, lease)))
  }

  lemma CreationEnds(w: World, n: Name, lease: Time) returns (w2: World)
    requires Inv(w) && n !in w.server && (n in w.leases ==> w.leases[n] >= lease)
    ensures EndsIn(w, w2, n, lease)
    ensures w2.server == w.server[n := Claim(w.next, None)] && w2.next == w.next + 1
  {
    w2 := Next(w, Create(n));
    Prepend(w, Create(n), []);
    RenewalIsPromised(w, Create(n), n, lease);
  }

  lemma RewriteEnds(w: World, n: Name, lease: Time) returns (w2: World)
    requires Inv(w) && n in w.server && w.server[n].expiration.Some? && (n in w.leases ==> w.leases[n] >= lease)
    ensures EndsIn(w, w2, n, lease)
    ensures w2.server == w.server[n := Claim(w.next, None)] && w2.next == w.next + 1
  {
    var w1 := Next(w, ApiGet(0, n));
    w2 := Next(w1, ApiRenew(0));
    StepKeepsInv(w, ApiGet(0, n));
    Prepend(w1, ApiRenew(0), []);
    Prepend(w, ApiGet(0, n), [ApiRenew(0)] + []);
    RenewalIsPromised(w1, ApiRenew(0), n, lease);
  }

  /** Whichever of the two it takes. */
  lemma RenewalEnds(w: World, n: Name, lease: Time) returns (w2: World)
    requires Inv(w) && (n in w.server ==> w.server[n].expiration.Some?) && (n in w.leases ==> w.leases[n] >= lease)
    ensures EndsIn(w, w2, n, lease)
    ensures w2.server == w.server[n := Claim(w.next, None)] && w2.next == w.next + 1
  {
    if n in w.server { w2 := RewriteEnds(w, n, lease); } else { w2 := CreationEnds(w, n, lease); }
  }
}
