/** The lease protocol between the API and a claim controller, as a machine of atomic steps.

    The API renews a claim by writing an empty expiration.  The controller turns it into a time, caps
    it, and deletes expired claims.  A controller pass is not atomic: it takes a snapshot, reads the
    clock, reads it again, and only then writes or deletes, while everybody else goes on.

    Caches may be arbitrarily stale, so a pass may start from any version ever written. */
module Leases {
  import opened Prelude
  import opened KubeTime
  import opened Expiration

  type Name = string

  datatype Claim = Claim(version: nat, expiration: Option<Time>)

  /** How far a controller pass has come. */
  datatype Stage =
    | Loaded
    | Stamped(copy: Time, changed: bool)  // updateExpiration has run on the deep copy
    | Updating(copy: Time)                // about to write the copy back
    | Deleting(copy: Time)                // isExpired said yes

  datatype Pass = Pass(seen: Claim, stage: Stage)

  /** `past` holds every version ever written; `leases` the lease duration of the Distcc that each
      claim refers to, as the controller's lister shows it (no entry when the Distcc is missing). */
  datatype World = World(
    now: Time,
    server: map<Name, Claim>,
    past: map<nat, (Name, Claim)>,
    next: nat,
    leases: map<Name, Time>,
    passes: map<Name, Pass>,
    requests: map<nat, (Name, Claim)>)

  datatype Step =
    | Tick(d: nat)
    | SetLease(name: Name, lease: Time)
    | DropLease(name: Name)
    | Create(name: Name)
    | ApiGet(request: nat, name: Name)
    | ApiRenew(request: nat)
    | Touch(name: Name)                // something else about the claim is written
    | UserDelete(name: Name)
    | SyncLoad(name: Name, seen: Claim)
    | SyncStamp(name: Name)
    | SyncTest(name: Name)
    | SyncUpdate(name: Name)
    | SyncDelete(name: Name)
    | SyncStop(name: Name)

  const EMPTY: World := World(0, map[], map[], 0, map[], map[], map[])

  /** `c` is a version of `n` that was once written. */
  predicate Known(past: map<nat, (Name, Claim)>, n: Name, c: Claim) {
    c.version in past && past[c.version] == (n, c)
  }

  // ---------------------------------------------------------------- steps

  predicate Enabled(w: World, s: Step) {
    match s
    case Create(n) => n !in w.server
    case ApiGet(r, n) => n in w.server
    case ApiRenew(r) => r in w.requests && w.requests[r].1.expiration.Some?
    case Touch(n) => n in w.server
    case UserDelete(n) => n in w.server
    case SyncLoad(n, seen) => n !in w.passes && Known(w.past, n, seen)
    case SyncStamp(n) => n in w.passes && w.passes[n].stage.Loaded? && n in w.leases
    case SyncTest(n) => n in w.passes && w.passes[n].stage.Stamped?
    case SyncUpdate(n) => n in w.passes && w.passes[n].stage.Updating?
    case SyncDelete(n) => n in w.passes && w.passes[n].stage.Deleting?
    case SyncStop(n) => n in w.passes
    case _ => true
  }

  function Write(w: World, n: Name, expiration: Option<Time>): World {
    var c := Claim(w.next, expiration);
    w.(server := w.server[n := c], past := w.past[w.next := (n, c)], next := w.next + 1)
  }

  /** An Update is accepted only if nobody has written since the object was read. */
  predicate Accepted(w: World, n: Name, seen: Claim) {
    n in w.server && w.server[n].version == seen.version
  }

  function SetStage(w: World, n: Name, stage: Stage): World
    requires n in w.passes
  {
    w.(passes := w.passes[n := Pass(w.passes[n].seen, stage)])
  }

  function EndPass(w: World, n: Name): World {
    w.(passes := w.passes - {n})
  }

  function Remove(w: World, n: Name): World {
    w.(server := w.server - {n})
  }

  function Stamp(w: World, n: Name): Stage
    requires n in w.passes && n in w.leases
  {
    var e := w.passes[n].seen.expiration;
    Stamped(Updated(e, w.now, w.leases[n]), Due(e, w.now, w.leases[n]))
  }

  function Next(w: World, s: Step): World
    requires Enabled(w, s)
  {
    match s
    case Tick(d) => w.(now := w.now + d)
    case SetLease(n, lease) => w.(leases := w.leases[n := lease])
    case DropLease(n) => w.(leases := w.leases - {n})
    case Create(n) => Write(w, n, None)
    case ApiGet(r, n) => w.(requests := w.requests[r := (n, w.server[n])])
    case ApiRenew(r) =>
      var (n, seen) := w.requests[r];
      var w' := w.(requests := w.requests - {r});
      if Accepted(w, n, seen) then Write(w', n, None) else w'
    case Touch(n) => Write(w, n, w.server[n].expiration)
    case UserDelete(n) => Remove(w, n)
    case SyncLoad(n, seen) => w.(passes := w.passes[n := Pass(seen, Loaded)])
    case SyncStamp(n) => SetStage(w, n, Stamp(w, n))
    case SyncTest(n) =>
      var stage := w.passes[n].stage;
      if Expired(stage.copy, w.now) then SetStage(w, n, Deleting(stage.copy))
      else if stage.changed then SetStage(w, n, Updating(stage.copy))
      else EndPass(w, n)
    case SyncUpdate(n) =>
      var p := w.passes[n];
      if Accepted(w, n, p.seen) then Write(EndPass(w, n), n, Some(p.stage.copy)) else EndPass(w, n)
    case SyncDelete(n) => Remove(EndPass(w, n), n)
    case SyncStop(n) => EndPass(w, n)
  }

  predicate Run(w: World, steps: seq<Step>)
    decreases |steps|
  {
    steps == [] || (Enabled(w, steps[0]) && Run(Next(w, steps[0]), steps[1..]))
  }

  function After(w: World, steps: seq<Step>): World
    requires Run(w, steps)
    decreases |steps|
  {
    if steps == [] then w else After(Next(w, steps[0]), steps[1..])
  }

  /** The world before step `i` of a run. */
  function WorldAt(w: World, steps: seq<Step>, i: nat): World
    requires Run(w, steps) && i <= |steps|
    decreases i
  {
    if i == 0 then w else WorldAt(Next(w, steps[0]), steps[1..], i - 1)
  }

  lemma {:induction false} StepAt(w: World, steps: seq<Step>, i: nat)
    requires Run(w, steps) && i < |steps|
    ensures Enabled(WorldAt(w, steps, i), steps[i])
    ensures WorldAt(w, steps, i + 1) == Next(WorldAt(w, steps, i), steps[i])
    decreases i
  {
    if i > 0 { StepAt(Next(w, steps[0]), steps[1..], i - 1); }
  }

  lemma {:induction false} WorldAtEnd(w: World, steps: seq<Step>)
    requires Run(w, steps)
    ensures WorldAt(w, steps, |steps|) == After(w, steps)
    decreases |steps|
  {
    if steps != [] { WorldAtEnd(Next(w, steps[0]), steps[1..]); }
  }

  // ---------------------------------------------------------------- what every step keeps

  predicate PassOk(p: Pass, now: Time) {
    match p.stage
    case Loaded => true
    case Stamped(copy, changed) =>
      if changed then p.seen.expiration.None? || copy < p.seen.expiration.value
      else p.seen.expiration == Some(copy)
    case Updating(copy) => p.seen.expiration.None? || copy < p.seen.expiration.value
    case Deleting(copy) => copy < now && (p.seen.expiration.None? || copy <= p.seen.expiration.value)
  }

  ghost predicate Inv(w: World) {
    && (forall n | n in w.server :: Known(w.past, n, w.server[n]))
    && (forall v | v in w.past :: v < w.next)
    && (forall n | n in w.passes :: Known(w.past, n, w.passes[n].seen))
    && (forall n | n in w.passes :: PassOk(w.passes[n], w.now))
    && (forall r | r in w.requests :: Known(w.past, w.requests[r].0, w.requests[r].1))
  }

  lemma WriteKeepsInv(w: World, n: Name, expiration: Option<Time>)
    requires Inv(w)
    ensures Inv(Write(w, n, expiration))
  {
    var w' := Write(w, n, expiration);
    assert forall m, c | Known(w.past, m, c) :: Known(w'.past, m, c);
    assert Known(w'.past, n, w'.server[n]);
  }

  lemma SetPassKeepsInv(w: World, n: Name, p: Pass)
    requires Inv(w) && Known(w.past, n, p.seen) && PassOk(p, w.now)
    ensures Inv(w.(passes := w.passes[n := p]))
  {
  }

  lemma StepKeepsInv(w: World, s: Step)
    requires Inv(w) && Enabled(w, s)
    ensures Inv(Next(w, s))
    ensures w.now <= Next(w, s).now
  {
    if AnyPass(s) { PassStepKeepsInv(w, s); } else { OtherStepKeepsInv(w, s); }
  }

  lemma OtherStepKeepsInv(w: World, s: Step)
    requires Inv(w) && Enabled(w, s) && !AnyPass(s)
    ensures Inv(Next(w, s)) && w.now <= Next(w, s).now
  {
    match s {
      case Create(n) => WriteKeepsInv(w, n, None);
      case Touch(n) => WriteKeepsInv(w, n, w.server[n].expiration);
      case ApiRenew(r) => WriteKeepsInv(w.(requests := w.requests - {r}), w.requests[r].0, None);
      case UserDelete(n) => RemoveKeepsInv(w, n);
      case Tick(d) => TickKeepsInv(w, d);
      case _ =>
    }
  }

  lemma PassStepKeepsInv(w: World, s: Step)
    requires Inv(w) && Enabled(w, s) && AnyPass(s)
    ensures Inv(Next(w, s)) && w.now == Next(w, s).now
  {
    match s {
      case SyncLoad(n, seen) => SetPassKeepsInv(w, n, Pass(seen, Loaded));
      case SyncStamp(n) => SetPassKeepsInv(w, n, Pass(w.passes[n].seen, Stamp(w, n)));
      case SyncTest(n) => SyncTestKeepsInv(w, n);
      case SyncUpdate(n) =>
        EndPassKeepsInv(w, n);
        WriteKeepsInv(EndPass(w, n), n, Some(w.passes[n].stage.copy));
      case SyncDelete(n) =>
        EndPassKeepsInv(w, n);
        RemoveKeepsInv(EndPass(w, n), n);
      case SyncStop(n) => EndPassKeepsInv(w, n);
    }
  }

  lemma EndPassKeepsInv(w: World, n: Name)
    requires Inv(w)
    ensures Inv(EndPass(w, n))
  {
  }

  lemma RemoveKeepsInv(w: World, n: Name)
    requires Inv(w)
    ensures Inv(Remove(w, n))
  {
  }

  lemma TickKeepsInv(w: World, d: nat)
    requires Inv(w)
    ensures Inv(w.(now := w.now + d))
  {
  }

  lemma SyncTestKeepsInv(w: World, n: Name)
    requires Inv(w) && Enabled(w, SyncTest(n))
    ensures Inv(Next(w, SyncTest(n)))
  {
    var p := w.passes[n];
    if Expired(p.stage.copy, w.now) {
      SetPassKeepsInv(w, n, Pass(p.seen, Deleting(p.stage.copy)));
    } else {
      SetPassKeepsInv(w, n, Pass(p.seen, if p.stage.changed then Updating(p.stage.copy) else p.stage));
    }
  }

  lemma {:induction false} RunKeepsInv(w: World, steps: seq<Step>)
    requires Inv(w) && Run(w, steps)
    ensures Inv(After(w, steps)) && w.now <= After(w, steps).now
    decreases |steps|
  {
    if steps != [] {
      StepKeepsInv(w, steps[0]);
      RunKeepsInv(Next(w, steps[0]), steps[1..]);
    }
  }

  /** Every run from the empty world keeps the invariant, so it holds of every reachable world. */
  lemma ReachableKeepsInv(steps: seq<Step>)
    requires Run(EMPTY, steps)
    ensures Inv(After(EMPTY, steps))
  {
    RunKeepsInv(EMPTY, steps);
  }

  lemma {:induction false} InvAt(w: World, steps: seq<Step>, i: nat)
    requires Inv(w) && Run(w, steps) && i <= |steps|
    ensures Inv(WorldAt(w, steps, i)) && w.now <= WorldAt(w, steps, i).now
    decreases i
  {
    if i > 0 {
      StepKeepsInv(w, steps[0]);
      InvAt(Next(w, steps[0]), steps[1..], i - 1);
    }
  }

  /** The step belongs to the pass on `n`. */
  predicate OfPass(s: Step, n: Name) { AnyPass(s) && s.name == n }

  lemma OthersLeavePass(w: World, s: Step, n: Name)
    requires Enabled(w, s) && !OfPass(s, n)
    ensures n in Next(w, s).passes <==> n in w.passes
    ensures n in w.passes ==> Next(w, s).passes[n] == w.passes[n]
    ensures w.now <= Next(w, s).now
  {
    if !AnyPass(s) { PassesAreLeft(w, s); }
  }

  predicate AnyPass(s: Step) {
    s.SyncLoad? || s.SyncStamp? || s.SyncTest? || s.SyncUpdate? || s.SyncDelete? || s.SyncStop?
  }

  lemma PassesAreLeft(w: World, s: Step)
    requires Enabled(w, s) && !AnyPass(s)
    ensures Next(w, s).passes == w.passes && w.now <= Next(w, s).now
  {
  }

  /** The pass on `n` works on the version the server holds. */
  predicate Current(w: World, n: Name) {
    n in w.passes && n in w.server && w.passes[n].seen.version == w.server[n].version
  }

  /** What is asked of the deletions of a run: that each takes effect on the very version it was decided
      on, or that it is decided on a version that is current then, or nothing. */
  datatype Care = AtDelete | AtDecision | Careless

  /** The step decides that `n` is to be deleted. */
  predicate Condemns(w: World, s: Step, n: Name) {
    s == SyncTest(n) && n in w.passes && w.passes[n].stage.Stamped? && Expired(w.passes[n].stage.copy, w.now)
  }

  predicate Respects(care: Care, w: World, s: Step, n: Name) {
    match care
    case AtDelete => s == SyncDelete(n) ==> Current(w, n)
    case AtDecision => Condemns(w, s, n) ==> Current(w, n)
    case Careless => true
  }

  predicate Careful(care: Care, w: World, steps: seq<Step>, n: Name)
    requires Run(w, steps)
    decreases |steps|
  {
    steps == [] || (Respects(care, w, steps[0], n) && Careful(care, Next(w, steps[0]), steps[1..], n))
  }

  /** A controller deletes `n` from the server. */
  predicate Collects(w: World, s: Step, n: Name) { s == SyncDelete(n) && n in w.server }

  /** No controller deletes `n` up to and including the deadline. */
  predicate Spares(w: World, steps: seq<Step>, n: Name, deadline: Time)
    requires Run(w, steps)
    decreases |steps|
  {
    steps == []
    || ((Collects(w, steps[0], n) ==> w.now > deadline) && Spares(Next(w, steps[0]), steps[1..], n, deadline))
  }

  predicate LeaseAtLeast(steps: seq<Step>, n: Name, lease: Time) {
    forall i | 0 <= i < |steps| && steps[i].SetLease? && steps[i].name == n :: steps[i].lease >= lease
  }

  // ---------------------------------------------------------------- the lease promise

  /** A pass on the current version of `n` that has read its clock stored no less than `deadline`. */
  predicate InTime(w: World, n: Name, deadline: Time) {
    Current(w, n) && !w.passes[n].stage.Loaded? ==> w.passes[n].stage.copy >= deadline
  }

  predicate Guarded(w: World, n: Name, lease: Time, deadline: Time) {
    && deadline % SECOND == 0 && deadline <= w.now + lease
    && (n in w.leases ==> w.leases[n] >= lease)
    && (n in w.server && w.server[n].expiration.Some? ==> w.server[n].expiration.value >= deadline)
    && InTime(w, n, deadline)
  }

  /** What the invariant says about one claim. */
  predicate Local(w: World, n: Name) {
    && (n in w.server ==> w.server[n].version < w.next)
    && (n in w.passes ==> w.passes[n].seen.version < w.next && PassOk(w.passes[n], w.now))
    && (Current(w, n) ==> w.passes[n].seen == w.server[n])
  }

  lemma InvIsLocal(w: World, n: Name)
    requires Inv(w)
    ensures Local(w, n)
  {
    assert n in w.server ==> Known(w.past, n, w.server[n]);
    assert n in w.passes ==> Known(w.past, n, w.passes[n].seen);
  }

  lemma StepKeepsGuarded(w: World, s: Step, n: Name, lease: Time, deadline: Time)
    requires Local(w, n) && Enabled(w, s) && Guarded(w, n, lease, deadline)
    requires s.SetLease? && s.name == n ==> s.lease >= lease
    ensures Guarded(Next(w, s), n, lease, deadline)
  {
    if OfPass(s, n) {
      if s == SyncStamp(n) {
        KubeTimeMonotone(deadline, w.now + w.leases[n]);
        KubeTimeIsUnique(deadline, deadline);
      }
    } else {
      OthersLeavePass(w, s, n);
      OthersMakeNothingCurrent(w, s, n);
    }
  }

  /** What others write is new, and never what a pass has seen. */
  lemma OthersMakeNothingCurrent(w: World, s: Step, n: Name)
    requires Local(w, n) && Enabled(w, s) && !OfPass(s, n)
    ensures Current(Next(w, s), n) ==> Current(w, n) && Next(w, s).server[n] == w.server[n]
    ensures n in Next(w, s).server ==>
              Next(w, s).server[n].expiration.None?
              || (n in w.server && Next(w, s).server[n].expiration == w.server[n].expiration)
  {
  }

  /** The deletion of `n` is decided, and still to come. */
  predicate Condemned(w: World, n: Name) { n in w.passes && w.passes[n].stage.Deleting? }

  lemma StepCondemnsLate(w: World, s: Step, n: Name, lease: Time, deadline: Time)
    requires Local(w, n) && Enabled(w, s) && Guarded(w, n, lease, deadline) && Respects(AtDecision, w, s, n)
    requires Condemned(w, n) ==> w.now > deadline
    ensures Condemned(Next(w, s), n) ==> Next(w, s).now > deadline
  {
    if !OfPass(s, n) { OthersLeavePass(w, s, n); }
  }

  /** In every run that takes care of its deletions, a guarded claim is deleted by no controller up to the
      deadline.  If care is only taken when a deletion is decided, none may have been decided before. */
  lemma {:induction false} GuardedIsSpared(care: Care, w: World, steps: seq<Step>, n: Name, lease: Time, deadline: Time)
    requires Inv(w) && Run(w, steps) && Guarded(w, n, lease, deadline)
    requires Careful(care, w, steps, n) && LeaseAtLeast(steps, n, lease) && !care.Careless?
    requires care.AtDecision? && Condemned(w, n) ==> w.now > deadline
    ensures Spares(w, steps, n, deadline)
    decreases |steps|
  {
    if steps != [] {
      var s := steps[0];
      StepKeepsInv(w, s);
      InvIsLocal(w, n);
      StepKeepsGuarded(w, s, n, lease, deadline);
      if care.AtDecision? { StepCondemnsLate(w, s, n, lease, deadline); }
      assert forall i | 0 <= i < |steps[1..]| :: steps[1..][i] == steps[i + 1];
      GuardedIsSpared(care, Next(w, s), steps[1..], n, lease, deadline);
    }
  }

  /** The API leaves `n` with an empty expiration at `w.now`.  The deadline it buys is the stored form
      of a lease taken right then, which is less than a second short of the full lease. */
  function Deadline(w: World, lease: Time): (d: Time)
    ensures d > w.now + lease - SECOND
  {
    ToKubeTime(w.now + lease)
  }

  /** The promise: whatever happens next, no controller deletes `n` up to the deadline, as long as the
      lease is not shortened and that much care is taken of deletions. */
  ghost predicate Promised(care: Care, w: World, n: Name, lease: Time, deadline: Time) {
    forall steps: seq<Step> | Run(w, steps) && Careful(care, w, steps, n) && LeaseAtLeast(steps, n, lease) ::
      Spares(w, steps, n, deadline)
  }

  lemma Prepend(w: World, s: Step, rest: seq<Step>)
    requires Enabled(w, s) && Run(Next(w, s), rest)
    ensures Run(w, [s] + rest) && After(w, [s] + rest) == After(Next(w, s), rest)
    ensures forall care, n :: Careful(care, w, [s] + rest, n) ==
                              (Respects(care, w, s, n) && Careful(care, Next(w, s), rest, n))
    ensures forall n, deadline :: Spares(w, [s] + rest, n, deadline) ==
                                  ((Collects(w, s, n) ==> w.now > deadline) && Spares(Next(w, s), rest, n, deadline))
  {
    assert ([s] + rest)[1..] == rest;
  }

  /** The steps that collect an expired claim on which no pass is going on. */
  function Collect(w: World, n: Name): seq<Step>
    requires n in w.server
  {
    [SyncLoad(n, w.server[n])] + ([SyncStamp(n)] + ([SyncTest(n)] + ([SyncDelete(n)] + [])))
  }

  lemma CollectFromStamp(w: World, n: Name)
    requires Local(w, n) && Current(w, n) && n in w.leases && w.passes[n].stage.Loaded?
    requires w.server[n].expiration.Some? && w.now > w.server[n].expiration.value
    ensures var steps := [SyncStamp(n)] + ([SyncTest(n)] + ([SyncDelete(n)] + []));
            && Run(w, steps) && (forall care: Care :: Careful(care, w, steps, n)) && !Spares(w, steps, n, w.now)
            && After(w, steps).server == w.server - {n}
  {
    var w1 := Next(w, SyncStamp(n));
    var w2 := Next(w1, SyncTest(n));
    Prepend(w2, SyncDelete(n), []);
    Prepend(w1, SyncTest(n), [SyncDelete(n)] + []);
    Prepend(w, SyncStamp(n), [SyncTest(n)] + ([SyncDelete(n)] + []));
  }

  /** A claim past its expiration can be deleted at once, whatever the lease. */
  lemma ExpiredCanBeCollected(w: World, n: Name)
    requires Inv(w) && n in w.server && n !in w.passes && n in w.leases
    requires w.server[n].expiration.Some? && w.now > w.server[n].expiration.value
    ensures Run(w, Collect(w, n)) && forall care: Care :: Careful(care, w, Collect(w, n), n)
    ensures !Spares(w, Collect(w, n), n, w.now)
    ensures After(w, Collect(w, n)).server == w.server - {n}
  {
    var s := SyncLoad(n, w.server[n]);
    StepKeepsInv(w, s);
    InvIsLocal(Next(w, s), n);
    CollectFromStamp(Next(w, s), n);
    Prepend(w, s, [SyncStamp(n)] + ([SyncTest(n)] + ([SyncDelete(n)] + [])));
  }

  /** One step before a state whose promise can be broken, the promise can be broken. */
  lemma BrokenBefore(care: Care, w: World, s: Step, n: Name, lease: Time, deadline: Time)
    requires Enabled(w, s) && Respects(care, w, s, n) && (s.SetLease? ==> s.lease >= lease)
    requires !Promised(care, Next(w, s), n, lease, deadline)
    ensures !Promised(care, w, n, lease, deadline)
  {
    var w' := Next(w, s);
    var rest :| Run(w', rest) && Careful(care, w', rest, n) && LeaseAtLeast(rest, n, lease)
                && !Spares(w', rest, n, deadline);
    Prepend(w, s, rest);
    assert LeaseAtLeast([s] + rest, n, lease);
  }

  /** A deletion that may be the next step breaks the promise. */
  lemma DeletionBreaks(care: Care, w: World, n: Name, lease: Time, deadline: Time)
    requires n in w.server && Condemned(w, n) && w.now <= deadline && Respects(care, w, SyncDelete(n), n)
    ensures !Promised(care, w, n, lease, deadline)
  {
    var steps := [SyncDelete(n)] + [];
    Prepend(w, SyncDelete(n), []);
    assert LeaseAtLeast(steps, n, lease);
    assert !Spares(w, steps, n, deadline);
  }

  /** A claim that the server will let expire before the deadline can be collected before it. */
  lemma EarlyExpirationBreaks(care: Care, w: World, n: Name, lease: Time, deadline: Time)
    requires Inv(w) && n in w.server && n !in w.passes && n in w.leases
    requires w.server[n].expiration.Some? && w.server[n].expiration.value < deadline && w.now <= deadline
    ensures !Promised(care, w, n, lease, deadline)
  {
    var e := w.server[n].expiration.value;
    var t := Tick(if w.now > e then 0 else e + 1 - w.now);
    var w1 := Next(w, t);
    StepKeepsInv(w, t);
    ExpiredCanBeCollected(w1, n);
    var steps := Collect(w1, n);
    SparesIsMonotone(w1, steps, n, w1.now, deadline);
    assert LeaseAtLeast(steps, n, lease);
    BrokenBefore(care, w, t, n, lease, deadline);
  }

  lemma {:induction false} SparesIsMonotone(w: World, steps: seq<Step>, n: Name, early: Time, late: Time)
    requires Run(w, steps) && early <= late
    ensures Spares(w, steps, n, late) ==> Spares(w, steps, n, early)
    decreases |steps|
  {
    if steps != [] { SparesIsMonotone(Next(w, steps[0]), steps[1..], n, early, late); }
  }

  /** When the API leaves `n` with an empty expiration, the promise holds exactly if every controller
      pass on that very version which has already read its clock did so in time and, where care is taken
      only when a deletion is decided, none is decided yet.

      The API does not write when the expiration is empty already, so a pass that read its clock too early
      can exist, and its update is still accepted.  A deletion that is decided already is by name alone,
      and hits whatever version it finds. */
  lemma PromiseExactly(care: Care, w: World, n: Name, lease: Time)
    requires Inv(w) && n in w.server && w.server[n].expiration.None? && !care.Careless?
    requires n in w.leases && w.leases[n] == lease && lease >= SECOND
    ensures Promised(care, w, n, lease, Deadline(w, lease)) <==>
            InTime(w, n, Deadline(w, lease)) && (care.AtDecision? ==> !Condemned(w, n))
  {
    var deadline := Deadline(w, lease);
    InvIsLocal(w, n);
    if !InTime(w, n, deadline) {
      LatePassBreaks(care, w, n, lease, deadline);
    } else if care.AtDecision? && Condemned(w, n) {
      DeletionBreaks(care, w, n, lease, deadline);
    } else {
      GuardedIsPromised(care, w, n, lease, deadline);
    }
  }

  lemma GuardedIsPromised(care: Care, w: World, n: Name, lease: Time, deadline: Time)
    requires Inv(w) && Guarded(w, n, lease, deadline) && !care.Careless?
    requires care.AtDecision? && Condemned(w, n) ==> w.now > deadline
    ensures Promised(care, w, n, lease, deadline)
  {
    forall steps: seq<Step> | Run(w, steps) && Careful(care, w, steps, n) && LeaseAtLeast(steps, n, lease)
      ensures Spares(w, steps, n, deadline)
    {
      GuardedIsSpared(care, w, steps, n, lease, deadline);
    }
  }

  lemma LatePassBreaks(care: Care, w: World, n: Name, lease: Time, deadline: Time)
    requires Inv(w) && n in w.server && w.server[n].expiration.None? && n in w.leases
    requires w.now <= deadline && !InTime(w, n, deadline)
    ensures !Promised(care, w, n, lease, deadline)
    decreases match w.passes[n].stage case Stamped(_, _) => 2 case _ => 1
  {
    InvIsLocal(w, n);
    match w.passes[n].stage {
      case Stamped(copy, changed) =>
        StepKeepsInv(w, SyncTest(n));
        LatePassBreaks(care, Next(w, SyncTest(n)), n, lease, deadline);
        BrokenBefore(care, w, SyncTest(n), n, lease, deadline);
      case Updating(copy) =>
        StepKeepsInv(w, SyncUpdate(n));
        EarlyExpirationBreaks(care, Next(w, SyncUpdate(n)), n, lease, deadline);
        BrokenBefore(care, w, SyncUpdate(n), n, lease, deadline);
      case Deleting(copy) => DeletionBreaks(care, w, n, lease, deadline);
    }
  }

  /** A renewal that the API writes, or a claim that it creates, carries the promise unconditionally where
      a deletion takes effect only on the version it was decided on: passes on older versions can no longer
      write.  Where deletions are merely decided on current snapshots, the promise holds exactly if no
      deletion was decided before the renewal, as it can still hit the renewed claim. */
  lemma RenewalIsPromised(w: World, s: Step, n: Name, lease: Time)
    requires Inv(w) && Enabled(w, s)
    requires s == Create(n) || (s.ApiRenew? && w.requests[s.request].0 == n && Accepted(w, n, w.requests[s.request].1))
    requires n in w.leases ==> w.leases[n] >= lease
    ensures var w' := Next(w, s);
            && n in w'.server && w'.server[n].expiration.None?
            && Promised(AtDelete, w', n, lease, Deadline(w', lease))
            && (!Condemned(w, n) ==> Promised(AtDecision, w', n, lease, Deadline(w', lease)))
            && (Condemned(w, n) && lease >= SECOND ==> !Promised(AtDecision, w', n, lease, Deadline(w', lease)))
  {
    var w' := Next(w, s);
    StepKeepsInv(w, s);
    InvIsLocal(w, n);
    assert !Current(w', n);
    OthersLeavePass(w, s, n);
    GuardedIsPromised(AtDelete, w', n, lease, Deadline(w', lease));
    if !Condemned(w, n) {
      GuardedIsPromised(AtDecision, w', n, lease, Deadline(w', lease));
    } else if lease >= SECOND {
      DeletionBreaks(AtDecision, w', n, lease, Deadline(w', lease));
    }
  }

  /** In the user's terms: told the rounded expiry by an API that read its clock at `read`, after renewing
      in world `w`, the user keeps the claim, on the same conditions, to 1.5 seconds, and the time between
      renewal and reading, before that expiry. */
  lemma PromiseToTheUser(care: Care, w: World, n: Name, lease: Time, read: Time, steps: seq<Step>, deadline: Time)
    requires Inv(w) && n in w.server && w.server[n].expiration.None? && InTime(w, n, Deadline(w, lease))
    requires !care.Careless? && (care.AtDecision? ==> !Condemned(w, n))
    requires (n in w.leases ==> w.leases[n] >= lease) && w.now <= read
    requires Run(w, steps) && Careful(care, w, steps, n) && LeaseAtLeast(steps, n, lease)
    requires 2 * deadline <= 2 * RoundTimestamp(read + lease) - 3 * SECOND - 2 * (read - w.now)
    ensures Spares(w, steps, n, deadline)
  {
    ReportedVersusStored(read, w.now, lease);
    GuardedIsSpared(care, w, steps, n, lease, Deadline(w, lease));
    SparesIsMonotone(w, steps, n, deadline, Deadline(w, lease));
  }

  ghost predicate Reaches(w: World, w': World) {
    exists steps: seq<Step> :: Run(w, steps) && After(w, steps) == w'
  }

  lemma {:induction false} Extend(w: World, steps: seq<Step>, s: Step)
    requires Run(w, steps) && Enabled(After(w, steps), s)
    ensures Run(w, steps + [s]) && After(w, steps + [s]) == Next(After(w, steps), s)
    decreases |steps|
  {
    if steps == [] {
      Prepend(w, s, []);
    } else {
      Extend(Next(w, steps[0]), steps[1..], s);
      Prepend(w, steps[0], steps[1..] + [s]);
      assert steps + [s] == [steps[0]] + (steps[1..] + [s]);
    }
  }

  lemma ReachesNext(w: World, w': World, s: Step)
    requires Reaches(w, w') && Enabled(w', s)
    ensures Reaches(w, Next(w', s))
  {
    var steps: seq<Step> :| Run(w, steps) && After(w, steps) == w';
    Extend(w, steps, s);
  }

  /** Time passes, or the pass on `n` goes on: nobody else does anything. */
  predicate Alone(s: Step, n: Name) { s.Tick? || OfPass(s, n) }

  ghost predicate ReachesAlone(w: World, w': World, n: Name) {
    exists steps: seq<Step> ::
      Run(w, steps) && After(w, steps) == w' && forall i | 0 <= i < |steps| :: Alone(steps[i], n)
  }

  lemma AloneStays(w: World, n: Name)
    ensures ReachesAlone(w, w, n)
  {
    assert Run(w, []) && After(w, []) == w;
  }

  lemma AloneNext(w: World, w': World, s: Step, n: Name)
    requires ReachesAlone(w, w', n) && Enabled(w', s) && Alone(s, n)
    ensures ReachesAlone(w, Next(w', s), n)
  {
    var steps: seq<Step> :|
      Run(w, steps) && After(w, steps) == w' && forall i | 0 <= i < |steps| :: Alone(steps[i], n);
    Extend(w, steps, s);
    assert forall i | 0 <= i < |steps + [s]| :: Alone((steps + [s])[i], n);
  }

  /** The failing side is reachable, for every lease: a pass stamps the new claim, two seconds go by, and
      the API, finding the expiration still empty, tells the user about a lease that is not kept. */
  lemma LateStampIsReachable(n: Name, lease: Time)
    requires lease >= SECOND
    ensures exists w ::
              && Reaches(EMPTY, w) && n in w.server && w.server[n].expiration.None?
              && n in w.leases && w.leases[n] == lease
              && !InTime(w, n, Deadline(w, lease)) && !Condemned(w, n)
              && !Promised(AtDelete, w, n, lease, Deadline(w, lease))
              && !Promised(AtDecision, w, n, lease, Deadline(w, lease))
  {
    var w := StampedOnce(n, lease);
    var w' := Next(w, Tick(2 * SECOND));
    ReachesNext(EMPTY, w, Tick(2 * SECOND));
    var steps: seq<Step> :| Run(EMPTY, steps) && After(EMPTY, steps) == w';
    ReachableKeepsInv(steps);
    PromiseExactly(AtDelete, w', n, lease);
    PromiseExactly(AtDecision, w', n, lease);
  }

  /** A new claim, and a pass that has just stamped it. */
  lemma StampedOnce(n: Name, lease: Time) returns (w: World)
    ensures Reaches(EMPTY, w) && w.now == 0 && n in w.leases && w.leases[n] == lease
    ensures Current(w, n) && w.server[n].expiration.None? && w.passes[n].stage == Stamped(ToKubeTime(lease), true)
  {
    assert Run(EMPTY, []) && After(EMPTY, []) == EMPTY;
    ReachesNext(EMPTY, EMPTY, SetLease(n, lease));
    w := Next(EMPTY, SetLease(n, lease));
    ReachesNext(EMPTY, w, Create(n));
    w := Next(w, Create(n));
    assert w.server == map[n := Claim(0, None)] && w.passes == map[] && w.leases == map[n := lease];
    ReachesNext(EMPTY, w, SyncLoad(n, Claim(0, None)));
    w := Next(w, SyncLoad(n, Claim(0, None)));
    ReachesNext(EMPTY, w, SyncStamp(n));
    w := Next(w, SyncStamp(n));
  }

  /** A pass can find an expired claim expired, on its current version. */
  lemma ExpiredCanBeCondemned(w0: World, w: World, n: Name) returns (w': World)
    requires Reaches(w0, w) && Inv(w) && n in w.server && n !in w.passes && n in w.leases
    requires w.server[n].expiration.Some? && w.now > w.server[n].expiration.value
    ensures Reaches(w0, w') && Inv(w') && Condemned(w', n) && w' == w.(passes := w'.passes)
  {
    var load := SyncLoad(n, w.server[n]);
    assert Known(w.past, n, w.server[n]);
    StepKeepsInv(w, load);
    ReachesNext(w0, w, load);
    w' := LoadedCanBeCondemned(w0, Next(w, load), n);
  }

  lemma LoadedCanBeCondemned(w0: World, w: World, n: Name) returns (w': World)
    requires Reaches(w0, w) && Inv(w) && n in w.passes && w.passes[n].stage.Loaded? && n in w.leases
    requires w.passes[n].seen.expiration.Some? && w.now > w.passes[n].seen.expiration.value
    ensures Reaches(w0, w') && Inv(w') && Condemned(w', n) && w' == w.(passes := w'.passes)
  {
    StepKeepsInv(w, SyncStamp(n));
    ReachesNext(w0, w, SyncStamp(n));
    var w1 := Next(w, SyncStamp(n));
    StepKeepsInv(w1, SyncTest(n));
    ReachesNext(w0, w1, SyncTest(n));
    w' := Next(w1, SyncTest(n));
  }

  /** A renewed claim whose deletion was decided before, and is still to come. */
  ghost predicate TooLate(w: World, n: Name, lease: Time) {
    && n in w.server && w.server[n].expiration.None? && n in w.leases && w.leases[n] == lease
    && Condemned(w, n) && Promised(AtDelete, w, n, lease, Deadline(w, lease))
    && !Promised(AtDecision, w, n, lease, Deadline(w, lease))
  }

  /** Every expired claim can get there, without any stale snapshot: a pass finds it expired on its current
      version, the API renews it, and the deletion takes the renewed claim away. */
  lemma RenewalCanBeTooLate(w0: World, w: World, n: Name, lease: Time)
    requires Reaches(w0, w) && Inv(w) && n in w.server && n !in w.passes
    requires n in w.leases && w.leases[n] == lease && lease >= SECOND
    requires w.server[n].expiration.Some? && w.now > w.server[n].expiration.value
    ensures exists w' :: Reaches(w0, w') && w'.now == w.now && TooLate(w', n, lease)
  {
    var w1 := ExpiredCanBeCondemned(w0, w, n);
    StepKeepsInv(w1, ApiGet(0, n));
    ReachesNext(w0, w1, ApiGet(0, n));
    var w2 := Next(w1, ApiGet(0, n));
    ReachesNext(w0, w2, ApiRenew(0));
    RenewalIsPromised(w2, ApiRenew(0), n, lease);
    OthersLeavePass(w2, ApiRenew(0), n);
    assert TooLate(Next(w2, ApiRenew(0)), n, lease);
  }

  /** So that is reachable for every lease. */
  lemma TooLateIsReachable(n: Name, lease: Time)
    requires lease >= SECOND
    ensures exists w :: Reaches(EMPTY, w) && TooLate(w, n, lease)
  {
    var w := FilledOnce(n, lease);
    ReachesNext(EMPTY, w, Tick(lease + 1));
    var w' := Next(w, Tick(lease + 1));
    var steps: seq<Step> :| Run(EMPTY, steps) && After(EMPTY, steps) == w';
    ReachableKeepsInv(steps);
    RenewalCanBeTooLate(EMPTY, w', n, lease);
  }

  /** A claim whose first pass is over. */
  lemma FilledOnce(n: Name, lease: Time) returns (w: World)
    requires lease >= SECOND
    ensures Reaches(EMPTY, w) && w.now == 0 && n in w.leases && w.leases[n] == lease
    ensures n in w.server && n !in w.passes && w.server[n].expiration == Some(ToKubeTime(lease))
  {
    w := StampedOnce(n, lease);
    ReachesNext(EMPTY, w, SyncTest(n));
    w := Next(w, SyncTest(n));
    ReachesNext(EMPTY, w, SyncUpdate(n));
    w := Next(w, SyncUpdate(n));
  }

  // ---------------------------------------------------------------- expired claims go

  /** A pass that works on a version past its expiration. */
  predicate Doomed(w: World, n: Name) {
    && n in w.passes && !w.passes[n].stage.Updating?
    && w.passes[n].seen.expiration.Some? && w.passes[n].seen.expiration.value < w.now
  }

  lemma StepKeepsDoomed(w: World, s: Step, n: Name)
    requires Local(w, n) && Enabled(w, s) && Doomed(w, n)
    ensures n in Next(w, s).passes ==> Doomed(Next(w, s), n)
    ensures n !in Next(w, s).passes ==> s == SyncDelete(n) || s == SyncStop(n)
  {
    if !OfPass(s, n) { OthersLeavePass(w, s, n); }
  }

  /** The pass on `n` that is going on before step `i` ends with step `j`. */
  predicate EndsWith(w: World, steps: seq<Step>, i: nat, j: nat, n: Name)
    requires Run(w, steps)
  {
    && i <= j < |steps| && n !in WorldAt(w, steps, j + 1).passes
    && forall k | i <= k <= j :: n in WorldAt(w, steps, k).passes
  }

  lemma {:induction false} DoomedUntil(w: World, steps: seq<Step>, i: nat, j: nat, n: Name)
    requires Inv(w) && Run(w, steps) && i <= j <= |steps| && Doomed(WorldAt(w, steps, i), n)
    requires forall k | i <= k <= j :: n in WorldAt(w, steps, k).passes
    ensures Doomed(WorldAt(w, steps, j), n)
    decreases j
  {
    if i < j {
      DoomedUntil(w, steps, i, j - 1, n);
      InvAt(w, steps, j - 1);
      InvIsLocal(WorldAt(w, steps, j - 1), n);
      StepAt(w, steps, j - 1);
      StepKeepsDoomed(WorldAt(w, steps, j - 1), steps[j - 1], n);
    }
  }

  /** Whatever happens meanwhile, a pass on a version past its expiration ends by deleting the claim, or
      by being stopped, but in no other way. */
  lemma ExpiredIsCollected(w: World, steps: seq<Step>, i: nat, j: nat, n: Name)
    requires Inv(w) && Run(w, steps) && EndsWith(w, steps, i, j, n) && Doomed(WorldAt(w, steps, i), n)
    ensures steps[j] == SyncDelete(n) || steps[j] == SyncStop(n)
    ensures steps[j] == SyncDelete(n) ==> n !in WorldAt(w, steps, j + 1).server
  {
    DoomedUntil(w, steps, i, j, n);
    InvAt(w, steps, j);
    InvIsLocal(WorldAt(w, steps, j), n);
    StepAt(w, steps, j);
    StepKeepsDoomed(WorldAt(w, steps, j), steps[j], n);
  }

  // ---------------------------------------------------------------- the promise without current snapshots

  /** No version of `n` was ever written with an expiration before the deadline. */
  ghost predicate NeverEarly(w: World, n: Name, deadline: Time) {
    forall c: Claim | Known(w.past, n, c) && c.expiration.Some? :: c.expiration.value >= deadline
  }

  /** What the pass on `n` has stamped and can still act on is no earlier than the deadline. */
  predicate ActsInTime(w: World, n: Name, deadline: Time) {
    n in w.passes ==>
      match w.passes[n].stage
      case Loaded => true
      case Updating(copy) => Current(w, n) ==> copy >= deadline
      case stage => stage.copy >= deadline
  }

  ghost predicate Sheltered(w: World, n: Name, lease: Time, deadline: Time) {
    && deadline % SECOND == 0 && deadline <= w.now + lease
    && (n in w.leases ==> w.leases[n] >= lease)
    && NeverEarly(w, n, deadline) && ActsInTime(w, n, deadline)
  }

  lemma WriteIsNeverEarly(w: World, m: Name, expiration: Option<Time>, n: Name, deadline: Time)
    requires NeverEarly(w, n, deadline) && (m == n && expiration.Some? ==> expiration.value >= deadline)
    ensures NeverEarly(Write(w, m, expiration), n, deadline)
  {
    forall c: Claim | Known(Write(w, m, expiration).past, n, c) && c.expiration.Some?
      ensures c.expiration.value >= deadline
    {
      assert c.version != w.next ==> Known(w.past, n, c);
    }
  }

  lemma StepIsNeverEarly(w: World, s: Step, n: Name, deadline: Time)
    requires Inv(w) && Enabled(w, s) && NeverEarly(w, n, deadline) && ActsInTime(w, n, deadline)
    ensures NeverEarly(Next(w, s), n, deadline)
  {
    match s {
      case Create(m) => WriteIsNeverEarly(w, m, None, n, deadline);
      case Touch(m) =>
        assert Known(w.past, m, w.server[m]);
        WriteIsNeverEarly(w, m, w.server[m].expiration, n, deadline);
      case ApiRenew(r) =>
        WriteIsNeverEarly(w.(requests := w.requests - {r}), w.requests[r].0, None, n, deadline);
      case SyncUpdate(m) =>
        if Accepted(w, m, w.passes[m].seen) {
          WriteIsNeverEarly(EndPass(w, m), m, Some(w.passes[m].stage.copy), n, deadline);
        }
      case _ =>
    }
  }

  lemma StepKeepsSheltered(w: World, s: Step, n: Name, lease: Time, deadline: Time)
    requires Inv(w) && Enabled(w, s) && Sheltered(w, n, lease, deadline)
    requires s.SetLease? && s.name == n ==> s.lease >= lease
    ensures Sheltered(Next(w, s), n, lease, deadline)
  {
    StepIsNeverEarly(w, s, n, deadline);
    InvIsLocal(w, n);
    if s == SyncStamp(n) {
      assert Known(w.past, n, w.passes[n].seen);
      KubeTimeMonotone(deadline, w.now + w.leases[n]);
      KubeTimeIsUnique(deadline, deadline);
    } else {
      StepActsInTime(w, s, n, deadline);
      StepKeepsLease(w, s, n, lease);
    }
  }

  lemma StepActsInTime(w: World, s: Step, n: Name, deadline: Time)
    requires Local(w, n) && Enabled(w, s) && ActsInTime(w, n, deadline) && s != SyncStamp(n)
    ensures ActsInTime(Next(w, s), n, deadline)
  {
    if !OfPass(s, n) {
      OthersLeavePass(w, s, n);
      OthersMakeNothingCurrent(w, s, n);
    }
  }

  lemma StepKeepsLease(w: World, s: Step, n: Name, lease: Time)
    requires Enabled(w, s) && (n in w.leases ==> w.leases[n] >= lease)
    requires s.SetLease? && s.name == n ==> s.lease >= lease
    ensures n in Next(w, s).leases ==> Next(w, s).leases[n] >= lease
    ensures w.now <= Next(w, s).now
  {
  }

  lemma {:induction false} ShelteredIsSpared(w: World, steps: seq<Step>, n: Name, lease: Time, deadline: Time)
    requires Inv(w) && Run(w, steps) && Sheltered(w, n, lease, deadline) && LeaseAtLeast(steps, n, lease)
    ensures Spares(w, steps, n, deadline)
    decreases |steps|
  {
    if steps != [] {
      var s := steps[0];
      StepKeepsInv(w, s);
      StepKeepsSheltered(w, s, n, lease, deadline);
      assert forall i | 0 <= i < |steps[1..]| :: steps[1..][i] == steps[i + 1];
      ShelteredIsSpared(Next(w, s), steps[1..], n, lease, deadline);
    }
  }

  /** A pass that has stamped too early a time deletes the claim as soon as that time is past. */
  lemma EarlyStampIsUnsafe(w: World, n: Name, lease: Time, deadline: Time)
    requires n in w.server && n in w.passes && w.now <= deadline
    requires w.passes[n].stage.Stamped? || w.passes[n].stage.Deleting?
    requires w.passes[n].stage.copy < deadline
    ensures !Promised(Careless, w, n, lease, deadline)
    decreases w.passes[n].stage.Stamped?
  {
    if w.passes[n].stage.Deleting? {
      DeletionBreaks(Careless, w, n, lease, deadline);
    } else {
      var copy := w.passes[n].stage.copy;
      var t := Tick(if w.now > copy then 0 else copy + 1 - w.now);
      var w1 := Next(w, t);
      EarlyStampIsUnsafe(Next(w1, SyncTest(n)), n, lease, deadline);
      BrokenBefore(Careless, w1, SyncTest(n), n, lease, deadline);
      BrokenBefore(Careless, w, t, n, lease, deadline);
    }
  }

  /** A pass may start from any version there ever was. */
  lemma EarlyVersionIsUnsafe(w: World, c: Claim, n: Name, lease: Time, deadline: Time)
    requires Inv(w) && n in w.server && w.now <= deadline
    requires Known(w.past, n, c) && c.expiration.Some? && c.expiration.value < deadline
    ensures !Promised(Careless, w, n, lease, deadline)
    decreases n in w.passes
  {
    if n in w.passes {
      StepKeepsInv(w, SyncStop(n));
      EarlyVersionIsUnsafe(Next(w, SyncStop(n)), c, n, lease, deadline);
      BrokenBefore(Careless, w, SyncStop(n), n, lease, deadline);
    } else {
      var w1 := Next(w, SetLease(n, lease));
      var w2 := Next(w1, SyncLoad(n, c));
      EarlyStampIsUnsafe(Next(w2, SyncStamp(n)), n, lease, deadline);
      BrokenBefore(Careless, w2, SyncStamp(n), n, lease, deadline);
      BrokenBefore(Careless, w1, SyncLoad(n, c), n, lease, deadline);
      BrokenBefore(Careless, w, SetLease(n, lease), n, lease, deadline);
    }
  }

  /** With nothing asked of deletions, which may then be decided on any version ever written, the promise
      holds exactly if no version of the claim was ever written with an expiration before the deadline, and
      the pass in hand cannot act on one either. */
  lemma StalePromiseExactly(w: World, n: Name, lease: Time)
    requires Inv(w) && n in w.server && lease >= SECOND && (n in w.leases ==> w.leases[n] >= lease)
    ensures var deadline := Deadline(w, lease);
            Promised(Careless, w, n, lease, deadline) <==> NeverEarly(w, n, deadline) && ActsInTime(w, n, deadline)
  {
    var deadline := Deadline(w, lease);
    if !NeverEarly(w, n, deadline) {
      var c: Claim :| Known(w.past, n, c) && c.expiration.Some? && c.expiration.value < deadline;
      EarlyVersionIsUnsafe(w, c, n, lease, deadline);
    } else if !ActsInTime(w, n, deadline) {
      EarlyActIsUnsafe(w, n, lease, deadline);
    } else {
      forall steps: seq<Step> | Run(w, steps) && Careful(Careless, w, steps, n) && LeaseAtLeast(steps, n, lease)
        ensures Spares(w, steps, n, deadline)
      {
        ShelteredIsSpared(w, steps, n, lease, deadline);
      }
    }
  }

  lemma EarlyActIsUnsafe(w: World, n: Name, lease: Time, deadline: Time)
    requires Inv(w) && n in w.server && w.now <= deadline && !ActsInTime(w, n, deadline)
    ensures !Promised(Careless, w, n, lease, deadline)
  {
    if w.passes[n].stage.Updating? {
      var w' := Next(w, SyncUpdate(n));
      StepKeepsInv(w, SyncUpdate(n));
      assert Known(w'.past, n, w'.server[n]);
      EarlyVersionIsUnsafe(w', w'.server[n], n, lease, deadline);
      BrokenBefore(Careless, w, SyncUpdate(n), n, lease, deadline);
    } else {
      EarlyStampIsUnsafe(w, n, lease, deadline);
    }
  }

  /** So no renewal that extends a lease is safe from stale snapshots: the version it replaced can still
      be found expired, and the claim deleted, before the new deadline. */
  lemma ExtensionIsUnsafe(w: World, request: nat, lease: Time)
    requires Inv(w) && Enabled(w, ApiRenew(request)) && lease >= SECOND
    requires var (n, seen) := w.requests[request];
             Accepted(w, n, seen) && (n in w.leases ==> w.leases[n] >= lease)
    ensures var (n, seen) := w.requests[request];
            var w' := Next(w, ApiRenew(request));
            seen.expiration.value < Deadline(w', lease) ==> !Promised(Careless, w', n, lease, Deadline(w', lease))
  {
    var (n, seen) := w.requests[request];
    var w' := Next(w, ApiRenew(request));
    StepKeepsInv(w, ApiRenew(request));
    assert Known(w'.past, n, seen);
    StalePromiseExactly(w', n, lease);
  }
}
