/** Finding an object by reference, and failing that by labels. */
module Resolver {
  import opened Prelude
  import opened Errors
  import opened Labels

  type Uid = nat

  /** A Deployment or a Service: its controlling owner is the only part of it that matters here. */
  datatype Object = Object(name: string, labels: Labels, owner: Option<Uid>)

  /** A lister over a cache, in index order; `get` and `list` are what these calls fail with. */
  datatype Lister = Lister(objects: seq<Object>, get: Option<Error>, list: Option<Error>)

  const AMBIGUOUS: Error := Ambiguous(Plain("multiple objects satisfy the label selector, expected only one"))

  function ByName(objects: seq<Object>, name: string): Option<Object> {
    if objects == [] then None
    else if objects[0].name == name then Some(objects[0])
    else ByName(objects[1..], name)
  }

  function BySelector(objects: seq<Object>, s: Selector): seq<Object> {
    if objects == [] then []
    else (if Matches(s, objects[0].labels) then [objects[0]] else []) + BySelector(objects[1..], s)
  }

  /** GetObjectFromReference */
  function FromReference(l: Lister, ref: Option<string>): Result<Option<Object>, Error> {
    if ref.None? then Ok(None)
    else if l.get.Some? then (if IsNotFound(l.get.value) then Ok(None) else Err(Transient(l.get.value)))
    else Ok(ByName(l.objects, ref.value))
  }

  /** GetObjectFromLabels */
  function FromLabels(l: Lister, s: Selector): Result<Option<Object>, Error> {
    if l.list.Some? then (if IsNotFound(l.list.value) then Ok(None) else Err(Transient(l.list.value)))
    else
      var objs := BySelector(l.objects, s);
      if |objs| == 0 then Ok(None)
      else if |objs| > 1 then Err(AMBIGUOUS)
      else Ok(Some(objs[0]))
  }

  /** GetObjectFromReferenceOrSelector */
  function Resolve(l: Lister, ref: Option<string>, s: Selector): Result<Option<Object>, Error> {
    var found := FromReference(l, ref);
    if found.Err? || found.value.Some? then found else FromLabels(l, s)
  }

  // ---------------------------------------------------------------- what is found

  ghost predicate Distinct(objects: seq<Object>) {
    forall i, j | 0 <= i < j < |objects| :: objects[i].name != objects[j].name
  }

  lemma {:induction false} ByNameFinds(objects: seq<Object>, name: string)
    ensures match ByName(objects, name)
            case Some(o) => o in objects && o.name == name
            case None => forall o | o in objects :: o.name != name
  {
    if objects != [] && objects[0].name != name { ByNameFinds(objects[1..], name); }
  }

  lemma {:induction false} BySelectorIsTheMatches(objects: seq<Object>, s: Selector)
    ensures forall o :: o in BySelector(objects, s) <==> o in objects && Matches(s, o.labels)
    ensures |BySelector(objects, s)| <= |objects|
    ensures Distinct(objects) ==> Distinct(BySelector(objects, s))
  {
    if objects != [] {
      var rest := objects[1..];
      BySelectorIsTheMatches(rest, s);
      if Distinct(objects) {
        assert Distinct(rest);
        forall o | o in BySelector(rest, s) ensures o.name != objects[0].name {
          assert o in rest;
        }
      }
    }
  }

  /** The label fallback finds an object exactly if it is the only match, reports nothing exactly if
      there is no match, and otherwise reports ambiguity.  The order of the cache plays no part. */
  lemma FromLabelsExactly(l: Lister, s: Selector)
    requires l.list.None? && Distinct(l.objects)
    ensures FromLabels(l, s) == Ok(None) <==> forall o | o in l.objects :: !Matches(s, o.labels)
    ensures forall o :: FromLabels(l, s) == Ok(Some(o)) <==>
              o in l.objects && Matches(s, o.labels) && forall p | p in l.objects && Matches(s, p.labels) :: p == o
    ensures FromLabels(l, s).Err? <==>
              exists o, p :: o in l.objects && p in l.objects && o.name != p.name && Matches(s, o.labels)
                             && Matches(s, p.labels)
    ensures FromLabels(l, s).Err? ==> IsAmbiguousReference(FromLabels(l, s).error)
  {
    BySelectorIsTheMatches(l.objects, s);
    var objs := BySelector(l.objects, s);
    if |objs| == 0 {
      forall o | o in l.objects ensures !Matches(s, o.labels) { assert o !in objs; }
    } else {
      assert objs[0] in objs;
      if |objs| > 1 { assert objs[1] in objs && objs[0].name != objs[1].name; }
    }
  }

  /** A claim that lost the reference to its object gets it back exactly if nothing else matches. */
  lemma LostReferenceIsRecovered(l: Lister, ref: Option<string>, s: Selector, o: Object)
    requires l.get.None? && l.list.None? && Distinct(l.objects) && o in l.objects && Matches(s, o.labels)
    requires ref.Some? ==> forall p | p in l.objects :: p.name != ref.value
    ensures Resolve(l, ref, s) == Ok(Some(o)) <==> forall p | p in l.objects && Matches(s, p.labels) :: p == o
  {
    if ref.Some? { ByNameFinds(l.objects, ref.value); }
    FromLabelsExactly(l, s);
  }

  /** Nothing is resolved only when nothing matches: creating an object then makes no second match. */
  lemma NothingResolved(l: Lister, ref: Option<string>, s: Selector)
    requires l.list.None? && Resolve(l, ref, s) == Ok(None)
    ensures forall o | o in l.objects :: !Matches(s, o.labels)
  {
    BySelectorIsTheMatches(l.objects, s);
    forall o | o in l.objects ensures !Matches(s, o.labels) { assert o !in BySelector(l.objects, s); }
  }

  /** Whatever is resolved is in the cache, and carries the reference's name or the wanted labels. */
  lemma ResolvedIsThere(l: Lister, ref: Option<string>, s: Selector, o: Object)
    requires Resolve(l, ref, s) == Ok(Some(o))
    ensures o in l.objects && (ref == Some(o.name) || Matches(s, o.labels))
  {
    if ref.Some? { ByNameFinds(l.objects, ref.value); }
    BySelectorIsTheMatches(l.objects, s);
  }

  /** Resolving through the selector of a user yields only objects labelled for that user exactly if the
      labels of the selector are valid. */
  lemma ResolvedBelongsToUser(labels: Labels, user: string)
    ensures (forall l: Lister, o: Object | FromLabels(l, SetSelector(UserLabels(labels, user))) == Ok(Some(o)) ::
               USER_LABEL in o.labels && o.labels[USER_LABEL] == user)
            <==> ValidSet(UserLabels(labels, user))
  {
    var s := SetSelector(UserLabels(labels, user));
    if ValidSet(UserLabels(labels, user)) {
      forall l: Lister, o: Object | FromLabels(l, s) == Ok(Some(o))
        ensures USER_LABEL in o.labels && o.labels[USER_LABEL] == user
      {
        BySelectorIsTheMatches(l.objects, s);
        assert o in BySelector(l.objects, s);
        assert USER_LABEL in UserLabels(labels, user);
      }
    } else {
      OnlyObjectIsFound(labels, user, Object("", map[], None));
    }
  }

  /** Labels that are not valid find whatever object is the only one. */
  lemma OnlyObjectIsFound(labels: Labels, user: string, o: Object)
    requires !ValidSet(UserLabels(labels, user))
    ensures FromLabels(Lister([o], None, None), SetSelector(UserLabels(labels, user))) == Ok(Some(o))
  {
    assert [o][1..] == [];
    assert BySelector([o], SetSelector(UserLabels(labels, user))) == [o] + [];
  }
}

/** Every interleaving of client claim passes, of any number of claims, with the rest of the cluster. */
module ClientRuns {
  import opened Prelude
  import opened Errors
  import opened Labels
  import opened Resolver

  datatype Kind = Deployment | Service

  /** What never changes about a claim: its key in the work queue and the labels it puts on its objects. */
  datatype Spec = Spec(key: string, labels: Labels)

  datatype Point = Looking(kind: Kind) | Making(kind: Kind) | Saving

  /** A pass works for one claim, with the references its cached claim happened to hold. */
  datatype Pass = Pass(uid: Uid, deployment: Option<string>, service: Option<string>, point: Point)

  datatype World = World(specs: map<Uid, Spec>, objects: map<(Kind, string), Object>, passes: map<string, Pass>)

  datatype Step =
    | NewClaim(uid: Uid, spec: Spec)
    | Start(uid: Uid, deployment: Option<string>, service: Option<string>)
    | Look(key: string, lister: Lister)
    | Make(key: string, name: string)
    | Finish(key: string)                   // the references are written back, or the pass stops anywhere
    | Delete(kind: Kind, name: string)
    | Foreign(kind: Kind, object': Object)  // somebody else creates or replaces an object

  predicate OwnedBy(w: World, u: Uid, kind: Kind, name: string) {
    (kind, name) in w.objects && w.objects[(kind, name)].owner == Some(u)
  }

  ghost predicate Enabled(w: World, s: Step) {
    match s
    case NewClaim(u, spec) => u !in w.specs && forall kind, name :: !OwnedBy(w, u, kind, name)
    case Start(u, _, _) => u in w.specs && w.specs[u].key !in w.passes
    case Look(k, l) => k in w.passes && w.passes[k].point.Looking? && w.passes[k].uid in w.specs
    case Make(k, name) =>
      k in w.passes && w.passes[k].point.Making? && w.passes[k].uid in w.specs
      && (w.passes[k].point.kind, name) !in w.objects
    case Finish(k) => k in w.passes
    case Delete(kind, name) => (kind, name) in w.objects
    case Foreign(kind, o) =>
      && (o.owner.Some? ==> o.owner.value !in w.specs)
      && (forall u | u in w.specs :: !OwnedBy(w, u, kind, o.name))
  }

  function Reference(p: Pass, kind: Kind): Option<string> { if kind.Deployment? then p.deployment else p.service }

  function Advance(w: World, k: string, kind: Kind): World
    requires k in w.passes
  {
    w.(passes := w.passes[k := w.passes[k].(point := if kind.Deployment? then Looking(Service) else Saving)])
  }

  function Stop(w: World, k: string): World { w.(passes := w.passes - {k}) }

  /** A pass goes on with an object of its claim, is about to create a missing one, and stops at an
      object of somebody else or at an ambiguity. */
  function Resolved(w: World, k: string, kind: Kind, found: Result<Option<Object>, Error>): World
    requires k in w.passes
  {
    if found.Err? then Stop(w, k)
    else if found.value.None? then w.(passes := w.passes[k := w.passes[k].(point := Making(kind))])
    else if found.value.value.owner == Some(w.passes[k].uid) then Advance(w, k, kind)
    else Stop(w, k)
  }

  ghost function Next(w: World, s: Step): World
    requires Enabled(w, s)
  {
    match s
    case NewClaim(u, spec) => w.(specs := w.specs[u := spec])
    case Start(u, d, svc) => w.(passes := w.passes[w.specs[u].key := Pass(u, d, svc, Looking(Deployment))])
    case Look(k, l) =>
      var p := w.passes[k];
      Resolved(w, k, p.point.kind, Resolve(l, Reference(p, p.point.kind), SetSelector(w.specs[p.uid].labels)))
    case Make(k, name) =>
      var p := w.passes[k];
      var kind := p.point.kind;
      Advance(w.(objects := w.objects[(kind, name) := Object(name, w.specs[p.uid].labels, Some(p.uid))]), k, kind)
    case Finish(k) => Stop(w, k)
    case Delete(kind, name) => w.(objects := w.objects - {(kind, name)})
    case Foreign(kind, o) => w.(objects := w.objects[(kind, o.name) := o])
  }

  ghost predicate Run(w: World, steps: seq<Step>)
    decreases |steps|
  {
    steps == [] || (Enabled(w, steps[0]) && Run(Next(w, steps[0]), steps[1..]))
  }

  ghost function After(w: World, steps: seq<Step>): World
    requires Run(w, steps)
    decreases |steps|
  {
    if steps == [] then w else After(Next(w, steps[0]), steps[1..])
  }

  ghost predicate Owns(w: World, u: Uid, kind: Kind) { exists name :: OwnedBy(w, u, kind, name) }

  /** The lookup comes back empty although the claim owns an object. */
  ghost predicate Overlooks(w: World, u: Uid, kind: Kind, ref: Option<string>, l: Lister)
    requires u in w.specs
  {
    Resolve(l, ref, SetSelector(w.specs[u].labels)) == Ok(None) && Owns(w, u, kind)
  }

  ghost predicate Covered(w: World, s: Step)
    requires Enabled(w, s)
  {
    s.Look? ==>
      var p := w.passes[s.key];
      !Overlooks(w, p.uid, p.point.kind, Reference(p, p.point.kind), s.lister)
  }

  /** The cache shows at least what the claim itself owns.  Its lookups may fail, but its listing not by
      reporting that there is nothing. */
  ghost predicate Covers(w: World, u: Uid, kind: Kind, l: Lister) {
    && (l.list.Some? ==> !IsNotFound(l.list.value))
    && forall name | OwnedBy(w, u, kind, name) :: w.objects[(kind, name)] in l.objects
  }

  /** A cache that shows what the claim owns overlooks nothing, whatever else it shows or fails to do. */
  lemma CoveringIsEnough(w: World, u: Uid, kind: Kind, ref: Option<string>, l: Lister)
    requires Inv(w) && u in w.specs && Covers(w, u, kind, l)
    ensures !Overlooks(w, u, kind, ref, l)
  {
    var s := SetSelector(w.specs[u].labels);
    if l.list.None? && Resolve(l, ref, s) == Ok(None) {
      NothingResolved(l, ref, s);
      forall name ensures !OwnedBy(w, u, kind, name) {
        assert OwnedBy(w, u, kind, name) ==> Matches(s, w.objects[(kind, name)].labels);
      }
    }
  }

  /** No lookup of the run overlooks an object of its own claim. */
  ghost predicate AllCovered(w: World, steps: seq<Step>)
    requires Run(w, steps)
    decreases |steps|
  {
    steps == [] || (Covered(w, steps[0]) && AllCovered(Next(w, steps[0]), steps[1..]))
  }

  ghost predicate Inv(w: World) {
    && (forall u, kind, name | u in w.specs && OwnedBy(w, u, kind, name) ::
          w.objects[(kind, name)].labels == w.specs[u].labels)
    && (forall u, kind, n, m | u in w.specs && OwnedBy(w, u, kind, n) && OwnedBy(w, u, kind, m) :: n == m)
    && (forall k | k in w.passes :: w.passes[k].uid in w.specs && w.specs[w.passes[k].uid].key == k)
    && (forall k, name | k in w.passes && w.passes[k].point.Making? ::
          !OwnedBy(w, w.passes[k].uid, w.passes[k].point.kind, name))
  }

  /** A lookup keeps the invariant exactly if it does not overlook an object of its own claim. */
  lemma LookKeepsInvExactly(w: World, k: string, l: Lister)
    requires Inv(w) && Enabled(w, Look(k, l))
    ensures Inv(Next(w, Look(k, l))) <==> Covered(w, Look(k, l))
  {
    var p, w' := w.passes[k], Next(w, Look(k, l));
    assert w'.objects == w.objects && w'.specs == w.specs;
    if Covered(w, Look(k, l)) {
      forall j, name | j in w'.passes && w'.passes[j].point.Making?
        ensures !OwnedBy(w', w'.passes[j].uid, w'.passes[j].point.kind, name)
      {
        SameOwner(w, w', w'.passes[j].uid, w'.passes[j].point.kind, name);
        assert j != k ==> w'.passes[j] == w.passes[j];
        assert j == k ==> !Owns(w, p.uid, p.point.kind);
      }
      forall u, kind, n ensures OwnedBy(w', u, kind, n) == OwnedBy(w, u, kind, n) { SameOwner(w, w', u, kind, n); }
    } else {
      var name :| OwnedBy(w, p.uid, p.point.kind, name);
      SameOwner(w, w', p.uid, p.point.kind, name);
      assert k in w'.passes && w'.passes[k].point == Making(p.point.kind);
    }
  }

  lemma SameOwner(w: World, w': World, u: Uid, kind: Kind, n: string)
    requires w'.objects == w.objects
    ensures OwnedBy(w', u, kind, n) == OwnedBy(w, u, kind, n)
  {
  }

  lemma MakeKeepsInv(w: World, k: string, name: string)
    requires Inv(w) && Enabled(w, Make(k, name))
    ensures Inv(Next(w, Make(k, name)))
  {
    var w' := Next(w, Make(k, name));
    assert forall u, kind, n | OwnedBy(w', u, kind, n) ::
        OwnedBy(w, u, kind, n) || (u == w.passes[k].uid && kind == w.passes[k].point.kind && n == name);
  }

  lemma ForeignKeepsInv(w: World, kind: Kind, o: Object)
    requires Inv(w) && Enabled(w, Foreign(kind, o))
    ensures Inv(Next(w, Foreign(kind, o)))
  {
    var w' := Next(w, Foreign(kind, o));
    assert forall u, d, n | u in w.specs && OwnedBy(w', u, d, n) :: OwnedBy(w, u, d, n);
  }

  lemma StepKeepsInv(w: World, s: Step)
    requires Inv(w) && Enabled(w, s) && Covered(w, s)
    ensures Inv(Next(w, s))
  {
    var w' := Next(w, s);
    match s {
      case Look(k, l) => LookKeepsInvExactly(w, k, l);
      case Make(k, name) => MakeKeepsInv(w, k, name);
      case Delete(_, _) => assert forall u, kind, n | OwnedBy(w', u, kind, n) :: OwnedBy(w, u, kind, n);
      case Foreign(kind, o) => ForeignKeepsInv(w, kind, o);
      case _ => assert forall u, kind, n :: OwnedBy(w', u, kind, n) == OwnedBy(w, u, kind, n);
    }
  }

  /** A client claim never controls two live Deployments or two live Services: in every run whose
      lookups overlook nothing of their own claim, wherever passes stop, whatever references they held and
      however often lookups fail. */
  lemma {:induction false} AtMostOneObject(w: World, steps: seq<Step>)
    requires Inv(w) && Run(w, steps) && AllCovered(w, steps)
    ensures Inv(After(w, steps))
    ensures var w' := After(w, steps);
            forall u, kind, n, m | u in w'.specs && OwnedBy(w', u, kind, n) && OwnedBy(w', u, kind, m) :: n == m
    decreases |steps|
  {
    if steps != [] {
      StepKeepsInv(w, steps[0]);
      AtMostOneObject(Next(w, steps[0]), steps[1..]);
    }
  }

  const START: World := World(map[], map[], map[])

  /** So it is in every world that can be reached from an empty one. */
  lemma ReachableHasAtMostOne(w: World, u: Uid, kind: Kind, n: string, m: string)
    requires Reaches(START, w) && u in w.specs && OwnedBy(w, u, kind, n) && OwnedBy(w, u, kind, m)
    ensures n == m
  {
    var steps: seq<Step> :| Run(START, steps) && AllCovered(START, steps) && After(START, steps) == w;
    AtMostOneObject(START, steps);
  }

  ghost predicate Makes(w: World, s: Step, u: Uid, kind: Kind) {
    s.Make? && s.key in w.passes && w.passes[s.key].point == Making(kind) && w.passes[s.key].uid == u
  }

  ghost predicate Deletes(w: World, s: Step, u: Uid, kind: Kind) {
    s.Delete? && s.kind == kind && OwnedBy(w, u, kind, s.name)
  }

  ghost function Bit(b: bool): nat { if b then 1 else 0 }

  ghost function MakeCount(w: World, steps: seq<Step>, u: Uid, kind: Kind): nat
    requires Run(w, steps)
    decreases |steps|
  {
    if steps == [] then 0 else Bit(Makes(w, steps[0], u, kind)) + MakeCount(Next(w, steps[0]), steps[1..], u, kind)
  }

  ghost function DeleteCount(w: World, steps: seq<Step>, u: Uid, kind: Kind): nat
    requires Run(w, steps)
    decreases |steps|
  {
    if steps == [] then 0 else Bit(Deletes(w, steps[0], u, kind)) + DeleteCount(Next(w, steps[0]), steps[1..], u, kind)
  }

  lemma StepConserves(w: World, s: Step, u: Uid, kind: Kind)
    requires Inv(w) && Enabled(w, s) && Covered(w, s) && u in w.specs
    ensures Bit(Owns(w, u, kind)) + Bit(Makes(w, s, u, kind))
            == Bit(Owns(Next(w, s), u, kind)) + Bit(Deletes(w, s, u, kind))
  {
    var w' := Next(w, s);
    if Makes(w, s, u, kind) {
      assert OwnedBy(w', u, kind, s.name);
    } else if s.Delete? {
      assert forall n :: OwnedBy(w', u, kind, n) <==> OwnedBy(w, u, kind, n) && (s.kind, s.name) != (kind, n);
    } else {
      assert forall n :: OwnedBy(w', u, kind, n) == OwnedBy(w, u, kind, n);
    }
  }

  /** Objects are conserved: what a claim owned and made, it still owns or has had deleted.  So it makes
      at most one object of a kind more than were deleted. */
  lemma {:induction false} ObjectsAreConserved(w: World, steps: seq<Step>, u: Uid, kind: Kind)
    requires Inv(w) && Run(w, steps) && AllCovered(w, steps) && u in w.specs
    ensures Bit(Owns(w, u, kind)) + MakeCount(w, steps, u, kind)
            == Bit(Owns(After(w, steps), u, kind)) + DeleteCount(w, steps, u, kind)
    ensures MakeCount(w, steps, u, kind) <= 1 + DeleteCount(w, steps, u, kind)
    decreases |steps|
  {
    if steps != [] {
      StepKeepsInv(w, steps[0]);
      StepConserves(w, steps[0], u, kind);
      ObjectsAreConserved(Next(w, steps[0]), steps[1..], u, kind);
    }
  }

  /** A lookup that overlooks the claim's object leads to a second one, under any name that is free. */
  lemma StaleLookupDuplicates(w: World, k: string, l: Lister, name: string)
    requires Inv(w) && Enabled(w, Look(k, l)) && (w.passes[k].point.kind, name) !in w.objects
    requires !Covered(w, Look(k, l))
    ensures var u, kind, w1 := w.passes[k].uid, w.passes[k].point.kind, Next(w, Look(k, l));
            && Enabled(w1, Make(k, name))
            && var w2 := Next(w1, Make(k, name));
            OwnedBy(w2, u, kind, name) && exists other :: other != name && OwnedBy(w2, u, kind, other)
  {
    var u, kind, w1 := w.passes[k].uid, w.passes[k].point.kind, Next(w, Look(k, l));
    var other :| OwnedBy(w, u, kind, other);
    assert OwnedBy(Next(w1, Make(k, name)), u, kind, other);
  }

  // ---------------------------------------------------------------- reachability

  /** A run whose lookups overlook nothing of their own claim leads from `w` to `w'`. */
  ghost predicate Reaches(w: World, w': World) {
    exists steps: seq<Step> :: Run(w, steps) && AllCovered(w, steps) && After(w, steps) == w'
  }

  lemma Prepend(w: World, s: Step, rest: seq<Step>)
    requires Enabled(w, s) && Run(Next(w, s), rest)
    ensures Run(w, [s] + rest) && After(w, [s] + rest) == After(Next(w, s), rest)
    ensures AllCovered(w, [s] + rest) <==> Covered(w, s) && AllCovered(Next(w, s), rest)
  {
    assert ([s] + rest)[1..] == rest;
  }

  lemma {:induction false} Extend(w: World, steps: seq<Step>, s: Step)
    requires Run(w, steps) && AllCovered(w, steps) && Enabled(After(w, steps), s) && Covered(After(w, steps), s)
    ensures Run(w, steps + [s]) && AllCovered(w, steps + [s]) && After(w, steps + [s]) == Next(After(w, steps), s)
    decreases |steps|
  {
    if steps == [] {
      Prepend(w, s, []);
    } else {
      Extend(Next(w, steps[0]), steps[1..], s);
      Prepend(w, steps[0], steps[1..] + [s]);
      assert steps + [s] == [steps[0]] + (steps[1..] + [s]);
    }
  }

  /** The step belongs to the pass of claim `u`, whose key is `k`. */
  predicate Own(s: Step, u: Uid, k: string) {
    match s
    case Start(v, _, _) => v == u
    case Look(j, _) => j == k
    case Make(j, _) => j == k
    case Finish(j) => j == k
    case _ => false
  }

  /** Such a run in which nobody but the pass of claim `u` does anything. */
  ghost predicate ReachesAlone(w: World, w': World, u: Uid, k: string) {
    exists steps: seq<Step> :: Run(w, steps) && AllCovered(w, steps) && After(w, steps) == w'
                               && forall i | 0 <= i < |steps| :: Own(steps[i], u, k)
  }

  lemma AloneStays(w: World, u: Uid, k: string)
    ensures ReachesAlone(w, w, u, k)
  {
    assert Run(w, []) && AllCovered(w, []) && After(w, []) == w;
  }

  lemma AloneNext(w: World, w': World, s: Step, u: Uid, k: string)
    requires ReachesAlone(w, w', u, k) && Enabled(w', s) && Covered(w', s) && Own(s, u, k)
    ensures ReachesAlone(w, Next(w', s), u, k)
  {
    var steps: seq<Step> :| Run(w, steps) && AllCovered(w, steps) && After(w, steps) == w'
                            && forall i | 0 <= i < |steps| :: Own(steps[i], u, k);
    Extend(w, steps, s);
    assert forall i | 0 <= i < |steps + [s]| :: Own((steps + [s])[i], u, k);
  }
}
