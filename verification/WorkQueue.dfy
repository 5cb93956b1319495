/** The contract of client-go's rate limiting work queue, as far as the controllers rely on it. */
module WorkQueue {
  /** Queue items are namespace/name keys; anything else on the queue is junk. */
  datatype Item = Key(namespace: string, name: string) | Junk(id: nat)

  /** `queue` holds the items ready to be taken, `dirty` those that need processing, `processing` those
      a worker has taken, `delayed` those waiting out their rate limit, `failures` the limiter's memory. */
  datatype Queue = Queue(
    queue: seq<Item>,
    dirty: set<Item>,
    processing: set<Item>,
    delayed: set<Item>,
    failures: map<Item, nat>)

  const EMPTY: Queue := Queue([], {}, {}, {}, map[])

  function Requeues(q: Queue, x: Item): nat { if x in q.failures then q.failures[x] else 0 }

  function Add(q: Queue, x: Item): Queue {
    if x in q.dirty then q
    else q.(dirty := q.dirty + {x}, queue := if x in q.processing then q.queue else q.queue + [x])
  }

  function AddRateLimited(q: Queue, x: Item): Queue {
    q.(failures := q.failures[x := Requeues(q, x) + 1], delayed := q.delayed + {x})
  }

  /** The rate limit of a delayed item has passed. */
  function Release(q: Queue, x: Item): Queue {
    Add(q.(delayed := q.delayed - {x}), x)
  }

  function Get(q: Queue): Queue
    requires q.queue != []
  {
    var x := q.queue[0];
    q.(queue := q.queue[1..], processing := q.processing + {x}, dirty := q.dirty - {x})
  }

  function Done(q: Queue, x: Item): Queue {
    q.(processing := q.processing - {x}, queue := if x in q.dirty then q.queue + [x] else q.queue)
  }

  function Forget(q: Queue, x: Item): Queue { q.(failures := q.failures - {x}) }
}

/** The controller skeleton: the worker loop, error handling and event routing. */
module Kit {
  import opened Prelude
  import opened Errors
  import opened WorkQueue

  /** How a lookup of the custom resource and its Sync turn out. */
  datatype Answer =
    | BadKey
    | Gone
    | LookupFails(reason: Error)
    | Synced(updated: bool, err: Option<Error>)

  const SYNCED: Event := Event("Synced", "synced successfully")

  /** The error of syncHandler. */
  function HandlerError(a: Answer): Option<Error> {
    match a
    case BadKey => Some(Plain("invalid resource key"))
    case Gone => Some(Plain("no longer exists"))
    case LookupFails(e) => if IsNotFound(e) then Some(Plain("no longer exists")) else Some(e)
    case Synced(_, err) => err
  }

  predicate Succeeds(x: Item, a: Answer) { x.Junk? || HandlerError(a).None? }

  /** What a worker does to the queue once it has an answer for the item it took. */
  function Settle(q: Queue, x: Item, a: Answer): Queue {
    Done(if Succeeds(x, a) then Forget(q, x) else q, x)
  }

  /** An owner reference of controller kind. */
  datatype Owner = Owner(kind: string, name: string)

  /** What the skeleton sees of a watched object: `refersTo` is the Distcc name of a DistccClaim. */
  datatype Meta = Meta(namespace: string, name: string, version: nat, owner: Option<Owner>, refersTo: Option<string>)

  datatype Notification = Live(meta: Meta) | Tombstone(last: Option<Meta>) | Garbage

  class ControllerKit {
    const kind: string
    /** Whether OnControlledObjectUpdate looks at DistccClaims, as the Distcc controller's does. */
    const discovers: bool
    var workqueue: Queue
    var recorded: seq<Event>
    /** The custom resources that the lister shows. */
    var instances: set<(string, string)>

    constructor (kind: string, discovers: bool)
      ensures this.kind == kind && this.discovers == discovers
      ensures workqueue == EMPTY && recorded == [] && instances == {}
    {
      this.kind := kind;
      this.discovers := discovers;
      workqueue, recorded, instances := EMPTY, [], {};
    }

    /** processNextWorkItem: take an item, sync it, settle it.  Get blocks until there is an item or the
        queue shuts down. */
    method ProcessNextWorkItem(shutdown: bool, answer: Answer) returns (more: bool)
      requires !shutdown ==> workqueue.queue != []
      modifies this`workqueue, this`recorded
      ensures more == !shutdown
      ensures shutdown ==> workqueue == old(workqueue) && recorded == old(recorded)
      ensures !shutdown ==> workqueue == Settle(Get(old(workqueue)), old(workqueue).queue[0], answer)
      ensures !shutdown && old(workqueue).queue[0].Junk? ==> recorded == old(recorded)
      ensures !shutdown && old(workqueue).queue[0].Key? ==> recorded == old(recorded) + Events(answer)
    {
      if shutdown { return false; }
      var obj := workqueue.queue[0];
      workqueue := Get(workqueue);
      if obj.Junk? {
        workqueue := Forget(workqueue, obj);
      } else {
        var err := SyncHandler(answer);
        if err.None? {
          workqueue := Forget(workqueue, obj);
        }
        // Transient or not, a failed item is left to later events: nothing adds it back here.
      }
      workqueue := Done(workqueue, obj);
      return true;
    }

    /** syncHandler.  An error of a Sync is reported by the event it carries, and by nothing if it carries
        none, so never if it is transient; a Sync without error by one event exactly if it updated
        something.  An item that could not be looked up is not reported at all. */
    method SyncHandler(answer: Answer) returns (err: Option<Error>)
      modifies this`recorded
      ensures err == HandlerError(answer)
      ensures recorded == old(recorded) + Events(answer)
      ensures answer.Synced? && err.Some? && HasEvent(err.value).Some? ==>
                recorded == old(recorded) + [HasEvent(err.value).value]
      ensures err.Some? && HasEvent(err.value).None? ==> recorded == old(recorded)
      ensures err.Some? && IsTransient(err.value) ==> recorded == old(recorded)
      ensures err.None? ==> answer.Synced? && |recorded| == |old(recorded)| + Bit(answer.updated)
      ensures !answer.Synced? ==> err.Some? && recorded == old(recorded)
      ensures answer.Synced? ==> err == answer.err
      ensures answer.LookupFails? && !IsNotFound(answer.reason) ==> err == Some(answer.reason)
      ensures err.Some? && !answer.Synced? && (answer.LookupFails? ==> IsNotFound(answer.reason)) ==>
                !IsTransient(err.value) && !IsNotFound(err.value)
    {
      match answer {
        case BadKey => err := Some(Plain("invalid resource key"));
        case Gone => err := Some(Plain("no longer exists"));
        case LookupFails(e) => err := Some(if IsNotFound(e) then Plain("no longer exists") else e);
        case Synced(updated, e) =>
          err := e;
          if e.Some? {
            if HasEvent(e.value).Some? { recorded := recorded + [HasEvent(e.value).value]; }
          } else if updated {
            recorded := recorded + [SYNCED];
          }
      }
    }

    method EnqueueCustomResource(key: (string, string))
      modifies this`workqueue
      ensures workqueue == AddRateLimited(old(workqueue), Key(key.0, key.1))
    {
      workqueue := AddRateLimited(workqueue, Key(key.0, key.1));
    }

    /** handleObject: route a change of a watched object to the custom resources it concerns. */
    method HandleObject(n: Notification)
      modifies this`workqueue
      ensures workqueue == EnqueueAll(old(workqueue), Routes(kind, discovers, instances, n))
    {
      var meta: Meta;
      ghost var q := workqueue;
      EnqueueUpToTwo(q, Routes(kind, discovers, instances, n));
      match n {
        case Live(m) => meta := m;
        case Tombstone(last) =>
          if last.None? { return; }
          meta := last.value;
        case Garbage => return;
      }
      if discovers && n.Live? && meta.refersTo.Some? {
        if (meta.namespace, meta.refersTo.value) !in instances { return; }
        EnqueueCustomResource((meta.namespace, meta.refersTo.value));
      }
      if meta.owner.Some? {
        if meta.owner.value.kind != kind { return; }
        if (meta.namespace, meta.owner.value.name) !in instances { return; }
        EnqueueCustomResource((meta.namespace, meta.owner.value.name));
      }
    }

    /** handleObjectUpdate drops the periodic resync of an unchanged object. */
    method HandleObjectUpdate(older: Meta, newer: Meta)
      modifies this`workqueue
      ensures older.version == newer.version ==> workqueue == old(workqueue)
      ensures older.version != newer.version ==>
                workqueue == EnqueueAll(old(workqueue), Routes(kind, discovers, instances, Live(newer)))
    {
      if newer.version == older.version { return; }
      HandleObject(Live(newer));
    }
  }

  /** The events recorded for an answer: the one attached to the error, or one for a successful update. */
  function Events(a: Answer): seq<Event> {
    match a
    case Synced(updated, None) => if updated then [SYNCED] else []
    case Synced(_, Some(e)) => if HasEvent(e).Some? then [HasEvent(e).value] else []
    case _ => []
  }

  function EnqueueAll(q: Queue, keys: seq<(string, string)>): Queue
    decreases |keys|
  {
    if keys == [] then q else EnqueueAll(AddRateLimited(q, Key(keys[0].0, keys[0].1)), keys[1..])
  }

  lemma EnqueueUpToTwo(q: Queue, keys: seq<(string, string)>)
    requires |keys| <= 2
    ensures |keys| == 1 ==> EnqueueAll(q, keys) == AddRateLimited(q, Key(keys[0].0, keys[0].1))
    ensures |keys| == 2 ==> EnqueueAll(q, keys) ==
                            AddRateLimited(AddRateLimited(q, Key(keys[0].0, keys[0].1)), Key(keys[1].0, keys[1].1))
    decreases |keys|
  {
    if |keys| == 2 { EnqueueUpToTwo(AddRateLimited(q, Key(keys[0].0, keys[0].1)), keys[1..]); }
  }

  /** The custom resources enqueued for a notification, in order. */
  function Routes(kind: string, discovers: bool, instances: set<(string, string)>, n: Notification)
    : seq<(string, string)>
  {
    if n.Garbage? || (n.Tombstone? && n.last.None?) then []
    else
      var m := if n.Live? then n.meta else n.last.value;
      var asked := discovers && n.Live? && m.refersTo.Some?;
      if asked && (m.namespace, m.refersTo.value) !in instances then []
      else
        (if asked then [(m.namespace, m.refersTo.value)] else [])
        + (if m.owner.Some? && m.owner.value.kind == kind && (m.namespace, m.owner.value.name) in instances
           then [(m.namespace, m.owner.value.name)] else [])
  }

  // ---------------------------------------------------------------- workers over whole runs

  /** `busy` maps each worker to the item it is processing. */
  datatype World = World(q: Queue, busy: map<nat, Item>)

  datatype Step =
    | Notify(x: Item)              // some event handler calls AddRateLimited
    | Release(x: Item)
    | Take(worker: nat)
    | Finish(worker: nat, answer: Answer)

  const START: World := World(EMPTY, map[])

  predicate Enabled(w: World, s: Step) {
    match s
    case Notify(x) => true
    case Release(x) => x in w.q.delayed
    case Take(k) => k !in w.busy && w.q.queue != []
    case Finish(k, _) => k in w.busy
  }

  function Next(w: World, s: Step): World
    requires Enabled(w, s)
  {
    match s
    case Notify(x) => w.(q := AddRateLimited(w.q, x))
    case Release(x) => w.(q := WorkQueue.Release(w.q, x))
    case Take(k) => World(Get(w.q), w.busy[k := w.q.queue[0]])
    case Finish(k, a) => World(Settle(w.q, w.busy[k], a), w.busy - {k})
  }

  predicate Run(w: World, steps: seq<Step>)
    decreases |steps|
  {
    steps == [] || (Enabled(w, steps[0]) && Run(Next(w, steps[0]), steps[1..]))
  }

  function After(w: World, steps: seq<Step>): World
    requires Run(w, steps)
    decreases |steps|
  {
    if steps == [] then w else After(Next(w, steps[0]), steps[1..])
  }

  ghost predicate Inv(w: World) {
    && (forall i, j | 0 <= i < j < |w.q.queue| :: w.q.queue[i] != w.q.queue[j])
    && (forall x :: x in w.q.queue <==> x in w.q.dirty && x !in w.q.processing)
    && (forall k | k in w.busy :: w.busy[k] in w.q.processing)
    && (forall x | x in w.q.processing :: exists k :: k in w.busy && w.busy[k] == x)
    && (forall k, l | k in w.busy && l in w.busy && w.busy[k] == w.busy[l] :: k == l)
  }

  lemma StepKeepsInv(w: World, s: Step)
    requires Inv(w) && Enabled(w, s)
    ensures Inv(Next(w, s))
  {
    match s {
      case Take(k) => TakeKeepsInv(w, k);
      case Finish(k, a) => FinishKeepsInv(w, k, a);
      case _ =>
    }
  }

  lemma TakeKeepsInv(w: World, k: nat)
    requires Inv(w) && Enabled(w, Take(k))
    ensures Inv(Next(w, Take(k)))
  {
    var w' := Next(w, Take(k));
    assert w.q.queue[0] in w.q.queue;
    assert forall l | l in w.busy :: l in w'.busy && w'.busy[l] == w.busy[l];
    assert k in w'.busy;
  }

  lemma FinishKeepsInv(w: World, k: nat, a: Answer)
    requires Inv(w) && Enabled(w, Finish(k, a))
    ensures Inv(Next(w, Finish(k, a)))
  {
    var w' := Next(w, Finish(k, a));
    forall x | x in w'.q.processing ensures exists l :: l in w'.busy && w'.busy[l] == x {
      var l :| l in w.busy && w.busy[l] == x;
      assert l in w'.busy;
    }
  }

  lemma {:induction false} RunKeepsInv(w: World, steps: seq<Step>)
    requires Inv(w) && Run(w, steps)
    ensures Inv(After(w, steps))
    decreases |steps|
  {
    if steps != [] {
      StepKeepsInv(w, steps[0]);
      RunKeepsInv(Next(w, steps[0]), steps[1..]);
    }
  }

  /** The step takes `x` off the queue. */
  predicate Takes(w: World, s: Step, x: Item) { s.Take? && w.q.queue != [] && w.q.queue[0] == x }

  /** The step finishes `x`. */
  predicate Finishes(w: World, s: Step, x: Item) { s.Finish? && s.worker in w.busy && w.busy[s.worker] == x }

  function Bit(b: bool): nat { if b then 1 else 0 }

  function Gets(w: World, steps: seq<Step>, x: Item): nat
    requires Run(w, steps)
    decreases |steps|
  {
    if steps == [] then 0 else Bit(Takes(w, steps[0], x)) + Gets(Next(w, steps[0]), steps[1..], x)
  }

  function Dones(w: World, steps: seq<Step>, x: Item): nat
    requires Run(w, steps)
    decreases |steps|
  {
    if steps == [] then 0 else Bit(Finishes(w, steps[0], x)) + Dones(Next(w, steps[0]), steps[1..], x)
  }

  /** The lookup found the custom resource, and its Sync returned no error. */
  predicate SyncedFine(a: Answer) { a.Synced? && a.err.None? }

  /** The rate-limited additions of `x` since it was last synced without error or found to be no key,
      starting from `sofar`. */
  function Tally(w: World, steps: seq<Step>, x: Item, sofar: nat): nat
    requires Run(w, steps)
    decreases |steps|
  {
    if steps == [] then sofar
    else
      var s := steps[0];
      var now := if s == Notify(x) then sofar + 1
                 else if Finishes(w, s, x) && (x.Junk? || SyncedFine(s.answer)) then 0
                 else sofar;
      Tally(Next(w, s), steps[1..], x, now)
  }

  lemma StepHandsOver(w: World, s: Step, x: Item)
    requires Inv(w) && Enabled(w, s)
    ensures Bit(Takes(w, s, x)) + Bit(x in w.q.processing)
            == Bit(Finishes(w, s, x)) + Bit(x in Next(w, s).q.processing)
  {
    if s.Take? { assert w.q.queue[0] in w.q.queue; }
  }

  lemma {:induction false} GetsMatchDones(w: World, steps: seq<Step>, x: Item)
    requires Inv(w) && Run(w, steps)
    ensures Gets(w, steps, x) + Bit(x in w.q.processing) == Dones(w, steps, x) + Bit(x in After(w, steps).q.processing)
    decreases |steps|
  {
    if steps != [] {
      StepKeepsInv(w, steps[0]);
      StepHandsOver(w, steps[0], x);
      GetsMatchDones(Next(w, steps[0]), steps[1..], x);
    }
  }

  lemma StepTallies(w: World, s: Step, x: Item)
    requires Enabled(w, s)
    ensures Requeues(Next(w, s).q, x) ==
            if s == Notify(x) then Requeues(w.q, x) + 1
            else if Finishes(w, s, x) && (x.Junk? || SyncedFine(s.answer)) then 0
            else Requeues(w.q, x)
  {
  }

  lemma {:induction false} FailuresAreTallied(w: World, steps: seq<Step>, x: Item)
    requires Run(w, steps)
    ensures Requeues(After(w, steps).q, x) == Tally(w, steps, x, Requeues(w.q, x))
    decreases |steps|
  {
    if steps != [] {
      StepTallies(w, steps[0], x);
      FailuresAreTallied(Next(w, steps[0]), steps[1..], x);
    }
  }

  /** Over every run: each Get of an item is matched by exactly one Done except while a worker holds it,
      and the limiter remembers exactly the additions since the last success. */
  lemma WorkerDiscipline(w: World, steps: seq<Step>, x: Item)
    requires Inv(w) && Run(w, steps)
    ensures Gets(w, steps, x) + Bit(x in w.q.processing) == Dones(w, steps, x) + Bit(x in After(w, steps).q.processing)
    ensures Requeues(After(w, steps).q, x) == Tally(w, steps, x, Requeues(w.q, x))
  {
    GetsMatchDones(w, steps, x);
    FailuresAreTallied(w, steps, x);
  }

  /** No item is in the hands of two workers, in any reachable state. */
  lemma NoSharedItem(steps: seq<Step>, k: nat, l: nat)
    requires Run(START, steps)
    requires k in After(START, steps).busy && l in After(START, steps).busy && k != l
    ensures After(START, steps).busy[k] != After(START, steps).busy[l]
  {
    RunKeepsInv(START, steps);
  }

  /** Nothing will bring `x` to a worker by itself. */
  predicate Idle(q: Queue, x: Item) { x !in q.dirty && x !in q.delayed && x !in q.queue }

  /** When a worker finishes, its item is ready again exactly if it became dirty meanwhile: the answer
      plays no part, so a transient error is not retried by the worker that saw it. */
  lemma ReadyAgainExactlyIfDirty(w: World, k: nat, a: Answer)
    requires Inv(w) && k in w.busy
    ensures var x := w.busy[k];
            var q' := Next(w, Finish(k, a)).q;
            && (x in q'.queue <==> x in w.q.dirty)
            && (Idle(q', x) <==> x !in w.q.dirty && x !in w.q.delayed)
  {
  }

  /** After a run without events for it, an idle item has never been taken, whatever its last answer. */
  lemma {:induction false} IdleWithoutEvents(w: World, steps: seq<Step>, x: Item)
    requires Inv(w) && Run(w, steps) && Idle(w.q, x) && Notify(x) !in steps
    ensures Gets(w, steps, x) == 0 && Idle(After(w, steps).q, x)
    decreases |steps|
  {
    if steps != [] {
      StepKeepsInv(w, steps[0]);
      IdleWithoutEvents(Next(w, steps[0]), steps[1..], x);
    }
  }

  /** No event is lost: until a worker takes the item, it is waiting out its rate limit or dirty. */
  lemma {:induction false} EventsAreNotLost(w: World, steps: seq<Step>, x: Item)
    requires Inv(w) && Run(w, steps) && (x in w.q.delayed || x in w.q.dirty) && Gets(w, steps, x) == 0
    ensures x in After(w, steps).q.delayed || x in After(w, steps).q.dirty
    decreases |steps|
  {
    if steps != [] {
      StepKeepsInv(w, steps[0]);
      EventsAreNotLost(Next(w, steps[0]), steps[1..], x);
    }
  }

  /** An event is recorded for an error only if the worker does not treat it as transient. */
  lemma EventOrTransient(a: Answer)
    requires HandlerError(a).Some?
    ensures Events(a) != [] ==> !IsTransient(HandlerError(a).value)
    ensures a.Synced? && IsTransient(a.err.value) ==> Events(a) == []
  {
    ClassesExclude(HandlerError(a).value);
  }

  // ---------------------------------------------------------------- routing

  /** A change reaches exactly the custom resource that a claim refers to and the one that owns the
      object, once for each of these reasons, as long as they exist,
          with two exceptions: a claim known only from a tombstone does not
      reach its Distcc, and a claim whose Distcc is missing does not reach its owner either. */
  lemma RoutesExactly(kind: string, discovers: bool, instances: set<(string, string)>, m: Meta, deleted: bool,
                      key: (string, string))
    ensures var n := if deleted then Tombstone(Some(m)) else Live(m);
            var asked := discovers && !deleted && m.refersTo.Some?;
            key in Routes(kind, discovers, instances, n) <==>
            key in instances && key.0 == m.namespace
            && (|| (asked && m.refersTo == Some(key.1))
                || (m.owner == Some(Owner(kind, key.1)) && (asked ==> (m.namespace, m.refersTo.value) in instances)))
    ensures var n := if deleted then Tombstone(Some(m)) else Live(m);
            var asked := discovers && !deleted && m.refersTo.Some?;
            var found := asked ==> (m.namespace, m.refersTo.value) in instances;
            |Routes(kind, discovers, instances, n)| ==
            Bit(asked && found)
            + Bit(found && m.owner.Some? && m.owner.value.kind == kind
                  && (m.namespace, m.owner.value.name) in instances)
  {
  }

  lemma {:induction false} EnqueuedAreDelayed(q: Queue, keys: seq<(string, string)>, key: (string, string))
    ensures Key(key.0, key.1) in EnqueueAll(q, keys).delayed <==> Key(key.0, key.1) in q.delayed || key in keys
    decreases |keys|
  {
    if keys != [] {
      EnqueuedAreDelayed(AddRateLimited(q, Key(keys[0].0, keys[0].1)), keys[1..], key);
    }
  }
}
