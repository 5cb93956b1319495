/** How many replicas a Distcc deserves, and when the Deployment may be scaled to it. */
module Scaling {
  import opened Prelude
  import opened KubeTime

  const MIN_INT32: int := -0x8000_0000
  const MAX_INT32: int := 0x7fff_ffff

  type Int32 = x: int | MIN_INT32 <= x <= MAX_INT32

  /** What int32 arithmetic makes of an integer. */
  function Wrap32(x: int): (r: Int32)
    ensures MIN_INT32 <= x <= MAX_INT32 ==> r == x
  {
    (x + 0x8000_0000) % 0x1_0000_0000 - 0x8000_0000
  }

  /** The claims with an expiration set and strictly before the bound. */
  function ValidClaims(expirations: seq<Option<Time>>, bound: Time): (count: nat)
    ensures count <= |expirations|
  {
    if expirations == [] then 0
    else
      var last := expirations[|expirations| - 1];
      ValidClaims(expirations[..|expirations| - 1], bound) + if last.Some? && last.value < bound then 1 else 0
  }

  datatype Limits = Limits(min: Option<Int32>, max: Int32, perUser: Int32)

  /** The replicas asked for, brought between the limits the way the code does it. */
  function Limit(limits: Limits, ideal: Int32): Int32 {
    if ideal >= limits.max then limits.max
    else if limits.min.Some? && ideal < limits.min.value then limits.min.value
    else ideal
  }

  /** desiredReplicas on the expirations of the listed claims, where `bound` is a lease taken now. */
  function Desired(limits: Limits, expirations: seq<Option<Time>>, bound: Time): Int32 {
    Limit(limits, Wrap32(Wrap32(ValidClaims(expirations, bound)) * limits.perUser))
  }

  /** The counting loop, in int32. */
  method CountReplicas(limits: Limits, expirations: seq<Option<Time>>, bound: Time) returns (replicas: Int32)
    ensures replicas == Desired(limits, expirations, bound)
  {
    var validClaims: Int32 := 0;
    for i := 0 to |expirations|
      invariant validClaims == Wrap32(ValidClaims(expirations[..i], bound))
    {
      assert expirations[..i + 1][..i] == expirations[..i];
      var expiration := expirations[i];
      if expiration.Some? && expiration.value < bound {
        validClaims := Wrap32(validClaims + 1);
      }
    }
    assert expirations[..|expirations|] == expirations;
    var idealReplicas := Wrap32(validClaims * limits.perUser);
    if idealReplicas >= limits.max { return limits.max; }
    if limits.min.Some? && idealReplicas < limits.min.value { return limits.min.value; }
    return idealReplicas;
  }

  /** `x` brought between the limits. */
  function Clamp(limits: Limits, x: int): (r: int)
    ensures r == x || Some(r) == limits.min || r == limits.max
  {
    var low := if limits.min.Some? && x < limits.min.value then limits.min.value else x;
    if low > limits.max then limits.max else low
  }

  predicate Sensible(limits: Limits) {
    limits.perUser >= 0 && limits.max >= 0 && (limits.min.Some? ==> 0 <= limits.min.value <= limits.max)
  }

  lemma WrapOfProduct(x: int, y: int)
    ensures Wrap32(Wrap32(x) * y) == Wrap32(x * y)
  {
    var q := (x + 0x8000_0000) / 0x1_0000_0000;
    assert Wrap32(x) == x - q * 0x1_0000_0000;
    assert Wrap32(x) * y == x * y - (q * y) * 0x1_0000_0000;
    WrapIsPeriodic(x * y, -(q * y));
  }

  lemma WrapIsPeriodic(x: int, k: int)
    ensures Wrap32(x + k * 0x1_0000_0000) == Wrap32(x)
  {
    var a, b := x + k * 0x1_0000_0000 + 0x8000_0000, x + 0x8000_0000;
    assert a % 0x1_0000_0000 - b % 0x1_0000_0000 == (k - a / 0x1_0000_0000 + b / 0x1_0000_0000) * 0x1_0000_0000;
  }

  lemma LimitIsClamp(limits: Limits, total: nat)
    requires Sensible(limits)
    ensures Limit(limits, Wrap32(total)) == Clamp(limits, total)
            <==> total <= MAX_INT32 || Wrap32(total) >= limits.max || limits.min == Some(limits.max)
  {
  }

  lemma Product(x: nat, y: nat)
    ensures x * y >= 0
  {
  }

  /** With sensible limits the answer is the users' total brought between the limits, exactly unless the
      product overflows, wraps to something below the maximum, and the limits leave a choice. */
  lemma DesiredIsClamped(limits: Limits, expirations: seq<Option<Time>>, bound: Time)
    requires Sensible(limits)
    ensures var total := ValidClaims(expirations, bound) * limits.perUser;
            Desired(limits, expirations, bound) == Clamp(limits, total)
            <==> total <= MAX_INT32 || Wrap32(total) >= limits.max || limits.min == Some(limits.max)
  {
    var count := ValidClaims(expirations, bound);
    WrapOfProduct(count, limits.perUser);
    Product(count, limits.perUser);
    LimitIsClamp(limits, count * limits.perUser);
  }

  /** The overflow is real: 65536 claims of 65536 replicas each ask for no replica at all. */
  lemma OverflowAsksForNothing(expirations: seq<Option<Time>>, bound: Time)
    requires ValidClaims(expirations, bound) == 0x1_0000
    ensures Desired(Limits(None, 10, 0x1_0000), expirations, bound) == 0
    ensures Clamp(Limits(None, 10, 0x1_0000), ValidClaims(expirations, bound) * 0x1_0000) == 10
  {
    WrapOfProduct(0x1_0000, 0x1_0000);
  }

  /** Adding claims, letting time pass and reordering the list never lowers the count. */
  lemma {:induction false} MoreClaimsCountMore(few: seq<Option<Time>>, many: seq<Option<Time>>, early: Time, late: Time)
    requires multiset(few) <= multiset(many) && early <= late
    ensures ValidClaims(few, early) <= ValidClaims(many, late)
    decreases |few|
  {
    if few != [] {
      var rest, last := few[..|few| - 1], few[|few| - 1];
      assert few == rest + [last];
      assert last in multiset(many);
      var i :| 0 <= i < |many| && many[i] == last;
      var others := many[..i] + many[i + 1..];
      assert many == many[..i] + [last] + many[i + 1..];
      assert multiset(few) == multiset(rest) + multiset{last};
      assert multiset(many) == multiset(others) + multiset{last};
      forall x ensures multiset(rest)[x] <= multiset(others)[x] {
        assert multiset(few)[x] <= multiset(many)[x];
      }
      MoreClaimsCountMore(rest, others, early, late);
      CountWithout(many, i, late);
    }
  }

  lemma {:induction false} CountWithout(s: seq<Option<Time>>, i: nat, bound: Time)
    requires i < |s|
    ensures ValidClaims(s, bound) == ValidClaims(s[..i] + s[i + 1..], bound)
                                     + if s[i].Some? && s[i].value < bound then 1 else 0
    decreases |s|
  {
    var n := |s| - 1;
    if i == n {
      assert s[..i] + s[i + 1..] == s[..n];
    } else {
      var without := s[..i] + s[i + 1..];
      assert without[..|without| - 1] == s[..n][..i] + s[..n][i + 1..];
      assert without[|without| - 1] == s[n];
      CountWithout(s[..n], i, bound);
    }
  }

  /** Where nothing overflows, the desired replicas grow with the claims and with time. */
  lemma DesiredIsMonotone(limits: Limits, few: seq<Option<Time>>, many: seq<Option<Time>>, early: Time, late: Time)
    requires Sensible(limits) && multiset(few) <= multiset(many) && early <= late
    requires ValidClaims(many, late) * limits.perUser <= MAX_INT32
    ensures Desired(limits, few, early) <= Desired(limits, many, late)
  {
    MoreClaimsCountMore(few, many, early, late);
    ProductIsMonotone(ValidClaims(few, early), ValidClaims(many, late), limits.perUser);
    DesiredWithoutOverflow(limits, few, early, ValidClaims(few, early) * limits.perUser);
    DesiredWithoutOverflow(limits, many, late, ValidClaims(many, late) * limits.perUser);
    ClampIsMonotone(limits, ValidClaims(few, early) * limits.perUser, ValidClaims(many, late) * limits.perUser);
  }

  lemma ProductIsMonotone(a: nat, b: nat, factor: nat)
    requires a <= b
    ensures 0 <= a * factor <= b * factor
  {
  }

  lemma DesiredWithoutOverflow(limits: Limits, expirations: seq<Option<Time>>, bound: Time, total: int)
    requires Sensible(limits) && total == ValidClaims(expirations, bound) * limits.perUser <= MAX_INT32
    ensures Desired(limits, expirations, bound) == Clamp(limits, total)
  {
    DesiredIsClamped(limits, expirations, bound);
  }

  lemma ClampIsMonotone(limits: Limits, x: int, y: int)
    requires x <= y
    ensures Clamp(limits, x) <= Clamp(limits, y)
  {
  }

  /** needScale */
  predicate NeedScale(now: Time, window: Option<Time>, lastScale: Option<Time>, current: Option<Int32>,
                      desired: Int32) {
    current.None?
    || current.value < desired
    || (current.value > desired && (window.None? || lastScale.None? || now > lastScale.value + window.value))
  }

  /** A downscale is held back because the window since the last scale is still open. */
  predicate WindowOpen(now: Time, window: Option<Time>, lastScale: Option<Time>) {
    window.Some? && lastScale.Some? && now <= lastScale.value + window.value
  }
}

/** The scaling decisions of the autoscaler over whole runs.

    A pass decides on the replicas and on the time of the last scale that its caches show; what it changes
    are the live replicas and the live status. */
module ScaleRuns {
  import opened Prelude
  import opened KubeTime
  import opened Scaling

  datatype Pass =
    | Free
    | Decided(seen: Option<Int32>, last: Option<Time>, desired: Int32)  // needScale said yes
    | Applied  // the Deployment is updated, the status not yet

  /** An update of the Deployment: when, from what live replica count, and to what. */
  datatype Scale = Scale(at: Time, from: Option<Int32>, to: Int32)

  /** `replicas` are the live ones. */
  datatype World = World(now: Time, replicas: Option<Int32>, lastScale: Option<Time>, pass: Pass, scales: seq<Scale>)

  datatype Step =
    | Tick(d: nat)
    | Change(replicas: Option<Int32>)  // anything but a scale creates, changes or deletes the Deployment
    | Decide(seen: Option<Int32>, last: Option<Time>, desired: Int32)
    | Apply
    | Record                           // the status is written
    | Lose                             // the pass ends before, or in, the status write
    | Stop

  predicate Enabled(w: World, s: Step) {
    match s
    case Decide(_, _, _) => w.pass.Free?
    case Apply => w.pass.Decided?
    case Record => w.pass.Applied?
    case Lose => w.pass.Applied?
    case Stop => w.pass.Decided?
    case _ => true
  }

  function Next(w: World, s: Step, window: Option<Time>): World
    requires Enabled(w, s)
  {
    match s
    case Tick(d) => w.(now := w.now + d)
    case Change(replicas) => w.(replicas := replicas)
    case Decide(seen, last, desired) =>
      if NeedScale(w.now, window, last, seen, desired) then w.(pass := Decided(seen, last, desired)) else w
    case Apply =>
      w.(replicas := Some(w.pass.desired), pass := Applied,
         scales := w.scales + [Scale(w.now, w.replicas, w.pass.desired)])
    case Record => w.(lastScale := Some(ToKubeTime(w.now)), pass := Free)
    case Lose => w.(pass := Free)
    case Stop => w.(pass := Free)
  }

  predicate Run(w: World, steps: seq<Step>, window: Option<Time>)
    decreases |steps|
  {
    steps == [] || (Enabled(w, steps[0]) && Run(Next(w, steps[0], window), steps[1..], window))
  }

  function After(w: World, steps: seq<Step>, window: Option<Time>): World
    requires Run(w, steps, window)
    decreases |steps|
  {
    if steps == [] then w else After(Next(w, steps[0], window), steps[1..], window)
  }

  // ---------------------------------------------------------------- spacing

  predicate Lowers(s: Scale) { s.from.Some? && s.to < s.from.value }

  /** `at` is more than the window less a second after every scale so far. */
  predicate Far(scales: seq<Scale>, at: Time, window: Time) {
    forall i | 0 <= i < |scales| :: at - scales[i].at > window - SECOND
  }

  /** Every downscale comes more than the window less a second after every scale before it. */
  predicate Spaced(scales: seq<Scale>, window: Time) {
    forall i, j | 0 <= i < j < |scales| && Lowers(scales[j]) :: scales[j].at - scales[i].at > window - SECOND
  }

  lemma SpacedWithOneMore(scales: seq<Scale>, s: Scale, window: Time)
    ensures Spaced(scales + [s], window) <==> Spaced(scales, window) && (Lowers(s) ==> Far(scales, s.at, window))
  {
    var more := scales + [s];
    if Spaced(more, window) {
      forall i, j | 0 <= i < j < |scales| && Lowers(scales[j])
        ensures scales[j].at - scales[i].at > window - SECOND
      {
        assert more[i] == scales[i] && more[j] == scales[j];
      }
      forall i | 0 <= i < |scales| && Lowers(s) ensures s.at - scales[i].at > window - SECOND {
        assert more[i] == scales[i] && more[|scales|] == s;
      }
    }
  }

  /** A downscale from now on is far from this scale: it is far already, or the recorded time is late
      enough to hold a downscale back until it is. */
  predicate Covered(w: World, s: Scale, window: Time) {
    w.now - s.at > window - SECOND || (w.lastScale.Some? && s.at <= w.lastScale.value + SECOND)
  }

  predicate Safe(w: World, window: Time) { forall i | 0 <= i < |w.scales| :: Covered(w, w.scales[i], window) }

  predicate Inv(w: World, window: Time) {
    && (forall i | 0 <= i < |w.scales| :: w.scales[i].at <= w.now)
    && (w.pass.Applied? || Safe(w, window))
    && (w.pass.Decided? && Shown(w) ==> Far(w.scales, w.now, window))
  }

  /** The caches show the decided scale as a downscale, and the live time of the last scale. */
  predicate Shown(w: World)
    requires w.pass.Decided?
  {
    w.pass.seen.Some? && w.pass.desired < w.pass.seen.value && w.pass.last == w.lastScale
  }

  lemma StepKeepsInv(w: World, s: Step, window: Time)
    requires Inv(w, window) && Enabled(w, s) && s != Lose
    ensures Inv(Next(w, s, Some(window)), window)
  {
    assert s.Decide? ==> forall i | 0 <= i < |w.scales| :: Covered(w, w.scales[i], window);
    assert s.Tick? ==> forall i | 0 <= i < |w.scales| :: Covered(w, w.scales[i], window) ==>
      Covered(Next(w, s, Some(window)), w.scales[i], window);
  }

  lemma {:induction false} RunKeepsInv(w: World, steps: seq<Step>, window: Time)
    requires Inv(w, window) && Run(w, steps, Some(window)) && Lose !in steps
    ensures Inv(After(w, steps, Some(window)), window)
    decreases |steps|
  {
    if steps != [] {
      StepKeepsInv(w, steps[0], window);
      RunKeepsInv(Next(w, steps[0], Some(window)), steps[1..], window);
    }
  }

  // ---------------------------------------------------------------- stale caches

  /** The pass is about to lower the live replicas although its caches show no downscale, or not the live
      time of the last scale. */
  predicate Blind(w: World) {
    w.pass.Decided? && w.replicas.Some? && w.pass.desired < w.replicas.value && !Shown(w)
  }

  /** No scale of the run lowers the live replicas blindly while a scale is less than the window, less a
      second, ago. */
  predicate Sighted(w: World, steps: seq<Step>, window: Time)
    requires Run(w, steps, Some(window))
    decreases |steps|
  {
    steps == []
    || ((steps[0] == Apply && Blind(w) ==> Far(w.scales, w.now, window))
        && Sighted(Next(w, steps[0], Some(window)), steps[1..], window))
  }

  /** As long as no status write is lost, downscales of the live Deployment are spaced in exactly the runs
      without a blind one inside the window, whatever else happens and however long a pass takes. */
  lemma {:induction false} SpacedExactly(w: World, steps: seq<Step>, window: Time)
    requires Inv(w, window) && Run(w, steps, Some(window)) && Lose !in steps
    ensures Spaced(After(w, steps, Some(window)).scales, window) <==>
            Spaced(w.scales, window) && Sighted(w, steps, window)
    decreases |steps|
  {
    if steps != [] {
      StepKeepsInv(w, steps[0], window);
      SpacedExactly(Next(w, steps[0], Some(window)), steps[1..], window);
      if steps[0] == Apply { SpacedWithOneMore(w.scales, Scale(w.now, w.replicas, w.pass.desired), window); }
    }
  }

  /** Every scale of the run is decided on the replicas and the time of the last scale that are live when
      it is applied. */
  predicate CurrentScales(w: World, steps: seq<Step>, window: Time)
    requires Run(w, steps, Some(window))
    decreases |steps|
  {
    steps == []
    || ((steps[0] == Apply ==> w.pass.seen == w.replicas && w.pass.last == w.lastScale)
        && CurrentScales(Next(w, steps[0], Some(window)), steps[1..], window))
  }

  lemma {:induction false} CurrentIsSighted(w: World, steps: seq<Step>, window: Time)
    requires Run(w, steps, Some(window)) && CurrentScales(w, steps, window)
    ensures Sighted(w, steps, window)
    decreases |steps|
  {
    if steps != [] { CurrentIsSighted(Next(w, steps[0], Some(window)), steps[1..], window); }
  }

  /** As long as no status write is lost and scales are decided on current caches, a downscale comes more
      than the window less a second after every scale before it. */
  lemma DownscalesAreSpaced(replicas: Option<Int32>, lastScale: Option<Time>, steps: seq<Step>, window: Time)
    requires var w := World(0, replicas, lastScale, Free, []);
             Run(w, steps, Some(window)) && Lose !in steps && CurrentScales(w, steps, window)
    ensures Spaced(After(World(0, replicas, lastScale, Free, []), steps, Some(window)).scales, window)
  {
    var w := World(0, replicas, lastScale, Free, []);
    CurrentIsSighted(w, steps, window);
    SpacedExactly(w, steps, window);
  }

  // ---------------------------------------------------------------- lost status writes

  /** Whatever happens from here, with current caches and no further loss, downscales are spaced. */
  ghost predicate StaysSpaced(w: World, window: Time) {
    forall steps: seq<Step> | Run(w, steps, Some(window)) && Lose !in steps && CurrentScales(w, steps, window) ::
      Spaced(After(w, steps, Some(window)).scales, window)
  }

  /** Between passes, whatever was lost before: spacing is kept from here on exactly if every scale so far
      is either far in the past or covered by the recorded time of the last scale. */
  lemma SpacingSurvivesExactly(w: World, window: Time)
    requires w.pass.Free? && (forall i | 0 <= i < |w.scales| :: w.scales[i].at <= w.now)
    ensures StaysSpaced(w, window) <==> Spaced(w.scales, window) && Safe(w, window)
  {
    if Spaced(w.scales, window) && Safe(w, window) {
      forall steps: seq<Step> | Run(w, steps, Some(window)) && Lose !in steps && CurrentScales(w, steps, window)
        ensures Spaced(After(w, steps, Some(window)).scales, window)
      {
        CurrentIsSighted(w, steps, window);
        SpacedExactly(w, steps, window);
      }
    } else if StaysSpaced(w, window) {
      assert Run(w, [], Some(window)) && CurrentScales(w, [], window);
      assert After(w, [], Some(window)) == w;
      var i :| 0 <= i < |w.scales| && !Covered(w, w.scales[i], window);
      UncoveredBreaks(w, i, window);
    }
  }

  /** A scale that nothing covers is followed by a downscale as soon as the recorded window is over. */
  lemma UncoveredBreaks(w: World, i: nat, window: Time)
    requires w.pass.Free? && i < |w.scales| && !Covered(w, w.scales[i], window)
    ensures !StaysSpaced(w, window)
  {
    var end := if w.lastScale.Some? then w.lastScale.value + window + 1 else w.now;
    var t := Tick(if end > w.now then end - w.now else 0);
    var w1 := Next(w, Change(Some(1)), Some(window));
    var w2 := Next(w1, t, Some(window));
    var w3 := Next(w2, Decide(Some(1), w.lastScale, 0), Some(window));
    var w4 := Next(w3, Apply, Some(window));
    Prepend(w3, Apply, [], window);
    Prepend(w2, Decide(Some(1), w.lastScale, 0), [Apply] + [], window);
    Prepend(w1, t, [Decide(Some(1), w.lastScale, 0)] + ([Apply] + []), window);
    Prepend(w, Change(Some(1)), [t] + ([Decide(Some(1), w.lastScale, 0)] + ([Apply] + [])), window);
    SpacedWithOneMore(w.scales, Scale(w2.now, Some(1), 0), window);
    var steps := [Change(Some(1))] + ([t] + ([Decide(Some(1), w.lastScale, 0)] + ([Apply] + [])));
    assert After(w, steps, Some(window)).scales == w.scales + [Scale(w2.now, Some(1), 0)];
  }

  /** Losing the status write of a scale is harmless exactly if the window is shorter than a second, or
      the time recorded from an earlier scale is at most a second older. */
  lemma LossIsHarmlessExactly(w: World, replicas: Option<Int32>, desired: Int32, window: Time)
    requires w.pass == Decided(replicas, w.lastScale, desired) && w.replicas == replicas && Inv(w, window)
             && Spaced(w.scales, window)
    ensures var lost := Next(Next(w, Apply, Some(window)), Lose, Some(window));
            StaysSpaced(lost, window) <==>
            window < SECOND || (w.lastScale.Some? && w.now <= w.lastScale.value + SECOND)
  {
    var s := Scale(w.now, w.replicas, w.pass.desired);
    var lost := Next(Next(w, Apply, Some(window)), Lose, Some(window));
    SpacedWithOneMore(w.scales, s, window);
    SpacingSurvivesExactly(lost, window);
    assert lost.scales == w.scales + [s];
    assert lost.scales[|w.scales|] == s;
    assert forall i | 0 <= i < |w.scales| :: Covered(w, w.scales[i], window) && lost.scales[i] == w.scales[i];
  }

  const START: World := World(0, None, None, Free, [])

  /** Losing the very first one is not harmless. */
  lemma LostStatusBreaksSpacing(window: Time)
    requires window >= SECOND
    ensures var w := Next(START, Decide(None, None, 3), Some(window));
            w.pass.Decided? && !StaysSpaced(Next(Next(w, Apply, Some(window)), Lose, Some(window)), window)
  {
    LossIsHarmlessExactly(Next(START, Decide(None, None, 3), Some(window)), None, 3, window);
  }

  lemma Prepend(w: World, s: Step, rest: seq<Step>, window: Time)
    requires Enabled(w, s) && Run(Next(w, s, Some(window)), rest, Some(window))
    ensures Run(w, [s] + rest, Some(window))
    ensures After(w, [s] + rest, Some(window)) == After(Next(w, s, Some(window)), rest, Some(window))
    ensures Sighted(w, [s] + rest, window) <==>
            (s == Apply && Blind(w) ==> Far(w.scales, w.now, window)) && Sighted(Next(w, s, Some(window)), rest, window)
    ensures CurrentScales(w, [s] + rest, window) <==>
            (s == Apply ==> w.pass.seen == w.replicas && w.pass.last == w.lastScale)
            && CurrentScales(Next(w, s, Some(window)), rest, window)
  {
    assert ([s] + rest)[1..] == rest;
  }
}
