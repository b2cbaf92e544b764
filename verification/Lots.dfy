/** Lot rounding in the receiver: an OPEN rounds to the broker's lot step and limits,
    a PARTIAL closes a rounded difference. */
module Lots {
  /** MathRound: to the nearest integer, halves away from zero. */
  function Round(x: real): int {
    if x >= 0.0 then (x + 0.5).Floor else -((0.5 - x).Floor)
  }

  lemma RoundNear(x: real)
    ensures x - 0.5 <= Round(x) as real <= x + 0.5
  {}

  lemma RoundMonotone(x: real, n: int)
    requires x <= n as real
    ensures Round(x) <= n
  {}

  /** Nearest, and halves away from zero. */
  lemma RoundIff(x: real, n: int)
    ensures x >= 0.0 ==> (Round(x) == n <==> n as real - 0.5 <= x < n as real + 0.5)
    ensures x <= 0.0 ==> (Round(x) == n <==> n as real - 0.5 < x <= n as real + 0.5)
  {}

  /** Broker limits of a symbol, the volumes in steps. */
  datatype Broker = Broker(step: real, minSteps: nat, maxSteps: nat)

  predicate GoodBroker(b: Broker) { b.step > 0.0 && b.minSteps <= b.maxSteps }

  function Lot(b: Broker, steps: int): real { steps as real * b.step }

  function Max(a: real, b: real): real { if a < b then b else a }
  function Min(a: real, b: real): real { if b < a then b else a }

  /** The volume OpenTrade sends for a wanted lot. */
  function OpenVolume(b: Broker, lot: real): real
    requires GoodBroker(b)
  {
    Max(Lot(b, b.minSteps), Min(Lot(b, b.maxSteps), Round(lot / b.step) as real * b.step))
  }

  /** The volume left after PartialClose with target `newLot`, if the order is filled. */
  function PartialVolume(b: Broker, volume: real, newLot: real): real
    requires GoodBroker(b)
  {
    var closeAmount := volume - newLot;
    if closeAmount <= 0.0 then volume
    else volume - Round(closeAmount / b.step) as real * b.step
  }

  function Clamp(b: Broker, n: int): int {
    if n < b.minSteps then b.minSteps else if n > b.maxSteps then b.maxSteps else n
  }

  lemma LotOrder(b: Broker, m: int, n: int)
    requires GoodBroker(b)
    ensures m <= n <==> Lot(b, m) <= Lot(b, n)
  {
    if m <= n { assert (n - m) as real * b.step >= 0.0; } else { assert (m - n) as real * b.step > 0.0; }
  }

  /** Opening rounds to the nearest step and clamps. */
  lemma OpenInSteps(b: Broker, lot: real)
    requires GoodBroker(b)
    ensures OpenVolume(b, lot) == Lot(b, Clamp(b, Round(lot / b.step)))
  {
    var n := Round(lot / b.step);
    LotOrder(b, b.minSteps, n);
    LotOrder(b, n, b.maxSteps);
    LotOrder(b, b.minSteps, b.maxSteps);
    LotOrder(b, n, b.minSteps);
    LotOrder(b, b.maxSteps, n);
  }

  predicate Near(b: Broker, volume: real, target: real) {
    -0.5 * b.step <= volume - target <= 0.5 * b.step
  }

  lemma Scale(b: Broker, x: real)
    requires GoodBroker(b)
    ensures x >= 0.0 <==> x * b.step >= 0.0
  {}

  lemma DivMul(b: Broker, x: real)
    requires GoodBroker(b)
    ensures (x / b.step) * b.step == x
  {}

  lemma Distribute(x: real, y: real, s: real)
    ensures (x + y) * s == x * s + y * s
    ensures (x - y) * s == x * s - y * s
  {}

  /** Distances in steps are distances in lots. */
  lemma NearInSteps(b: Broker, n: int, q: real)
    requires GoodBroker(b)
    ensures Near(b, Lot(b, n), q * b.step) <==> -0.5 <= n as real - q <= 0.5
  {
    var x := n as real - q;
    Distribute(n as real, q, b.step);
    Distribute(x, 0.5, b.step);
    Distribute(0.5, x, b.step);
    Scale(b, x + 0.5);
    Scale(b, 0.5 - x);
  }

  lemma ClampNear(b: Broker, q: real)
    requires GoodBroker(b)
    ensures -0.5 <= Clamp(b, Round(q)) as real - q <= 0.5
       <==> b.minSteps as real - 0.5 <= q <= b.maxSteps as real + 0.5
  {
    RoundNear(q);
  }

  lemma ClampedNearIff(b: Broker, q: real)
    requires GoodBroker(b)
    ensures Near(b, Lot(b, Clamp(b, Round(q))), q * b.step)
       <==> Lot(b, b.minSteps) - 0.5 * b.step <= q * b.step <= Lot(b, b.maxSteps) + 0.5 * b.step
  {
    assert Near(b, Lot(b, Clamp(b, Round(q))), q * b.step) <==> -0.5 <= Clamp(b, Round(q)) as real - q <= 0.5 by {
      NearInSteps(b, Clamp(b, Round(q)), q);
    }
    ClampNear(b, q);
    HalfStepBelow(b, b.minSteps, q);
    HalfStepAbove(b, b.maxSteps, q);
  }

  /** An opened copy is within half a step of the wanted lot exactly when that lot is
      within half a step of the broker's limits. */
  lemma OpenNearIff(b: Broker, lot: real)
    requires GoodBroker(b)
    ensures Near(b, OpenVolume(b, lot), lot)
       <==> Lot(b, b.minSteps) - 0.5 * b.step <= lot <= Lot(b, b.maxSteps) + 0.5 * b.step
  {
    var q := lot / b.step;
    assert q * b.step == lot by { DivMul(b, lot); }
    assert OpenVolume(b, lot) == Lot(b, Clamp(b, Round(q))) by { OpenInSteps(b, lot); }
    ClampedNearIff(b, q);
  }

  /** How far a volume is from a wanted lot. */
  function Distance(volume: real, lot: real): real { if volume < lot then lot - volume else volume - lot }

  /** No volume that the broker takes is closer to the wanted lot than the opened one. */
  lemma OpenIsClosest(b: Broker, lot: real, k: nat)
    requires GoodBroker(b) && b.minSteps <= k <= b.maxSteps
    ensures Distance(OpenVolume(b, lot), lot) <= Distance(Lot(b, k), lot)
  {
    var q := lot / b.step;
    var n := Clamp(b, Round(q));
    assert q * b.step == lot by { DivMul(b, lot); }
    assert OpenVolume(b, lot) == Lot(b, n) by { OpenInSteps(b, lot); }
    RoundNear(q);
    CloserInLots(b, n, k, q, lot) by { ClosestStep(b, Round(q), q, k); }
  }

  lemma ClosestStep(b: Broker, r: int, q: real, k: int)
    requires GoodBroker(b) && b.minSteps <= k <= b.maxSteps && r as real - 0.5 <= q <= r as real + 0.5
    ensures Distance(Clamp(b, r) as real, q) <= Distance(k as real, q)
  {
    var n := Clamp(b, r);
    if k < n {
      Gap(k, n);
    } else if k > n {
      Gap(n, k);
    }
  }

  lemma Gap(m: int, n: int)
    requires m < n
    ensures m as real + 1.0 <= n as real
  {}

  lemma CloserInLots(b: Broker, n: int, k: int, q: real, lot: real)
    requires GoodBroker(b) && q * b.step == lot && Distance(n as real, q) <= Distance(k as real, q)
    ensures Distance(Lot(b, n), lot) <= Distance(Lot(b, k), lot)
  {
    var d := DistanceInSteps(b, n, q, lot);
    var e := DistanceInSteps(b, k, q, lot);
    ScaleOrder(b, d, e);
  }

  lemma ScaleOrder(b: Broker, x: real, y: real)
    requires GoodBroker(b) && x <= y
    ensures x * b.step <= y * b.step
  {
    Distribute(y, x, b.step);
    Scale(b, y - x);
  }

  lemma DistanceInSteps(b: Broker, n: int, q: real, lot: real) returns (d: real)
    requires GoodBroker(b) && q * b.step == lot
    ensures d == Distance(n as real, q) && Distance(Lot(b, n), lot) == d * b.step
  {
    d := Distance(n as real, q);
    Distribute(n as real, q, b.step);
    Distribute(q, n as real, b.step);
    Scale(b, n as real - q);
    Scale(b, q - n as real);
  }

  lemma HalfStepBelow(b: Broker, n: int, q: real)
    requires GoodBroker(b)
    ensures Lot(b, n) - 0.5 * b.step <= q * b.step <==> n as real - 0.5 <= q
  {
    Distribute(n as real, 0.5, b.step);
    Distribute(q, n as real - 0.5, b.step);
    Scale(b, q - (n as real - 0.5));
  }

  lemma HalfStepAbove(b: Broker, n: int, q: real)
    requires GoodBroker(b)
    ensures q * b.step <= Lot(b, n) + 0.5 * b.step <==> q <= n as real + 0.5
  {
    Distribute(n as real, 0.5, b.step);
    Distribute(n as real + 0.5, q, b.step);
    Scale(b, n as real + 0.5 - q);
  }

  // ---- Partial closes ----

  /** PartialClose counted in steps, for a target of q steps. */
  function PartialSteps(n: int, q: real): int {
    if n as real - q <= 0.0 then n else n - Round(n as real - q)
  }

  lemma PartialInSteps(b: Broker, n: int, target: real)
    requires GoodBroker(b)
    ensures PartialVolume(b, Lot(b, n), target) == Lot(b, PartialSteps(n, target / b.step))
  {
    var q := target / b.step;
    var x := n as real - q;
    DivMul(b, target);
    Distribute(n as real, q, b.step);
    Scale(b, -x);
    assert Lot(b, n) - target == x * b.step;
    assert -x * b.step == -(x * b.step);
    if x > 0.0 {
      DivCancel(b, x);
      Distribute(n as real, Round(x) as real, b.step);
    }
  }

  lemma DivCancel(b: Broker, x: real)
    requires GoodBroker(b)
    ensures (x * b.step) / b.step == x
  {}

  /** One partial close of n steps to a target of q steps is near its target exactly if the
      target is not more than half a step above the volume. */
  lemma PartialStep(n: nat, q: real)
    requires 0.0 <= q
    ensures 0 <= PartialSteps(n, q) <= n
    ensures -0.5 <= PartialSteps(n, q) as real - q <= 0.5 <==> q <= n as real + 0.5
    ensures q >= n as real ==> PartialSteps(n, q) == n
  {
    var x := n as real - q;
    RoundNear(x);
    RoundMonotone(x, n);
  }

  /** The volume after a series of partial closes. */
  function AfterPartials(b: Broker, volume: real, targets: seq<real>): real
    requires GoodBroker(b)
  {
    if targets == [] then volume
    else PartialVolume(b, AfterPartials(b, volume, targets[..|targets| - 1]), targets[|targets| - 1])
  }

  predicate NonNegative(targets: seq<real>) { forall i :: 0 <= i < |targets| ==> 0.0 <= targets[i] }

  predicate Falling(targets: seq<real>) { forall i, j :: 0 <= i < j < |targets| ==> targets[j] <= targets[i] }

  /** A series of partial closes counted in steps. */
  function StepsAfter(n: int, qs: seq<real>): int {
    if qs == [] then n else PartialSteps(StepsAfter(n, qs[..|qs| - 1]), qs[|qs| - 1])
  }

  /** Targets counted in steps. */
  function InSteps(b: Broker, targets: seq<real>): seq<real>
    requires GoodBroker(b)
  {
    seq(|targets|, i requires 0 <= i < |targets| => targets[i] / b.step)
  }

  lemma {:induction false} PartialsInSteps(b: Broker, n: int, targets: seq<real>)
    requires GoodBroker(b)
    ensures AfterPartials(b, Lot(b, n), targets) == Lot(b, StepsAfter(n, InSteps(b, targets)))
  {
    if targets != [] {
      var k := |targets| - 1;
      PartialsInSteps(b, n, targets[..k]);
      assert InSteps(b, targets)[..k] == InSteps(b, targets[..k]);
      PartialInSteps(b, StepsAfter(n, InSteps(b, targets[..k])), targets[k]);
    }
  }

  lemma {:induction false} StepsBounds(n: nat, qs: seq<real>)
    requires NonNegative(qs)
    ensures 0 <= StepsAfter(n, qs) <= n
  {
    if qs != [] {
      StepsBounds(n, qs[..|qs| - 1]);
      PartialStep(StepsAfter(n, qs[..|qs| - 1]), qs[|qs| - 1]);
    }
  }

  /** Falling targets are followed to within half a step from the first one that is not
      more than half a step above the opened volume. */
  lemma {:induction false} StepsNearIff(n: nat, qs: seq<real>)
    requires NonNegative(qs) && Falling(qs) && qs != []
    ensures -0.5 <= StepsAfter(n, qs) as real - qs[|qs| - 1] <= 0.5 <==> qs[|qs| - 1] <= n as real + 0.5
    ensures qs[|qs| - 1] >= n as real ==> StepsAfter(n, qs) == n
  {
    var k := |qs| - 1;
    StepsBounds(n, qs[..k]);
    PartialStep(StepsAfter(n, qs[..k]), qs[k]);
    if k > 0 {
      StepsNearIff(n, qs[..k]);
      assert qs[..k][k - 1] == qs[k - 1] && qs[k] <= qs[k - 1];
    }
  }

  lemma DivOrder(b: Broker, x: real, y: real)
    requires GoodBroker(b) && x <= y
    ensures x / b.step <= y / b.step
    ensures 0.0 / b.step == 0.0
  {
    DivMul(b, x);
    DivMul(b, y);
    Distribute(y / b.step, x / b.step, b.step);
    Scale(b, y / b.step - x / b.step);
  }

  lemma StepsKeepOrder(b: Broker, targets: seq<real>)
    requires GoodBroker(b) && NonNegative(targets)
    ensures NonNegative(InSteps(b, targets))
    ensures Falling(targets) ==> Falling(InSteps(b, targets))
  {
    forall i | 0 <= i < |targets| ensures 0.0 <= InSteps(b, targets)[i] { DivOrder(b, 0.0, targets[i]); }
    if Falling(targets) {
      forall i, j | 0 <= i < j < |targets| ensures InSteps(b, targets)[j] <= InSteps(b, targets)[i] {
        DivOrder(b, targets[j], targets[i]);
      }
    }
  }

  /** For every wanted lot and any number of filled partial closes, whatever their targets:
      the copy is a whole number of lot steps, never negative and never more than was
      opened. */
  lemma CopyInSteps(b: Broker, lot: real, targets: seq<real>) returns (n: nat, m: nat)
    requires GoodBroker(b) && NonNegative(targets)
    ensures OpenVolume(b, lot) == Lot(b, n) && b.minSteps <= n <= b.maxSteps
    ensures AfterPartials(b, OpenVolume(b, lot), targets) == Lot(b, m) && m <= n
    ensures m == StepsAfter(n, InSteps(b, targets))
  {
    OpenInSteps(b, lot);
    n := Clamp(b, Round(lot / b.step));
    PartialsInSteps(b, n, targets);
    StepsKeepOrder(b, targets);
    StepsBounds(n, InSteps(b, targets));
    m := StepsAfter(n, InSteps(b, targets));
  }

  /** After partial closes with falling targets the copy is within half a step of the last
      target exactly if that target is not more than half a step above the opened volume;
      before any, exactly if the wanted lot is within half a step of the broker's limits. */
  lemma CopyFollowsSource(b: Broker, lot: real, targets: seq<real>)
    requires GoodBroker(b) && NonNegative(targets) && Falling(targets)
    ensures targets == [] ==>
              (Near(b, AfterPartials(b, OpenVolume(b, lot), targets), lot) <==>
                 Lot(b, b.minSteps) - 0.5 * b.step <= lot <= Lot(b, b.maxSteps) + 0.5 * b.step)
    ensures targets != [] ==>
              (Near(b, AfterPartials(b, OpenVolume(b, lot), targets), targets[|targets| - 1]) <==>
                 targets[|targets| - 1] <= OpenVolume(b, lot) + 0.5 * b.step)
  {
    if targets == [] {
      OpenNearIff(b, lot);
    } else {
      var n, m := CopyInSteps(b, lot, targets);
      PartialsNearIff(b, n, m, targets);
    }
  }

  lemma LastNearIff(b: Broker, n: nat, targets: seq<real>)
    requires GoodBroker(b) && NonNegative(targets) && Falling(targets) && targets != []
    ensures var q := targets[|targets| - 1] / b.step;
            -0.5 <= StepsAfter(n, InSteps(b, targets)) as real - q <= 0.5 <==> q <= n as real + 0.5
  {
    StepsKeepOrder(b, targets);
    StepsNearIff(n, InSteps(b, targets));
  }

  lemma NearInLots(b: Broker, n: int, m: int, q: real, target: real)
    requires GoodBroker(b) && q * b.step == target
    requires -0.5 <= m as real - q <= 0.5 <==> q <= n as real + 0.5
    ensures Near(b, Lot(b, m), target) <==> target <= Lot(b, n) + 0.5 * b.step
  {
    NearInSteps(b, m, q);
    HalfStepAbove(b, n, q);
  }

  lemma PartialsNearIff(b: Broker, n: nat, m: nat, targets: seq<real>)
    requires GoodBroker(b) && NonNegative(targets) && Falling(targets) && targets != []
    requires m == StepsAfter(n, InSteps(b, targets))
    ensures Near(b, Lot(b, m), targets[|targets| - 1]) <==> targets[|targets| - 1] <= Lot(b, n) + 0.5 * b.step
  {
    var last := targets[|targets| - 1];
    LastNearIff(b, n, targets);
    DivMul(b, last);
    NearInLots(b, n, m, last / b.step, last);
  }
}
