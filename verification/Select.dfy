/** Picks one provider for a request under a routing preference. */
module Select {
  import opened Basics
  import opened Lexical
  import opened ShareTracker

  datatype Measurements = Measurements(throughput: real, latency: real)

  datatype Candidate = Candidate(
    id: string, price: real, priority: nat, measurements: Option<Measurements>, healthy: bool)

  datatype Preference = Default | Balanced | Price | Throughput | Latency

  datatype Policy = Policy(ceiling: real, hysteresis: real, maxShare: real)

  predicate ValidPolicy(policy: Policy) {
    policy.ceiling >= 0.0 && policy.hysteresis >= 0.0 && 0.0 < policy.maxShare <= 1.0
  }

  /** Prices and measurements are never negative. */
  predicate ValidCandidate(c: Candidate) {
    c.price >= 0.0
    && (c.measurements.Some? ==> c.measurements.value.throughput >= 0.0 && c.measurements.value.latency >= 0.0)
  }

  predicate AllValid(candidates: seq<Candidate>) {
    forall i :: 0 <= i < |candidates| ==> ValidCandidate(candidates[i])
  }

  /** A random draw, as a fraction of the total weight. */
  type Draw = u: real | 0.0 <= u < 1.0 witness 0.0

  // ------------------------------------------------------------ comparators

  datatype Order = Less | Equal | Greater

  function CompareReals(a: real, b: real): Order {
    if a < b then Less else if a > b then Greater else Equal
  }

  function Then(first: Order, second: Order): Order {
    if first.Equal? then second else first
  }

  function ComparePriority(left: Candidate, right: Candidate): Order {
    Then(CompareReals(left.priority as real, right.priority as real),
         if left.id == right.id then Equal else if Before(left.id, right.id) then Less else Greater)
  }

  function ComparePrice(left: Candidate, right: Candidate): Order {
    Then(CompareReals(left.price, right.price), ComparePriority(left, right))
  }

  /** Greater is better, so ties run against priority. */
  function CompareThroughput(left: Candidate, right: Candidate): Order {
    var speed := match (left.measurements, right.measurements)
      case (Some(l), Some(r)) => CompareReals(l.throughput, r.throughput)
      case (Some(_), None) => Greater
      case (None, Some(_)) => Less
      case (None, None) => Equal;
    Then(speed, ComparePriority(right, left))
  }

  function CompareLatency(left: Candidate, right: Candidate): Order {
    var delay := match (left.measurements, right.measurements)
      case (Some(l), Some(r)) => CompareReals(l.latency, r.latency)
      case (Some(_), None) => Less
      case (None, Some(_)) => Greater
      case (None, None) => Equal;
    Then(delay, ComparePriority(left, right))
  }

  type Comparator = (Candidate, Candidate) -> Order

  /** The first minimum, as an iterator finds it. */
  function MinBy(candidates: seq<Candidate>, compare: Comparator): (best: Candidate)
    requires candidates != []
    ensures best in candidates
  {
    if |candidates| == 1 then candidates[0]
    else
      var front := candidates[..|candidates| - 1];
      var last := candidates[|candidates| - 1];
      var best := MinBy(front, compare);
      assert best in candidates by { assert candidates == front + [last]; }
      if compare(best, last).Greater? then last else best
  }

  /** The last maximum, as an iterator finds it. */
  function MaxBy(candidates: seq<Candidate>, compare: Comparator): (best: Candidate)
    requires candidates != []
    ensures best in candidates
  {
    if |candidates| == 1 then candidates[0]
    else
      var front := candidates[..|candidates| - 1];
      var last := candidates[|candidates| - 1];
      var best := MaxBy(front, compare);
      assert best in candidates by { assert candidates == front + [last]; }
      if compare(best, last).Greater? then best else last
  }

  function Least(candidates: seq<Candidate>, compare: Comparator): (c: Option<Candidate>)
    ensures c.Some? ==> c.value in candidates
  {
    if candidates == [] then None else Some(MinBy(candidates, compare))
  }

  function Greatest(candidates: seq<Candidate>, compare: Comparator): (c: Option<Candidate>)
    ensures c.Some? ==> c.value in candidates
  {
    if candidates == [] then None else Some(MaxBy(candidates, compare))
  }

  // ---------------------------------------------------------- weighted pick

  function Sum(weights: seq<real>): real {
    if weights == [] then 0.0 else weights[0] + Sum(weights[1..])
  }

  function MaxWeight(weights: seq<real>): (max: real)
    ensures max >= 0.0 && forall w <- weights :: w <= max
    ensures max == 0.0 || max in weights
  {
    if weights == [] then 0.0
    else
      var rest := MaxWeight(weights[1..]);
      assert weights == [weights[0]] + weights[1..];
      if weights[0] > rest then weights[0] else rest
  }

  /** The number of leading cumulative sums that do not exceed the target. */
  function PickIndex(weights: seq<real>, target: real): (i: nat)
    requires weights != []
    ensures i < |weights|
  {
    if |weights| == 1 || weights[0] > target then 0 else 1 + PickIndex(weights[1..], target - weights[0])
  }

  function Ratio(a: real, b: real): real
    requires b != 0.0
  {
    a / b
  }

  function Normalize(weights: seq<real>, max: real): (normalized: seq<real>)
    requires max > 0.0
    ensures |normalized| == |weights|
    ensures forall i :: 0 <= i < |weights| ==> normalized[i] == Ratio(weights[i], max)
  {
    if weights == [] then [] else [Ratio(weights[0], max)] + Normalize(weights[1..], max)
  }

  /** The draw scaled to the total weight. */
  function Target(u: Draw, total: real): real {
    u * total
  }

  function WeightedPick(candidates: seq<Candidate>, weights: seq<real>, u: Draw): (picked: Option<Candidate>)
    requires |candidates| == |weights|
    ensures picked.Some? ==> picked.value in candidates
  {
    var max := MaxWeight(weights);
    if max <= 0.0 || weights == [] then None
    else
      var normalized := Normalize(weights, max);
      if exists i :: 0 <= i < |normalized| && normalized[i] < 0.0 then None
      else Some(candidates[PickIndex(normalized, Target(u, Sum(normalized)))])
  }

  // --------------------------------------------------------------- selection

  function Filter(candidates: seq<Candidate>, keep: Candidate -> bool): (kept: seq<Candidate>)
    ensures forall c :: c in kept <==> c in candidates && keep(c)
    ensures |kept| <= |candidates|
  {
    if candidates == [] then []
    else
      assert candidates == [candidates[0]] + candidates[1..];
      (if keep(candidates[0]) then [candidates[0]] else []) + Filter(candidates[1..], keep)
  }

  function Healthy(candidates: seq<Candidate>): seq<Candidate> {
    Filter(candidates, (c: Candidate) => c.healthy)
  }

  /** Positive measured throughput. */
  function Speed(c: Candidate): Option<real> {
    if c.measurements.Some? && c.measurements.value.throughput > 0.0
    then Some(c.measurements.value.throughput) else None
  }

  function FindById(candidates: seq<Candidate>, id: string): (found: Option<Candidate>)
    ensures found.Some? ==> found.value in candidates && found.value.id == id
    ensures found.None? ==> forall c <- candidates :: c.id != id
  {
    if candidates == [] then None
    else
      assert candidates == [candidates[0]] + candidates[1..];
      if candidates[0].id == id then Some(candidates[0]) else FindById(candidates[1..], id)
  }

  /** A challenger within the hysteresis band of the incumbent is weighed like the incumbent. */
  function Weight(c: Candidate, incumbent: Option<Candidate>, hysteresis: real): real {
    match (Speed(c), incumbent)
    case (None, _) => 0.0
    case (Some(speed), None) => speed
    case (Some(speed), Some(holder)) =>
      match Speed(holder)
      case None => speed
      case Some(held) =>
        if holder.id != c.id && speed > held && speed <= held + held * hysteresis then held else speed
  }

  function Weights(candidates: seq<Candidate>, incumbent: Option<Candidate>, hysteresis: real): (weights: seq<real>)
    ensures |weights| == |candidates|
    ensures forall i :: 0 <= i < |candidates| ==> weights[i] == Weight(candidates[i], incumbent, hysteresis)
  {
    if candidates == [] then []
    else [Weight(candidates[0], incumbent, hysteresis)] + Weights(candidates[1..], incumbent, hysteresis)
  }

  predicate IsEligible(c: Candidate, policy: Policy, window: Window) {
    c.healthy && c.price <= policy.ceiling && AllowsNext(window, c.id, policy.maxShare)
  }

  function SelectDefault(candidates: seq<Candidate>, policy: Policy, window: Window, u: Draw): (c: Option<Candidate>)
    ensures c.Some? ==> c.value in candidates
  {
    var eligible := Filter(candidates, (c: Candidate) => IsEligible(c, policy, window));
    var holder := Incumbent(window);
    var incumbent := if holder.Some? then FindById(eligible, holder.value) else None;
    var picked := WeightedPick(eligible, Weights(eligible, incumbent, policy.hysteresis), u);
    if picked.Some? then picked
    else Least(eligible, ComparePriority)
  }

  function Cheapest(candidates: seq<Candidate>): (price: real)
    requires candidates != []
    ensures exists c <- candidates :: c.price == price
    ensures forall c <- candidates :: price <= c.price
  {
    assert candidates == [candidates[0]] + candidates[1..];
    if |candidates| == 1 then candidates[0].price
    else
      var rest := Cheapest(candidates[1..]);
      if candidates[0].price < rest then candidates[0].price else rest
  }

  function InverseSquare(cheapest: real, price: real): real
    requires price != 0.0
  {
    Ratio(cheapest, price) * Ratio(cheapest, price)
  }

  function InverseSquares(candidates: seq<Candidate>, cheapest: real): (weights: seq<real>)
    requires forall c <- candidates :: c.price != 0.0
    ensures |weights| == |candidates|
    ensures forall i :: 0 <= i < |candidates| ==> weights[i] == InverseSquare(cheapest, candidates[i].price)
  {
    if candidates == [] then []
    else [InverseSquare(cheapest, candidates[0].price)] + InverseSquares(candidates[1..], cheapest)
  }

  function SelectBalanced(candidates: seq<Candidate>, u: Draw): (c: Option<Candidate>)
    ensures c.Some? ==> c.value in candidates
  {
    var healthy := Healthy(candidates);
    var free := Filter(healthy, (c: Candidate) => c.price == 0.0);
    if free != [] then WeightedPick(free, seq(|free|, _ => 1.0), u)
    else if healthy == [] then None
    else WeightedPick(healthy, InverseSquares(healthy, Cheapest(healthy)), u)
  }

  function SelectRoute(candidates: seq<Candidate>, preference: Preference, policy: Policy, window: Window, u: Draw)
    : (c: Option<Candidate>)
    ensures c.Some? ==> c.value in candidates
  {
    match preference
    case Default => SelectDefault(candidates, policy, window, u)
    case Balanced => SelectBalanced(candidates, u)
    case Price => Least(Healthy(candidates), ComparePrice)
    case Throughput => Greatest(Healthy(candidates), CompareThroughput)
    case Latency => Least(Healthy(candidates), CompareLatency)
  }
}
