/** The pure part of the civil-violence agent rules: what an agent sees of its
    neighbours during one step, and every quantity it derives from that view
    (cop and active counts, the cop-to-active ratio, the propaganda increment to
    grievance, the bandwagon influence gain). */
module Rules {

  datatype Option<T> = None | Some(value: T)

  /** A grid coordinate (x, y). */
  datatype Cell = Cell(x: int, y: int)

  /** The propaganda strategy a propaganda agent follows. */
  datatype Strategy = Transfer | Bandwagon | Demonizing

  /** The module-wide multiplier FACTOR of the bandwagon accumulation and of the arrest divisor. */
  const Factor: real := 1.0

  /** Added to the squared distance in the transfer rule so that it never divides by zero. */
  const DistanceFloor: real := 0.0001

  /** The fields of one neighbour that an agent reads during its step. */
  datatype View =
    | CitizenView(active: bool, jailTime: nat, susceptibility: real)
    | CopView
    | PropagandistView(pos: Cell, jailTime: nat, strategy: Strategy, influence: real, visibleToCops: bool)

  predicate IsCop(v: View) { v.CopView? }

  /** A population agent that is active and not in jail. */
  predicate IsActiveCitizen(v: View) { v.CitizenView? && v.active && v.jailTime == 0 }

  /** A population agent that is quiescent and not in jail. */
  predicate IsQuietCitizen(v: View) { v.CitizenView? && !v.active && v.jailTime == 0 }

  /** A propaganda agent that is not in jail. */
  predicate IsFreePropagandist(v: View) { v.PropagandistView? && v.jailTime == 0 }

  /** A propaganda agent that is not in jail and that cops can see. */
  predicate IsExposedPropagandist(v: View) { IsFreePropagandist(v) && v.visibleToCops }

  // ---------------------------------------------------------------------------
  // Counting neighbours

  /** Number of neighbours satisfying p, the length of the matching list comprehension. */
  function Count(vs: seq<View>, p: View -> bool): nat
  {
    if vs == [] then 0
    else Count(vs[..|vs| - 1], p) + (if p(vs[|vs| - 1]) then 1 else 0)
  }

  /** The positions of the neighbours satisfying p. */
  ghost function Matching(vs: seq<View>, p: View -> bool): set<int>
  {
    set i | 0 <= i < |vs| && p(vs[i])
  }

  /** Count is the number of positions whose neighbour satisfies p; it is zero
      exactly when no neighbour does. */
  lemma {:induction false} CountIsCardinality(vs: seq<View>, p: View -> bool)
    ensures Count(vs, p) == |Matching(vs, p)|
    ensures Count(vs, p) <= |vs|
    ensures Count(vs, p) == 0 <==> forall i :: 0 <= i < |vs| ==> !p(vs[i])
  {
    if vs != [] {
      var n := |vs| - 1;
      var init := vs[..n];
      CountIsCardinality(init, p);
      assert forall i :: 0 <= i < n ==> init[i] == vs[i];
      if p(vs[n]) {
        assert Matching(vs, p) == Matching(init, p) + {n};
        assert n !in Matching(init, p);
      } else {
        assert Matching(vs, p) == Matching(init, p);
      }
    }
  }

  /** Counting a concatenation counts each part. */
  lemma {:induction false} CountAppend(a: seq<View>, b: seq<View>, p: View -> bool)
    ensures Count(a + b, p) == Count(a, p) + Count(b, p)
    decreases |b|
  {
    if b != [] {
      var m := |b| - 1;
      assert (a + b)[..|a + b| - 1] == a + b[..m];
      CountAppend(a, b[..m], p);
    } else {
      assert a + b == a;
    }
  }

  /** cops_in_vision: the number of cops among the neighbours. */
  function CopsInVision(vs: seq<View>): (n: nat)
    ensures n <= |vs|
  {
    CountIsCardinality(vs, IsCop);
    Count(vs, IsCop)
  }

  /** No cop is counted exactly when no cop is in view. */
  lemma CopsInVisionZero(vs: seq<View>)
    ensures CopsInVision(vs) == 0 <==> forall i :: 0 <= i < |vs| ==> !vs[i].CopView?
  {
    CountIsCardinality(vs, IsCop);
  }

  /** actives_in_vision: the agent itself plus every active, non-jailed population
      agent among its neighbours; jailed and quiescent ones are not counted. */
  function ActivesInVision(vs: seq<View>): (n: nat)
    ensures 1 <= n <= |vs| + 1
  {
    CountIsCardinality(vs, IsActiveCitizen);
    1 + Count(vs, IsActiveCitizen)
  }

  /** Only the agent itself is counted exactly when no active, non-jailed population agent is in view. */
  lemma ActivesInVisionOne(vs: seq<View>)
    ensures ActivesInVision(vs) == 1 <==> forall i :: 0 <= i < |vs| ==> !IsActiveCitizen(vs[i])
  {
    CountIsCardinality(vs, IsActiveCitizen);
  }

  // ---------------------------------------------------------------------------
  // Cop-to-active ratio

  /** Python's int() on a real: truncation toward zero. */
  function Truncate(q: real): int
  {
    if q >= 0.0 then q.Floor else -((-q).Floor)
  }

  /** Truncating the real quotient of two naturals is integer division. */
  lemma TruncatedQuotient(cops: nat, actives: nat)
    requires actives >= 1
    ensures Truncate(cops as real / actives as real) == cops / actives
  {
    var q, m := cops / actives, cops % actives;
    var a := actives as real;
    assert cops == q * actives + m;
    assert (cops as real) == (q as real) * a + (m as real);
    assert cops as real / a == (q as real) + (m as real) / a;
    assert 0.0 <= (m as real) / a < 1.0;
  }

  /** ratio_c_a = int(cops_in_vision / actives_in_vision); the result is the floor
      of the quotient, so it never exceeds the number of cops. */
  function CopActiveRatio(cops: nat, actives: nat): (r: nat)
    requires actives >= 1
    ensures r * actives <= cops < (r + 1) * actives
    ensures r <= cops
  {
    TruncatedQuotient(cops, actives);
    Truncate(cops as real / actives as real)
  }

  /** net_risk: the perceived cost of rebelling. */
  function NetRisk(riskAversion: real, arrestProbability: real): real
  {
    riskAversion * arrestProbability
  }

  // ---------------------------------------------------------------------------
  // Propaganda effect on a population agent

  function SquaredDistance(a: Cell, b: Cell): (d: real)
    ensures d >= 0.0
  {
    var dx := (a.x - b.x) as real;
    var dy := (a.y - b.y) as real;
    dx * dx + dy * dy
  }

  /** One transfer term: the inverse of the floored squared distance. */
  function TransferTerm(at: Cell, other: Cell): (t: real)
    ensures 0.0 < t <= 1.0 / DistanceFloor
  {
    var d := DistanceFloor + SquaredDistance(at, other);
    assert 1.0 / d <= 1.0 / DistanceFloor by {
      assert d >= DistanceFloor;
      assert d * (1.0 / d) == 1.0;
    }
    1.0 / d
  }

  /** propaganda_in_vision: a transfer term for each non-jailed propaganda agent in view. */
  function TransferTerms(at: Cell, vs: seq<View>): seq<real>
  {
    if vs == [] then []
    else
      var last := vs[|vs| - 1];
      TransferTerms(at, vs[..|vs| - 1]) + (if IsFreePropagandist(last) then [TransferTerm(at, last.pos)] else [])
  }

  /** bandwagon_in_vision: the influence of each non-jailed propaganda agent in view. */
  function Influences(vs: seq<View>): seq<real>
  {
    if vs == [] then []
    else
      var last := vs[|vs| - 1];
      Influences(vs[..|vs| - 1]) + (if IsFreePropagandist(last) then [last.influence] else [])
  }

  /** The strategy left behind by the scan: that of the last non-jailed propaganda agent. */
  function LastStrategy(vs: seq<View>): Option<Strategy>
  {
    if vs == [] then None
    else if IsFreePropagandist(vs[|vs| - 1]) then Some(vs[|vs| - 1].strategy)
    else LastStrategy(vs[..|vs| - 1])
  }

  function Sum(xs: seq<real>): real
  {
    if xs == [] then 0.0 else Sum(xs[..|xs| - 1]) + xs[|xs| - 1]
  }

  function Min(a: real, b: real): real
  {
    if b < a then b else a
  }

  /** Both lists built by the scan have one entry per non-jailed propaganda agent
      in view, and a strategy is found exactly when there is one. */
  lemma {:induction false} ScanLengths(at: Cell, vs: seq<View>)
    ensures |TransferTerms(at, vs)| == Count(vs, IsFreePropagandist)
    ensures |Influences(vs)| == Count(vs, IsFreePropagandist)
    ensures LastStrategy(vs).None? <==> Count(vs, IsFreePropagandist) == 0
  {
    if vs != [] {
      ScanLengths(at, vs[..|vs| - 1]);
    }
  }

  /** The strategy applied is the one of the last non-jailed propaganda agent in the list. */
  lemma {:induction false} LastStrategyIsLastFree(vs: seq<View>, k: nat)
    requires k < |vs| && IsFreePropagandist(vs[k])
    requires forall j :: k < j < |vs| ==> !IsFreePropagandist(vs[j])
    ensures LastStrategy(vs) == Some(vs[k].strategy)
  {
    if k < |vs| - 1 {
      var init := vs[..|vs| - 1];
      assert forall j :: k < j < |init| ==> init[j] == vs[j];
      LastStrategyIsLastFree(init, k);
    }
  }

  /** The transfer rule: susceptibility times the squared summed closeness times
      propaganda_factor, capped at 1. */
  function TransferRule(closeness: real, susceptibility: real, factor: real): real
  {
    Min(1.0, susceptibility * (closeness * closeness) * factor)
  }

  /** The bandwagon rule: propaganda_factor times susceptibility times the total influence. */
  function BandwagonRule(totalInfluence: real, susceptibility: real, factor: real): real
  {
    factor * (susceptibility * totalInfluence)
  }

  /** The demonizing rule: susceptibility times propaganda_factor when a cop is in view. */
  function DemonizingRule(cops: nat, susceptibility: real, factor: real): real
  {
    susceptibility * (if cops > 0 then 1.0 else 0.0) * factor
  }

  /** The grievance increment of cal_propaganda_effect, given the neighbours, the
      agent's position, susceptibility, propaganda factor and cops_in_vision. */
  function GrievanceIncrement(vs: seq<View>, at: Cell, susceptibility: real, factor: real, cops: nat): real
  {
    var terms := TransferTerms(at, vs);
    if terms == [] then 0.0
    else
      match LastStrategy(vs)
      case Some(Transfer) => TransferRule(Sum(terms), susceptibility, factor)
      case Some(Bandwagon) => BandwagonRule(Sum(Influences(vs)), susceptibility, factor)
      case Some(Demonizing) => DemonizingRule(cops, susceptibility, factor)
      case None => 0.0
  }

  /** With no non-jailed propaganda agent in view, grievance does not change. */
  lemma NoPropagandaNoIncrement(vs: seq<View>, at: Cell, susceptibility: real, factor: real, cops: nat)
    requires forall i :: 0 <= i < |vs| ==> !IsFreePropagandist(vs[i])
    ensures GrievanceIncrement(vs, at, susceptibility, factor, cops) == 0.0
  {
    CountIsCardinality(vs, IsFreePropagandist);
    ScanLengths(at, vs);
  }

  /** Transfer adds at most 1, and nothing negative for a non-negative
      susceptibility and factor. */
  lemma TransferIncrementBounded(vs: seq<View>, at: Cell, susceptibility: real, factor: real, cops: nat)
    requires LastStrategy(vs) == Some(Transfer)
    ensures GrievanceIncrement(vs, at, susceptibility, factor, cops) <= 1.0
    ensures susceptibility >= 0.0 && factor >= 0.0 ==> GrievanceIncrement(vs, at, susceptibility, factor, cops) >= 0.0
  {
    ScanLengths(at, vs);
    var s := Sum(TransferTerms(at, vs));
    assert s * s >= 0.0;
    if susceptibility >= 0.0 && factor >= 0.0 {
      assert susceptibility * (s * s) >= 0.0;
      assert susceptibility * (s * s) * factor >= 0.0;
    }
  }

  /** Bandwagon adds propaganda_factor times susceptibility times the total influence in view. */
  lemma BandwagonIncrement(vs: seq<View>, at: Cell, susceptibility: real, factor: real, cops: nat)
    requires LastStrategy(vs) == Some(Bandwagon)
    ensures GrievanceIncrement(vs, at, susceptibility, factor, cops) == factor * susceptibility * Sum(Influences(vs))
  {
    ScanLengths(at, vs);
  }

  /** Demonizing adds susceptibility times propaganda_factor when a cop is in view, else nothing. */
  lemma DemonizingIncrement(vs: seq<View>, at: Cell, susceptibility: real, factor: real, cops: nat)
    requires LastStrategy(vs) == Some(Demonizing)
    ensures GrievanceIncrement(vs, at, susceptibility, factor, cops) == if cops > 0 then susceptibility * factor else 0.0
  {
    ScanLengths(at, vs);
  }

  // ---------------------------------------------------------------------------
  // Bandwagon accumulation by a propaganda agent

  function QuietCount(vs: seq<View>): nat
  {
    Count(vs, IsQuietCitizen)
  }

  /** Sum of the susceptibility of the quiescent, non-jailed population agents in view. */
  function QuietSusceptibility(vs: seq<View>): real
  {
    if vs == [] then 0.0
    else
      var last := vs[|vs| - 1];
      QuietSusceptibility(vs[..|vs| - 1]) + (if IsQuietCitizen(last) then last.susceptibility else 0.0)
  }

  /** One quiescent neighbour's share of a bandwagon agent's influence, among n. */
  function Share(influence: real, susceptibility: real, n: nat): real
    requires n >= 1
  {
    Factor * influence * susceptibility / n as real
  }

  /** What the bandwagon loop adds to total_influence: for each quiescent,
      non-jailed population agent in view, FACTOR * influence * susceptibility / n. */
  function BandwagonGain(vs: seq<View>, influence: real, n: nat): real
    requires n >= 1 || QuietCount(vs) == 0
  {
    if vs == [] then 0.0
    else
      var last := vs[|vs| - 1];
      BandwagonGain(vs[..|vs| - 1], influence, n)
        + (if IsQuietCitizen(last) then Share(influence, last.susceptibility, n) else 0.0)
  }

  /** The gain over a prefix one element longer, shared among all quiescent agents of vs. */
  lemma GainPrefix(vs: seq<View>, k: nat, influence: real)
    requires 0 < k <= |vs|
    ensures QuietCount(vs[..k - 1]) <= QuietCount(vs[..k]) <= QuietCount(vs)
    ensures BandwagonGain(vs[..k], influence, QuietCount(vs)) ==
      BandwagonGain(vs[..k - 1], influence, QuietCount(vs))
        + (if IsQuietCitizen(vs[k - 1]) then Share(influence, vs[k - 1].susceptibility, QuietCount(vs)) else 0.0)
  {
    assert vs[..k][..k - 1] == vs[..k - 1];
    assert vs == vs[..k] + vs[k..];
    CountAppend(vs[..k], vs[k..], IsQuietCitizen);
  }

  /** Shares over the same number of agents add up. */
  lemma ShareAdd(influence: real, a: real, b: real, n: nat)
    requires n >= 1
    ensures Share(influence, a, n) + Share(influence, b, n) == Share(influence, a + b, n)
  {
    var k := Factor * influence;
    var d := n as real;
    assert k * a + k * b == k * (a + b);
    assert k * a / d + k * b / d == (k * a + k * b) / d;
  }

  /** The gain is one share of the total susceptibility of the quiescent neighbours. */
  lemma {:induction false} BandwagonGainClosedForm(vs: seq<View>, influence: real, n: nat)
    requires n >= 1
    ensures BandwagonGain(vs, influence, n) == Share(influence, QuietSusceptibility(vs), n)
  {
    if vs != [] {
      var init := vs[..|vs| - 1];
      var last := vs[|vs| - 1];
      BandwagonGainClosedForm(init, influence, n);
      var s := if IsQuietCitizen(last) then last.susceptibility else 0.0;
      ShareAdd(influence, QuietSusceptibility(init), s, n);
      assert Share(influence, 0.0, n) == 0.0;
    }
  }

  /** With no quiescent, non-jailed population agent in view nothing is added
      (and there is no division by zero). */
  lemma {:induction false} NoQuietNoGain(vs: seq<View>, influence: real)
    requires QuietCount(vs) == 0
    ensures BandwagonGain(vs, influence, 0) == 0.0
  {
    if vs != [] {
      NoQuietNoGain(vs[..|vs| - 1], influence);
    }
  }

  /** The gain actually accumulated in one step, with n the number of quiescent
      neighbours: influence times their total susceptibility divided by their number. */
  lemma StepGain(vs: seq<View>, influence: real)
    ensures QuietCount(vs) == 0 ==> BandwagonGain(vs, influence, QuietCount(vs)) == 0.0
    ensures QuietCount(vs) > 0 ==>
      BandwagonGain(vs, influence, QuietCount(vs)) == influence * QuietSusceptibility(vs) / QuietCount(vs) as real
  {
    if QuietCount(vs) == 0 {
      NoQuietNoGain(vs, influence);
    } else {
      BandwagonGainClosedForm(vs, influence, QuietCount(vs));
    }
  }

  /** Two quiescent neighbours of susceptibility 1 and an influence of 1 add exactly 1
      in one step. */
  lemma BandwagonExposureExample()
    ensures var vs := [CitizenView(false, 0, 1.0), CitizenView(false, 0, 1.0)];
            BandwagonGain(vs, 1.0, QuietCount(vs)) == 1.0
  {
    var vs := [CitizenView(false, 0, 1.0), CitizenView(false, 0, 1.0)];
    assert vs[..1] == [CitizenView(false, 0, 1.0)];
    assert vs[..1][..0] == [];
    assert Count(vs[..1][..0], IsQuietCitizen) == 0;
    assert Count(vs[..1], IsQuietCitizen) == 1;
    assert QuietCount(vs) == 2;
  }
}
