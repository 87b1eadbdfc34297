/** The three agent classes of the civil-violence model and the world they share.
    Each agent's step reads its neighbourhood (the contents of the cells it can
    see and the empty cells among them, both supplied by the grid) and updates
    its own fields in place; a cop's step also jails one of its neighbours. */
module Agents {
  import opened Rules

  /** The settings an agent reads from its model while stepping. */
  datatype ModelParams = ModelParams(movement: bool, maxJailTerm: int)

  /** A population agent: it can become active and be jailed. */
  class Citizen {
    var pos: Cell
    const hardship: real
    const legitimacy: real
    var grievance: real
    var netRisk: real
    var active: bool
    const riskAversion: real
    const threshold: real
    const vision: nat
    var jailTime: nat
    var arrestProbability: Option<real>
    const susceptibility: real
    const propagandaFactor: real
    // what the last non-jailed step saw
    var copsInVision: nat
    var activesInVision: nat
    var ratioCopsActives: nat

    constructor (pos: Cell, hardship: real, legitimacy: real, riskAversion: real, threshold: real,
                 susceptibility: real, propagandaFactor: real, vision: nat)
      ensures this.pos == pos && this.hardship == hardship && this.legitimacy == legitimacy
      ensures this.riskAversion == riskAversion && this.threshold == threshold && this.vision == vision
      ensures this.susceptibility == susceptibility && this.propagandaFactor == propagandaFactor
      ensures grievance == hardship * (1.0 - legitimacy)
      ensures netRisk == 0.0 && !active && jailTime == 0 && arrestProbability == None
    {
      this.pos := pos;
      this.hardship := hardship;
      this.legitimacy := legitimacy;
      grievance := hardship * (1.0 - legitimacy);
      netRisk := 0.0;
      active := false;
      this.riskAversion := riskAversion;
      this.threshold := threshold;
      this.vision := vision;
      jailTime := 0;
      arrestProbability := None;
      this.susceptibility := susceptibility;
      this.propagandaFactor := propagandaFactor;
    }

    /** cal_propaganda_effect: scan the neighbours for non-jailed propaganda agents,
        then raise grievance by the rule of the strategy found last. The cop count
        the source reads from the attribute step has just set is passed in. */
    method CalPropagandaEffect(ns: seq<Occupant>, cops: nat)
      modifies this`grievance
      ensures grievance == old(grievance) + GrievanceIncrement(old(Snapshot(ns)), pos, susceptibility, propagandaFactor, cops)
    {
      ghost var vs := Snapshot(ns);
      var terms: seq<real> := [];
      var influences: seq<real> := [];
      var strategy: Option<Strategy> := None;
      var i := 0;
      while i < |ns|
        invariant 0 <= i <= |ns|
        invariant terms == TransferTerms(pos, vs[..i])
        invariant influences == Influences(vs[..i])
        invariant strategy == LastStrategy(vs[..i])
      {
        assert vs[..i + 1][..i] == vs[..i];
        var a := ns[i];
        if a.AsPropagandist? && a.propagandist.jailTime == 0 {
          assert IsFreePropagandist(vs[i]) && vs[i].pos == a.propagandist.pos;
          strategy := Some(a.propagandist.strategy);
          terms := terms + [TransferTerm(pos, a.propagandist.pos)];
          influences := influences + [a.propagandist.influence];
        } else {
          assert !IsFreePropagandist(vs[i]);
        }
        i := i + 1;
      }
      assert vs[..i] == vs;
      if terms != [] {
        match strategy {
          case Some(Transfer) =>
            grievance := grievance + TransferRule(Sum(terms), susceptibility, propagandaFactor);
          case Some(Bandwagon) =>
            grievance := grievance + BandwagonRule(Sum(influences), susceptibility, propagandaFactor);
          case Some(Demonizing) =>
            grievance := grievance + DemonizingRule(cops, susceptibility, propagandaFactor);
          case None =>
        }
      }
    }

    /** A jailed agent serves one step of its term and is quiescent on release. */
    method ServeJailTime()
      requires jailTime > 0
      modifies this`jailTime, this`active
      ensures jailTime == old(jailTime) - 1
      ensures active == (old(active) && jailTime > 0)
    {
      jailTime := jailTime - 1;
      if jailTime == 0 {
        active := false;
      }
    }

    /** The arrest estimate of a free step: the cops and the active, non-jailed
        population agents in view (the agent counting itself as active), their
        truncated ratio, and the arrest probability the curve gives for it. */
    method EstimateArrestProbability(vs: seq<View>, arrestCurve: nat -> real)
      modifies this`copsInVision, this`activesInVision, this`ratioCopsActives, this`arrestProbability
      ensures copsInVision == CopsInVision(vs) && activesInVision == ActivesInVision(vs)
      ensures ratioCopsActives == CopActiveRatio(copsInVision, activesInVision)
      ensures arrestProbability == Some(arrestCurve(ratioCopsActives))
    {
      copsInVision := CopsInVision(vs);
      activesInVision := ActivesInVision(vs);
      ratioCopsActives := CopActiveRatio(copsInVision, activesInVision);
      arrestProbability := Some(arrestCurve(ratioCopsActives));
    }

    /** Rule A: the net risk is risk aversion times the arrest probability, and the
        agent is active afterwards exactly when grievance minus net risk exceeds
        its threshold. */
    method Activate(probability: real)
      modifies this`netRisk, this`active
      ensures netRisk == NetRisk(riskAversion, probability)
      ensures active == (grievance - netRisk > threshold)
    {
      netRisk := NetRisk(riskAversion, probability);
      var threshBool := grievance - netRisk > threshold;
      if !active && threshBool {
        active := true;
      } else if active && !threshBool {
        active := false;
      }
    }

    /** Rule M: with movement on, move to one of the empty cells in view, if any. */
    method Move(emptyCells: seq<Cell>, params: ModelParams)
      modifies this`pos
      ensures if params.movement && emptyCells != [] then pos in emptyCells else pos == old(pos)
    {
      if params.movement && emptyCells != [] {
        var k :| 0 <= k < |emptyCells|;
        pos := emptyCells[k];
      }
    }

    /** One step of a population agent. A jailed agent only serves one step of its
        term and is quiescent on release. A free agent counts the cops and the
        active peers it sees, applies propaganda to its grievance, goes active
        exactly when grievance minus net risk exceeds its threshold, and may move
        to an empty cell it sees. arrestCurve gives 1 - exp(-k * ratio) for the
        model's arrest constant k. */
    method Step(ns: seq<Occupant>, emptyCells: seq<Cell>, params: ModelParams, arrestCurve: nat -> real)
      modifies this
      ensures old(jailTime) > 0 ==>
        jailTime == old(jailTime) - 1 &&
        active == (old(active) && jailTime > 0) &&
        grievance == old(grievance) && netRisk == old(netRisk) && pos == old(pos) &&
        arrestProbability == old(arrestProbability) && copsInVision == old(copsInVision) &&
        activesInVision == old(activesInVision) && ratioCopsActives == old(ratioCopsActives)
      ensures old(jailTime) == 0 ==>
        var vs := old(Snapshot(ns));
        jailTime == 0 &&
        copsInVision == CopsInVision(vs) &&
        activesInVision == ActivesInVision(vs) &&
        ratioCopsActives == CopActiveRatio(copsInVision, activesInVision) &&
        arrestProbability == Some(arrestCurve(ratioCopsActives)) &&
        grievance == old(grievance) + GrievanceIncrement(vs, old(pos), susceptibility, propagandaFactor, copsInVision) &&
        netRisk == NetRisk(riskAversion, arrestCurve(ratioCopsActives)) &&
        active == (grievance - netRisk > threshold) &&
        (if params.movement && emptyCells != [] then pos in emptyCells else pos == old(pos))
    {
      if jailTime > 0 {
        ServeJailTime();
        return;
      }
      var vs := Snapshot(ns);
      CalPropagandaEffect(ns, CopsInVision(vs));
      EstimateArrestProbability(vs, arrestCurve);
      Activate(arrestCurve(ratioCopsActives));
      Move(emptyCells, params);
    }
  }

  /** What a cop's step did. */
  datatype CopAction =
    | Arrested(target: Occupant, term: nat)
    | Moved(to: Cell)
    | Stayed
      /** the jail term was drawn from the empty range [1, max_jail_term] */
    | JailTermRangeError

  /** A cop: it arrests exposed propaganda agents first, then active population agents. */
  class Cop {
    var pos: Cell
    const vision: nat

    constructor (pos: Cell, vision: nat)
      ensures this.pos == pos && this.vision == vision
    {
      this.pos := pos;
      this.vision := vision;
    }

    /** Split the neighbours into active, non-jailed population agents and exposed,
        non-jailed propaganda agents, each in neighbourhood order. */
    method Partition(ns: seq<Occupant>) returns (actives: seq<Occupant>, propagandas: seq<Occupant>)
      ensures actives == Select(ns, IsActiveCitizen)
      ensures propagandas == Select(ns, IsExposedPropagandist)
    {
      actives, propagandas := [], [];
      var i := 0;
      while i < |ns|
        invariant 0 <= i <= |ns|
        invariant actives == Select(ns[..i], IsActiveCitizen)
        invariant propagandas == Select(ns[..i], IsExposedPropagandist)
      {
        assert ns[..i + 1][..i] == ns[..i];
        var a := ns[i];
        match a {
          case AsCitizen(c) =>
            if c.active && c.jailTime == 0 {
              actives := actives + [a];
            }
          case AsPropagandist(p) =>
            if p.visibleToCops && p.jailTime == 0 {
              propagandas := propagandas + [a];
            }
          case AsCop(_) =>
        }
        i := i + 1;
      }
      assert ns[..i] == ns;
    }

    /** jail_agent: pick one of the agents, sentence it to a term drawn from
        [1, max_jail_term], divide a propaganda agent's total influence by that
        term, and step onto its cell when movement is on. */
    method JailAgent(agents: seq<Occupant>, params: ModelParams) returns (action: CopAction)
      requires agents != []
      requires forall a :: a in agents ==> !a.AsCop?
      modifies this, Objects(agents)
      ensures action.Arrested? || action.JailTermRangeError?
      ensures action.JailTermRangeError? <==> params.maxJailTerm < 1
      ensures action.JailTermRangeError? ==> unchanged(this) && unchanged(Objects(agents))
      ensures action.Arrested? ==>
        var t := action.target;
        t in agents && !t.AsCop? && 1 <= action.term <= params.maxJailTerm &&
        t.Seen() == old(t.Seen()).(jailTime := action.term) &&
        (t.AsPropagandist? ==>
          t.propagandist.totalInfluence == old(t.propagandist.totalInfluence) / (action.term as real * Factor)) &&
        (t.AsCitizen? ==>
          var c := t.citizen;
          c.pos == old(c.pos) && c.grievance == old(c.grievance) && c.netRisk == old(c.netRisk) &&
          c.arrestProbability == old(c.arrestProbability) && c.copsInVision == old(c.copsInVision) &&
          c.activesInVision == old(c.activesInVision) && c.ratioCopsActives == old(c.ratioCopsActives)) &&
        unchanged(Objects(agents) - {t.Obj(), this}) &&
        pos == (if params.movement then old(t.Pos()) else old(pos))
    {
      var k :| 0 <= k < |agents|;
      var jailed := agents[k];
      assert jailed.Obj() in Objects(agents);
      if params.maxJailTerm < 1 {
        return JailTermRangeError;
      }
      var term :| 1 <= term <= params.maxJailTerm;
      match jailed {
        case AsCitizen(c) =>
          c.jailTime := term;
        case AsPropagandist(p) =>
          p.jailTime := term;
          p.totalInfluence := p.totalInfluence / (term as real * Factor);
      }
      if params.movement {
        pos := jailed.Pos();
      }
      action := Arrested(jailed, term);
    }

    /** One step of a cop: arrest from the exposed propaganda agents if there are
        any, else from the active population agents, else maybe move. */
    method Step(ns: seq<Occupant>, emptyCells: seq<Cell>, params: ModelParams) returns (action: CopAction)
      modifies this, Objects(ns)
      ensures action.Arrested? || action.JailTermRangeError? <==> old(ArrestPool(ns)) != []
      ensures action.JailTermRangeError? ==> unchanged(this) && unchanged(Objects(ns))
      ensures action.Arrested? ==>
        var t := action.target;
        t in ns && !t.AsCop? && t in old(ArrestPool(ns)) && 1 <= action.term <= params.maxJailTerm &&
        t.Seen() == old(t.Seen()).(jailTime := action.term) &&
        (t.AsPropagandist? ==>
          t.propagandist.totalInfluence == old(t.propagandist.totalInfluence) / (action.term as real * Factor)) &&
        (t.AsCitizen? ==>
          var c := t.citizen;
          c.pos == old(c.pos) && c.grievance == old(c.grievance) && c.netRisk == old(c.netRisk) &&
          c.arrestProbability == old(c.arrestProbability) && c.copsInVision == old(c.copsInVision) &&
          c.activesInVision == old(c.activesInVision) && c.ratioCopsActives == old(c.ratioCopsActives)) &&
        unchanged(Objects(ns) - {t.Obj(), this}) &&
        pos == (if params.movement then old(t.Pos()) else old(pos))
      ensures action.Moved? ==>
        params.movement && emptyCells != [] && action.to in emptyCells && pos == action.to &&
        unchanged(Objects(ns) - {this})
      ensures action.Stayed? ==> unchanged(this) && unchanged(Objects(ns))
      ensures old(ArrestPool(ns)) == [] && params.movement && emptyCells != [] ==> action.Moved?
    {
      ghost var pool := ArrestPool(ns);
      assert forall a :: a in ns ==> old(allocated(a.Obj()));
      var actives, propagandas := Partition(ns);
      assert pool == if propagandas != [] then propagandas else actives;
      SelectSound(ns, IsActiveCitizen);
      SelectSound(ns, IsExposedPropagandist);
      if propagandas != [] {
        action := JailAgent(propagandas, params);
      } else if actives != [] {
        action := JailAgent(actives, params);
      } else if params.movement && emptyCells != [] {
        var k :| 0 <= k < |emptyCells|;
        pos := emptyCells[k];
        action := Moved(pos);
      } else {
        action := Stayed;
      }
    }
  }

  /** An agent that spreads propaganda. */
  class Propagandist {
    var pos: Cell
    const influence: real
    var totalInfluence: real
    const strategy: Strategy
    const exposureThreshold: real
    var visibleToCops: bool
    var jailTime: nat
    const vision: nat

    constructor (pos: Cell, strategy: Strategy, influence: real, exposureThreshold: real, vision: nat)
      ensures this.pos == pos && this.strategy == strategy && this.influence == influence
      ensures this.exposureThreshold == exposureThreshold && this.vision == vision
      ensures totalInfluence == 0.0 && !visibleToCops && jailTime == 0
    {
      this.pos := pos;
      this.influence := influence;
      totalInfluence := 0.0;
      this.strategy := strategy;
      this.exposureThreshold := exposureThreshold;
      visibleToCops := false;
      jailTime := 0;
      this.vision := vision;
    }

    /** The bandwagon pass of a step: count the quiescent, non-jailed population
        agents in view, then add to the total influence, for each of them, this
        agent's influence times that agent's susceptibility divided by the count. */
    method SpreadInfluence(ns: seq<Occupant>)
      modifies this`totalInfluence
      ensures totalInfluence == old(totalInfluence) + BandwagonGain(old(Snapshot(ns)), influence, QuietCount(old(Snapshot(ns))))
    {
      ghost var vs := Snapshot(ns);
      var quiets := Select(ns, IsQuietCitizen);
      SelectLength(ns, IsQuietCitizen);
      var n := |quiets|;
      var i := 0;
      while i < |ns|
        invariant 0 <= i <= |ns|
        invariant n == QuietCount(vs) && QuietCount(vs[..i]) <= n
        invariant totalInfluence == old(totalInfluence) + BandwagonGain(vs[..i], influence, n)
      {
        assert vs[..i + 1][..i] == vs[..i];
        GainPrefix(vs, i + 1, influence);
        var a := ns[i];
        if a.AsCitizen? && a.citizen.jailTime == 0 && !a.citizen.active {
          assert IsQuietCitizen(vs[i]) && vs[i].susceptibility == a.citizen.susceptibility;
          totalInfluence := totalInfluence + Share(influence, a.citizen.susceptibility, n);
        } else {
          assert !IsQuietCitizen(vs[i]);
        }
        assert totalInfluence == old(totalInfluence) + BandwagonGain(vs[..i + 1], influence, n);
        i := i + 1;
      }
      assert vs[..i] == vs;
    }

    /** One step of a propaganda agent. A jailed agent only serves one step of its
        term and is hidden from cops on release. A free bandwagon agent adds, for
        each quiescent, non-jailed population agent it sees, its influence times
        that agent's susceptibility divided by their number, and becomes visible to cops exactly when its total influence exceeds
        its exposure threshold; then it may move to an empty cell it sees. */
    method Step(ns: seq<Occupant>, emptyCells: seq<Cell>, params: ModelParams)
      modifies this
      ensures old(jailTime) > 0 ==>
        jailTime == old(jailTime) - 1 &&
        visibleToCops == (old(visibleToCops) && jailTime > 0) &&
        totalInfluence == old(totalInfluence) && pos == old(pos)
      ensures old(jailTime) == 0 && strategy == Bandwagon ==>
        jailTime == 0 &&
        totalInfluence == old(totalInfluence) + BandwagonGain(old(Snapshot(ns)), influence, QuietCount(old(Snapshot(ns)))) &&
        visibleToCops == (totalInfluence > exposureThreshold)
      ensures old(jailTime) == 0 && strategy != Bandwagon ==>
        jailTime == 0 && totalInfluence == old(totalInfluence) && visibleToCops == old(visibleToCops)
      ensures old(jailTime) == 0 ==>
        if params.movement && emptyCells != [] then pos in emptyCells else pos == old(pos)
    {
      if jailTime > 0 {
        jailTime := jailTime - 1;
        if jailTime == 0 {
          visibleToCops := false;
        }
        return;
      }
      if strategy == Bandwagon {
        SpreadInfluence(ns);
        if totalInfluence > exposureThreshold {
          visibleToCops := true;
        } else {
          visibleToCops := false;
        }
      }
      if params.movement && emptyCells != [] {
        var k :| 0 <= k < |emptyCells|;
        pos := emptyCells[k];
      }
    }
  }

  /** One occupant of a neighbourhood cell, as the grid returns it. */
  datatype Occupant = AsCitizen(citizen: Citizen) | AsCop(cop: Cop) | AsPropagandist(propagandist: Propagandist)
  {
    function Obj(): object
    {
      match this
      case AsCitizen(c) => c
      case AsCop(k) => k
      case AsPropagandist(p) => p
    }

    /** The fields of this occupant that other agents read. */
    function Seen(): View
      reads Obj()
    {
      match this
      case AsCitizen(c) => CitizenView(c.active, c.jailTime, c.susceptibility)
      case AsCop(_) => CopView
      case AsPropagandist(p) => PropagandistView(p.pos, p.jailTime, p.strategy, p.influence, p.visibleToCops)
    }

    function Pos(): Cell
      reads Obj()
    {
      match this
      case AsCitizen(c) => c.pos
      case AsCop(k) => k.pos
      case AsPropagandist(p) => p.pos
    }
  }

  function Objects(ns: seq<Occupant>): set<object>
  {
    set a | a in ns :: a.Obj()
  }

  /** What an agent sees of its neighbours, neighbour by neighbour. */
  function Snapshot(ns: seq<Occupant>): (vs: seq<View>)
    reads Objects(ns)
    ensures |vs| == |ns|
    ensures forall i :: 0 <= i < |ns| ==> vs[i] == ns[i].Seen()
  {
    if ns == [] then []
    else
      var init := ns[..|ns| - 1];
      assert forall a :: a in init ==> a in ns;
      Snapshot(init) + [ns[|ns| - 1].Seen()]
  }

  /** The neighbours whose view satisfies p, in neighbourhood order. */
  function Select(ns: seq<Occupant>, p: View -> bool): seq<Occupant>
    reads Objects(ns)
  {
    if ns == [] then []
    else
      var init := ns[..|ns| - 1];
      assert forall a :: a in init ==> a in ns;
      Select(init, p) + (if p(ns[|ns| - 1].Seen()) then [ns[|ns| - 1]] else [])
  }

  /** The agents a cop chooses from: the exposed, non-jailed propaganda agents if
      there are any, otherwise the active, non-jailed population agents. */
  function ArrestPool(ns: seq<Occupant>): seq<Occupant>
    reads Objects(ns)
  {
    var exposed := Select(ns, IsExposedPropagandist);
    if exposed != [] then exposed else Select(ns, IsActiveCitizen)
  }

  /** Select keeps only neighbours whose view satisfies p. */
  lemma {:induction false} SelectSound(ns: seq<Occupant>, p: View -> bool)
    ensures forall a :: a in Select(ns, p) ==> a in ns && p(a.Seen())
  {
    if ns != [] {
      var init := ns[..|ns| - 1];
      SelectSound(init, p);
    }
  }

  /** Select keeps every neighbour whose view satisfies p. */
  lemma {:induction false} SelectComplete(ns: seq<Occupant>, p: View -> bool)
    ensures forall a :: a in ns && p(a.Seen()) ==> a in Select(ns, p)
  {
    if ns != [] {
      var init := ns[..|ns| - 1];
      SelectComplete(init, p);
      assert ns == init + [ns[|ns| - 1]];
    }
  }

  /** Select keeps as many neighbours as Count says. */
  lemma {:induction false} SelectLength(ns: seq<Occupant>, p: View -> bool)
    ensures |Select(ns, p)| == Count(Snapshot(ns), p)
  {
    if ns != [] {
      var init := ns[..|ns| - 1];
      SelectLength(init, p);
      assert Snapshot(ns)[..|ns| - 1] == Snapshot(init);
    }
  }

  /** Who a cop may arrest: an already-jailed agent and a cop never, an exposed
      propaganda agent whenever one is in view, otherwise any active population
      agent in view; nobody exactly when neither kind is in view. */
  lemma ArrestPoolSpec(ns: seq<Occupant>)
    ensures forall a :: a in ArrestPool(ns) ==> a in ns && !a.AsCop? && a.Seen().jailTime == 0
    ensures (exists a :: a in ns && IsExposedPropagandist(a.Seen())) ==>
      forall a :: a in ArrestPool(ns) <==> a in ns && IsExposedPropagandist(a.Seen())
    ensures (forall a :: a in ns ==> !IsExposedPropagandist(a.Seen())) ==>
      forall a :: a in ArrestPool(ns) <==> a in ns && IsActiveCitizen(a.Seen())
    ensures ArrestPool(ns) == [] <==>
      forall a :: a in ns ==> !IsExposedPropagandist(a.Seen()) && !IsActiveCitizen(a.Seen())
  {
    SelectSound(ns, IsExposedPropagandist);
    SelectComplete(ns, IsExposedPropagandist);
    SelectSound(ns, IsActiveCitizen);
    SelectComplete(ns, IsActiveCitizen);
    if Select(ns, IsExposedPropagandist) == [] {
      assert forall a :: a in ns ==> !IsExposedPropagandist(a.Seen());
      if Select(ns, IsActiveCitizen) == [] {
        assert forall a :: a in ns ==> !IsActiveCitizen(a.Seen());
      } else {
        var a0 := Select(ns, IsActiveCitizen)[0];
        assert a0 in Select(ns, IsActiveCitizen);
        assert a0 in ns && IsActiveCitizen(a0.Seen());
      }
    } else {
      var a0 := Select(ns, IsExposedPropagandist)[0];
      assert a0 in Select(ns, IsExposedPropagandist);
      assert a0 in ns && IsExposedPropagandist(a0.Seen());
    }
  }

}
