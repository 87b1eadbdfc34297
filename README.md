# Civil violence with propaganda: the agent rules

This project models the per-step rules of the three agent classes of an
agent-based version of Epstein's civil-violence model, extended with
propaganda agents (`CivilViolenceAgents.py`).

- **Population agent.** A population agent serves its jail term if it has one. Otherwise it:
  - counts the cops and the active, non-jailed population agents it sees, counting itself as one active;
  - forms the truncated cop-to-active ratio;
  - raises its grievance by the propaganda rule of the last free propaganda agent in view (transfer, bandwagon or demonizing);
  - turns active exactly when grievance minus net risk exceeds its threshold;
  - may move to an empty cell it sees.
- **Cop.** A cop splits what it sees into exposed, non-jailed propaganda agents and active, non-jailed population agents. It arrests one agent of the first group if the first group is non-empty, else one of the second, else it may move.
  - An arrest sets the target's jail term to a value in [1, max_jail_term].
  - It divides a propaganda agent's total influence by that term.
  - With movement on, the cop steps onto the target's cell.
- **Propaganda agent.** A propaganda agent serves its jail term if it has one. Otherwise:
  - under the bandwagon strategy it adds, for each quiescent, non-jailed population agent it sees, its influence times that agent's susceptibility divided by the number of such agents in view, and becomes visible to cops exactly when its total influence exceeds its exposure threshold;
  - it may move to an empty cell it sees.

## Structure

- **`rules.dfy`, module `Rules` (pure).** It works on `View`, which holds what an agent reads of one neighbour. It contains:
  - the neighbour counts;
  - the cop-to-active ratio;
  - the three propaganda rules and the grievance increment they produce;
  - the bandwagon gain;
  - the lemmas about all of these.
- **`agents.dfy`, module `Agents` (imperative).** It contains:
  - the classes `Citizen`, `Cop` and `Propagandist`, whose `Step` methods update their fields in place;
  - `Occupant`, one neighbour as the grid returns it;
  - `Snapshot`, which reads the neighbours' fields into `View`s;
  - `Select` and `ArrestPool`, which model the cop's filtered lists.

  Every method is proved against the `Rules` functions. Each `Step` states the complete new state in both the jailed and the free branch.

How the grid's outside behaviour is modelled:

- The neighbourhood is an input: the sequence of occupants `get_cell_list_contents` returns, plus the list of empty cells.
- `random.choice` and `randint` are nondeterministic choices (`:|`).
- The arrest probability `1 - exp(-k * ratio)` is the parameter `arrestCurve`.

## Model

| member | source | states |
|---|---|---|
| Rules.CountIsCardinality | CivilViolenceAgents.py:164-169 | the length of a filtered list is the number of positions satisfying the filter; it is at most the number of neighbours, and zero exactly when no neighbour satisfies the filter |
| Rules.CopsInVision | CivilViolenceAgents.py:164-165 | the number of cops in view never exceeds the number of neighbours |
| Rules.CopsInVisionZero | CivilViolenceAgents.py:164-165 | no cop is counted exactly when no neighbour is a cop |
| Rules.ActivesInVision | CivilViolenceAgents.py:167-169 | the active count includes the agent itself, so it is at least 1 and the division never divides by zero, and at most one more than the number of neighbours |
| Rules.ActivesInVisionOne | CivilViolenceAgents.py:167-169 | the count is exactly 1 iff no active, non-jailed population agent is in view; jailed and quiescent ones are excluded |
| Rules.TruncatedQuotient | CivilViolenceAgents.py:176 | `int()` of the real quotient of two naturals equals their integer division |
| Rules.CopActiveRatio | CivilViolenceAgents.py:176 | the ratio r is the floor of cops/actives (r*actives <= cops < (r+1)*actives) and never exceeds the number of cops |
| Rules.TransferTerm | CivilViolenceAgents.py:98-99 | each transfer term is positive and at most 1/0.0001, because 0.0001 is added to the squared distance |
| Rules.ScanLengths | CivilViolenceAgents.py:92-102 | the scan adds one transfer term and one influence per non-jailed propaganda agent in view, and leaves a strategy exactly when there is one |
| Rules.LastStrategyIsLastFree | CivilViolenceAgents.py:92-95 | the strategy applied is that of the last non-jailed propaganda agent in the neighbour list |
| Rules.NoPropagandaNoIncrement | CivilViolenceAgents.py:104-108 | with no non-jailed propaganda agent in view the grievance increment is 0 |
| Rules.TransferIncrementBounded | CivilViolenceAgents.py:109-111 | under transfer the increment is at most 1, and non-negative when susceptibility and propaganda factor are |
| Rules.BandwagonIncrement | CivilViolenceAgents.py:114-116 | under bandwagon the increment is propaganda_factor * susceptibility * (sum of the influences in view) |
| Rules.DemonizingIncrement | CivilViolenceAgents.py:119-122 | under demonizing the increment is susceptibility * propaganda_factor when a cop is in view, else 0 |
| Rules.TransferRule | CivilViolenceAgents.py:110-111 | susceptibility * (summed closeness)² * propaganda_factor, capped at 1 |
| Rules.BandwagonRule | CivilViolenceAgents.py:115-116 | propaganda_factor * susceptibility * total influence in view |
| Rules.DemonizingRule | CivilViolenceAgents.py:120-122 | susceptibility * propaganda_factor when at least one cop is in view, else 0 |
| Rules.GrievanceIncrement | CivilViolenceAgents.py:104-122 | the grievance increment: 0 with no free propaganda agent in view, else the rule of the strategy found last, applied to the scanned transfer terms, influences or cop count |
| Rules.Share | CivilViolenceAgents.py:330 | one quiescent neighbour's addition: FACTOR * influence * its susceptibility / the number of quiescent neighbours |
| Rules.BandwagonGain | CivilViolenceAgents.py:328-330 | the sum of the shares over the quiescent, non-jailed population agents in view, in neighbourhood order |
| Rules.BandwagonGainClosedForm | CivilViolenceAgents.py:328-330 | the per-agent additions of the bandwagon loop sum to FACTOR * influence * (total quiescent susceptibility) / n |
| Rules.NoQuietNoGain | CivilViolenceAgents.py:323-330 | with no quiescent, non-jailed population agent in view the loop adds nothing (and never divides by the zero count) |
| Rules.StepGain | CivilViolenceAgents.py:323-330 | one bandwagon step adds influence * (sum of quiescent susceptibilities) / (their number), and 0 when there are none |
| Rules.BandwagonExposureExample | CivilViolenceAgents.py:326-336 | influence 1 and two quiescent neighbours of susceptibility 1 add exactly 1 in one step |
| Agents.Citizen.constructor | CivilViolenceAgents.py:35-81 | a new population agent has grievance hardship * (1 - legitimacy), net risk 0, is quiescent, free and has no arrest probability |
| Agents.Citizen.CalPropagandaEffect | CivilViolenceAgents.py:83-122 | grievance grows by exactly the increment of the last free propaganda agent's strategy over the neighbours, and nothing else changes |
| Agents.Citizen.ServeJailTime | CivilViolenceAgents.py:151-155 | a jailed agent's term drops by exactly 1, and it turns quiescent exactly when the term reaches 0 |
| Agents.Citizen.EstimateArrestProbability | CivilViolenceAgents.py:164-178 | the cops and actives counted, their truncated ratio, and the arrest probability the curve gives for that ratio |
| Agents.Citizen.Activate | CivilViolenceAgents.py:186-197 | net risk is risk aversion times arrest probability, and afterwards the agent is active iff grievance minus net risk exceeds its threshold, whatever it was before |
| Agents.Citizen.Move | CivilViolenceAgents.py:199-202 | the agent moves only when movement is on and an empty cell is in view, and then onto one of those cells; otherwise it stays |
| Agents.Citizen.Step | CivilViolenceAgents.py:142-202 | jailed: term minus 1, quiescent on release, nothing else changes; free: the counts, ratio, probability, propaganda-raised grievance, level-triggered activity and move above, all over the neighbours as they were before the step |
| Agents.Cop.constructor | CivilViolenceAgents.py:216-228 | a new cop has the given position and vision |
| Agents.Cop.Partition | CivilViolenceAgents.py:247-253 | the two lists are exactly the active, non-jailed population agents and the exposed, non-jailed propaganda agents, each in neighbourhood order |
| Agents.Cop.JailAgent | CivilViolenceAgents.py:271-280 | one of the given agents gets a jail term in [1, max_jail_term]; a propaganda agent's total influence is divided by it; an arrested population agent keeps its position, grievance, net risk, arrest probability and counts; no other agent changes; the cop moves onto the target when movement is on; with max_jail_term < 1 the draw fails and nothing changes |
| Agents.Cop.Step | CivilViolenceAgents.py:230-267 | an arrest is attempted iff the pool (exposed propaganda agents, else active population agents) is non-empty, and the target comes from that pool, gets its term as in JailAgent and otherwise keeps its fields; otherwise the cop moves to an empty cell when movement is on and one exists, else nothing changes |
| Agents.Propagandist.constructor | CivilViolenceAgents.py:290-301 | a new propaganda agent has total influence 0, is hidden from cops and is free |
| Agents.Propagandist.SpreadInfluence | CivilViolenceAgents.py:323-330 | total influence grows by exactly the bandwagon gain over the quiescent, non-jailed population agents in view |
| Agents.Propagandist.Step | CivilViolenceAgents.py:303-341 | jailed: term minus 1 and hidden on release, nothing else; free bandwagon: influence gain, then visible iff the total exceeds the exposure threshold; other strategies: influence and visibility untouched; moves only to a cell in the empty list and only when movement is on |
| Agents.Snapshot | CivilViolenceAgents.py:241-242 | the view has one entry per neighbour, each the fields other agents read from it |
| Agents.Select | CivilViolenceAgents.py:248-253 | the neighbours whose fields satisfy a filter, in neighbourhood order (the comprehension and the partition lists) |
| Agents.ArrestPool | CivilViolenceAgents.py:255-262 | the agents a cop chooses from: the exposed, non-jailed propaganda agents if any, else the active, non-jailed population agents |
| Agents.SelectSound | CivilViolenceAgents.py:248-253 | a filtered neighbour list holds only neighbours that satisfy the filter |
| Agents.SelectComplete | CivilViolenceAgents.py:248-253 | a filtered neighbour list holds every neighbour that satisfies the filter |
| Agents.SelectLength | CivilViolenceAgents.py:323 | `len(quiets_in_vision)` equals the count of quiescent, non-jailed population agents in view |
| Agents.ArrestPoolSpec | CivilViolenceAgents.py:248-267 | a cop never picks a cop or a jailed agent; it picks from the exposed propaganda agents whenever one is in view, otherwise from the active population agents; nobody exactly when neither kind is in view |

## Left out

- The grid (`get_neighborhood`, `get_cell_list_contents`, `is_cell_empty`, `move_agent`) and the random-activation scheduler are external. The neighbourhood is an input, and a move is modelled as the new `pos` only. No occupancy invariant is claimed, because the cop moves onto the cell of an agent that stays there.
- `search_neighborhood` and the attributes `neighborhood`, `neighbors` and `empty_cells` that it stores are not modelled. Their contents are the inputs `ns` and `emptyCells`.
- The pseudo-random generator and reproducibility by seed are not modelled. Each random choice is any value in its range.
- Floating-point arithmetic is not modelled:
  - quantities are exact reals;
  - the float32 norm of the transfer distance is computed exactly as dx² + dy²;
  - `math.exp` in the arrest probability is the function parameter `arrestCurve`, so its monotonicity in the ratio is not stated.
- The strategy tags are not defined in the settings module that sets them up. They are modelled as the closed enumeration `Strategy`, so the source's empty-string "no strategy" is `None`.
- `randint(1, max_jail_term)` raises when max_jail_term < 1. `Agents.Cop.JailAgent` returns `JailTermRangeError` instead, and changes nothing.
- Agents.Citizen.CalPropagandaEffect: takes the cop count as a parameter rather than reading the attribute `step` has just written. `Agents.Citizen.Step` computes the count first and passes it in, then writes the count fields after the propaganda update. Those field writes touch different fields, so the order does not show in the result.
- Agents.Citizen.Step: the neighbours are read once, before the step. A neighbour that is the agent itself (the grid excludes the centre cell) is not treated specially.
- `PopulationAgent.py`, the model class, the server and the visualisation are not part of this model.

Where the code departs from the usual description of these rules, the model follows the code:

- The active count covers population agents only, not propaganda agents.
- The transfer rule adds 0.0001 to the squared distance, rather than using it as a floor on the distance.
- The transfer and bandwagon sums run over every non-jailed propaganda agent in view, whatever its strategy, and the strategy applied is the last one found.
- After an arrest, the cop moves onto the cell that the jailed agent still occupies.
