/**
 * The "AI enhancement" optimisers of the unified modelling tool: pruning the nodes of a Petri net
 * that no arc touches, and the states of a state machine that the initial state cannot reach.
 */
module AIEnhancement {
  import opened Wrappers
  import opened ModelingTypes
  import opened Seqs

  /** The ids some arc names as its source or its target. */
  function Endpoints(arcs: seq<Arc>): set<string> {
    (set a | a in arcs :: a.source) + (set a | a in arcs :: a.target)
  }

  /** The pruned net: places and transitions whose id is an arc endpoint, in order; the rest as it was. */
  function PrunedNet(n: PetriNet): PetriNet {
    n.(places := Filter(n.places, (p: Place) => p.id in Endpoints(n.arcs)),
       transitions := Filter(n.transitions, (t: NetTransition) => t.id in Endpoints(n.arcs)))
  }

  /** The ids the arcs name, collected arc by arc (the `connected_places` loop). */
  method CollectEndpoints(arcs: seq<Arc>) returns (ends: set<string>)
    ensures ends == Endpoints(arcs)
  {
    ends := {};
    var i := 0;
    while i < |arcs|
      invariant 0 <= i <= |arcs|
      invariant ends == Endpoints(arcs[..i])
    {
      ends := ends + {arcs[i].source};
      ends := ends + {arcs[i].target};
      assert arcs[..i + 1] == arcs[..i] + [arcs[i]];
      i := i + 1;
    }
    assert arcs[..|arcs|] == arcs;
  }

  /** The arc endpoints that are transition ids (the `connected_transitions` loop). */
  method CollectTransitionEndpoints(arcs: seq<Arc>, transitions: seq<NetTransition>) returns (ends: set<string>)
    ensures ends == Endpoints(arcs) * (set t | t in transitions :: t.id)
  {
    var transitionIds := seq(|transitions|, k requires 0 <= k < |transitions| => transitions[k].id);
    ghost var ids := set t | t in transitions :: t.id;
    assert forall x :: x in transitionIds <==> x in ids by {
      forall x | x in ids ensures x in transitionIds {
        var t :| t in transitions && t.id == x;
        var k :| 0 <= k < |transitions| && transitions[k] == t;
        assert transitionIds[k] == x;
      }
    }
    ends := {};
    var i := 0;
    while i < |arcs|
      invariant 0 <= i <= |arcs|
      invariant ends == Endpoints(arcs[..i]) * ids
    {
      var arc := arcs[i];
      if arc.source in transitionIds {
        ends := ends + {arc.source};
      }
      if arc.target in transitionIds {
        ends := ends + {arc.target};
      }
      assert arcs[..i + 1] == arcs[..i] + [arcs[i]];
      i := i + 1;
    }
    assert arcs[..|arcs|] == arcs;
  }

  /** _optimize_petri_net. */
  method OptimizePetriNet(n: PetriNet) returns (r: PetriNet)
    ensures r == PrunedNet(n)
  {
    var connectedPlaces := CollectEndpoints(n.arcs);
    var optimizedPlaces := Filter(n.places, (p: Place) => p.id in connectedPlaces);
    var connectedTransitions := CollectTransitionEndpoints(n.arcs, n.transitions);
    var optimizedTransitions := Filter(n.transitions, (t: NetTransition) => t.id in connectedTransitions);
    FilterCongruent(n.places, (p: Place) => p.id in connectedPlaces, (p: Place) => p.id in Endpoints(n.arcs));
    FilterCongruent(n.transitions, (t: NetTransition) => t.id in connectedTransitions,
                    (t: NetTransition) => t.id in Endpoints(n.arcs));
    r := n.(places := optimizedPlaces, transitions := optimizedTransitions);
  }

  /** Every transition that leaves a state of `s` leads into `s`. */
  ghost predicate ClosedUnder(s: set<string>, ts: seq<MachineTransition>) {
    forall t :: t in ts && t.fromState in s ==> t.toState in s
  }

  /** `r` is the least set that contains `init` and is closed under `ts`. */
  ghost predicate IsLeastClosure(r: set<string>, init: string, ts: seq<MachineTransition>) {
    && init in r
    && ClosedUnder(r, ts)
    && forall s: set<string> :: init in s && ClosedUnder(s, ts) ==> r <= s
  }

  /** The least closure is unique. */
  lemma LeastClosureUnique(r1: set<string>, r2: set<string>, init: string, ts: seq<MachineTransition>)
    requires IsLeastClosure(r1, init, ts) && IsLeastClosure(r2, init, ts)
    ensures r1 == r2
  {
    assert r1 <= r2 && r2 <= r1;
  }

  /** Every reachable state other than the initial one is the target of a transition from a reachable state. */
  lemma LeastClosureIsReached(r: set<string>, init: string, ts: seq<MachineTransition>, x: string)
    requires IsLeastClosure(r, init, ts) && x in r && x != init
    ensures exists t :: t in ts && t.fromState in r && t.toState == x
  {
    if !exists t :: t in ts && t.fromState in r && t.toState == x {
      var smaller := r - {x};
      assert ClosedUnder(smaller, ts);
      assert false;
    }
  }

  /** `r` lies inside every set that contains `init` and is closed under `ts`. */
  ghost predicate BelowEveryClosure(r: set<string>, init: string, ts: seq<MachineTransition>) {
    forall s: set<string> :: init in s && ClosedUnder(s, ts) ==> r <= s
  }

  /** Adding the target of a transition that leaves `r` keeps `r` below every closure. */
  lemma AddTargetStaysBelow(r: set<string>, t: MachineTransition, init: string, ts: seq<MachineTransition>)
    requires t in ts && t.fromState in r && BelowEveryClosure(r, init, ts)
    ensures BelowEveryClosure(r + {t.toState}, init, ts)
  {
  }

  /** One pass of the `for` loop inside `while changed`. */
  method ReachPass(init: string, ts: seq<MachineTransition>, reachable: set<string>, ghost universe: set<string>)
    returns (next: set<string>, changed: bool)
    requires reachable <= universe && forall t :: t in ts ==> t.toState in universe
    requires BelowEveryClosure(reachable, init, ts)
    ensures reachable <= next <= universe && BelowEveryClosure(next, init, ts)
    ensures changed ==> reachable < next
    ensures !changed ==> next == reachable && ClosedUnder(next, ts)
  {
    next, changed := reachable, false;
    var i := 0;
    while i < |ts|
      invariant 0 <= i <= |ts|
      invariant reachable <= next <= universe && BelowEveryClosure(next, init, ts)
      invariant changed ==> reachable < next
      invariant !changed ==> next == reachable
      invariant !changed ==> forall j :: 0 <= j < i && ts[j].fromState in next ==> ts[j].toState in next
    {
      var t := ts[i];
      if t.fromState in next {
        if t.toState !in next {
          AddTargetStaysBelow(next, t, init, ts);
          next := next + {t.toState};
          changed := true;
        }
      }
      i := i + 1;
    }
  }

  lemma StrictSubsetIsSmaller(a: set<string>, b: set<string>)
    requires a < b
    ensures |a| < |b|
  {
    var x :| x in b && x !in a;
    assert b == a + (b - a) && a * (b - a) == {};
    assert x in b - a;
  }

  /** The `while changed` loop of `_optimize_state_machine`. */
  method ReachableStates(init: string, ts: seq<MachineTransition>) returns (reachable: set<string>)
    ensures IsLeastClosure(reachable, init, ts)
  {
    ghost var universe := {init} + (set t | t in ts :: t.toState);
    assert forall t :: t in ts ==> t.toState in universe;
    reachable := {init};
    var changed := true;
    while changed
      invariant init in reachable && reachable <= universe
      invariant BelowEveryClosure(reachable, init, ts)
      invariant !changed ==> ClosedUnder(reachable, ts)
      decreases |universe - reachable| + (if changed then 1 else 0)
    {
      ghost var before := reachable;
      reachable, changed := ReachPass(init, ts, reachable, universe);
      if changed {
        assert universe - reachable < universe - before;
        StrictSubsetIsSmaller(universe - reachable, universe - before);
      }
    }
  }

  /**
   * The machine restricted to the states whose id is in `reach` and to the transitions whose two
   * ends are, both in order; the rest as it was.
   */
  function KeepReachable(sm: StateMachine, reach: set<string>): StateMachine {
    sm.(states := Filter(sm.states, (s: State) => s.id in reach),
        transitions := Filter(sm.transitions, (t: MachineTransition) => t.fromState in reach && t.toState in reach))
  }

  /** _optimize_state_machine. */
  method OptimizeStateMachine(sm: StateMachine) returns (r: StateMachine)
    ensures exists reach :: IsLeastClosure(reach, sm.initialState, sm.transitions) && r == KeepReachable(sm, reach)
  {
    var reachable := ReachableStates(sm.initialState, sm.transitions);
    var optimizedStates := Filter(sm.states, (s: State) => s.id in reachable);
    var optimizedTransitions := Filter(sm.transitions, (t: MachineTransition) => t.fromState in reachable && t.toState in reachable);
    r := sm.(states := optimizedStates, transitions := optimizedTransitions);
    assert r == KeepReachable(sm, reachable);
  }

  /**
   * When every transition ends in a declared state, every kept transition ends in a kept state,
   * and every kept transition starts from one when transitions start from declared states.
   */
  lemma KeptTransitionsStayInside(sm: StateMachine, reach: set<string>)
    requires forall t :: t in sm.transitions ==> t.toState in StateIds(sm)
    ensures forall t :: t in KeepReachable(sm, reach).transitions ==> t.toState in StateIds(KeepReachable(sm, reach))
    ensures (forall t :: t in sm.transitions ==> t.fromState in StateIds(sm)) ==>
      forall t :: t in KeepReachable(sm, reach).transitions ==> t.fromState in StateIds(KeepReachable(sm, reach))
  {
    var kept := KeepReachable(sm, reach);
    forall t | t in kept.transitions
      ensures t.toState in StateIds(kept)
    {
      assert t in sm.transitions;
      var s :| s in sm.states && s.id == t.toState;
      assert s in kept.states;
    }
    if forall t :: t in sm.transitions ==> t.fromState in StateIds(sm) {
      forall t | t in kept.transitions
        ensures t.fromState in StateIds(kept)
      {
        assert t in sm.transitions;
        var s :| s in sm.states && s.id == t.fromState;
        assert s in kept.states;
      }
    }
  }

  /** An unoptimised net derived from a machine keeps all of its transitions under pruning. */
  lemma PruningKeepsArcTouchedTransitions(n: PetriNet)
    requires forall t :: t in n.transitions ==> exists a :: a in n.arcs && a.target == t.id
    ensures PrunedNet(n).transitions == n.transitions
  {
    forall t | t in n.transitions
      ensures t.id in Endpoints(n.arcs)
    {
      var a :| a in n.arcs && a.target == t.id;
    }
    FilterKeepsAll(n.transitions, (t: NetTransition) => t.id in Endpoints(n.arcs));
  }

  /** The model optimize_model returns for a model it rewrites. */
  function Optimized(m: Model, content: Content): Model {
    NewModel(m.id + "_optimized", m.theory, m.specification, content).(optimizationStatus := "completed")
  }

  /**
   * What optimize_model returns: Petri nets and state machines are rewritten under the id +
   * "_optimized" with status "completed" (and a fresh "pending" validation status); every other
   * model is returned as it is.
   */
  ghost predicate IsOptimizationOf(r: Model, m: Model) {
    && (m.theory == PetriNetTheory ==> r == Optimized(m, Net(PrunedNet(NetOf(m.content)))))
    && (m.theory == StateMachineTheory ==>
          exists reach :: IsLeastClosure(reach, MachineOf(m.content).initialState, MachineOf(m.content).transitions)
            && r == Optimized(m, Machine(KeepReachable(MachineOf(m.content), reach))))
    && (m.theory != PetriNetTheory && m.theory != StateMachineTheory ==> r == m)
  }

  /** optimize_model. */
  method OptimizeModel(m: Model) returns (r: Model)
    ensures IsOptimizationOf(r, m)
  {
    if TheoryValue(m.theory) == "petri_net" {
      var n := OptimizePetriNet(NetOf(m.content));
      r := Optimized(m, Net(n));
    } else if TheoryValue(m.theory) == "state_machine" {
      var sm := OptimizeStateMachine(MachineOf(m.content));
      r := Optimized(m, Machine(sm));
    } else {
      r := m;
    }
  }
}
