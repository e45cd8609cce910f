/**
  The failure-scenario generator of the FLoRaSat command line tool
  (`__create_failures` in florasat_cli/src/florasat/scenario/command.py).

  A constellation of `satcount` satellites has four inter-satellite links per
  satellite and the satellites themselves as nodes. All start working. For each
  phase the generator runs a failure pass over the working links and a repair
  pass over the failed links, then the same for the nodes, and emits one timed
  block listing what changed. Every trial asks `decision(p)`, which this model
  takes from an oracle (a stream of answers indexed by draw number).
*/
module Scenario {
  import opened Wrappers

  datatype Direction = Left | Up | Right | Down

  /** An inter-satellite link, named by its satellite and its direction. */
  datatype Link = Link(sat: nat, dir: Direction)

  /** A node is a satellite id. */
  type Node = nat

  /** The state a directive sets an entity to. */
  datatype Value = Working | Disabled

  /** The working and the failed members of one population (links or nodes). */
  datatype Population<T> = Population(working: set<T>, failed: set<T>)

  /** What one phase changes in a population: the entities that fail and those that are repaired. */
  datatype Transition<T> = Transition(newFailed: set<T>, repaired: set<T>)

  /** Both populations. */
  datatype FaultState = FaultState(links: Population<Link>, nodes: Population<Node>)

  /**
    The answers of `decision(p)`: the answer of the draw with number `k` for
    probability `p` is `oracle(k, p)`. The random source behind it is not modelled.
  */
  type Oracle = (nat, real) -> bool

  /** lfprop, nfprop, lrprop and nrprop. */
  datatype Probabilities = Probabilities(linkFail: real, nodeFail: real, linkRepair: real, nodeRepair: real)

  /** The command-line arguments the generator reads; `warmup` is optional. */
  datatype Config = Config(satcount: int, simtime: int, phases: int, probs: Probabilities, warmup: Option<int>)

  /**
    ZeroDivision: `(simtime - warmup) / phases` with `phases == 0`.
    AssertionFailed: one of the two size assertions of the phase loop fails.
  */
  datatype Error = ZeroDivision | AssertionFailed

  /**
    One `<at>` block of the scenario document: the failed-link and failed-node
    counts of its comment line, its time in whole seconds, and its directives
    in the order they are written.
  */
  datatype Block = Block(
    linkFailures: nat, nodeFailures: nat, at: int,
    repairedLinks: seq<Link>, failedLinks: seq<Link>,
    repairedNodes: seq<Node>, failedNodes: seq<Node>)

  /** `n`, or 0 when `n` is negative. */
  function Max0(n: int): (m: nat)
  {
    if n < 0 then 0 else n
  }

  // ---------------------------------------------------------------------------
  // Topology

  /** Every `(i, d)` with `i` in `range(0, satcount)` and `d` one of the four directions. */
  function LinkUniverse(satcount: int): (u: set<Link>)
    ensures forall l: Link :: l in u <==> l.sat < satcount
  {
    set i: nat, d: Direction | i < satcount :: Link(i, d)
  }

  /** The satellite ids `range(0, satcount)`. */
  function NodeUniverse(satcount: int): (u: set<Node>)
    ensures forall n: Node :: n in u <==> n < satcount
    decreases Max0(satcount)
  {
    if satcount <= 0 then {} else NodeUniverse(satcount - 1) + {satcount - 1}
  }

  /** The link universe has four links per satellite. */
  lemma {:induction false} LinkUniverseSize(satcount: int)
    ensures |LinkUniverse(satcount)| == 4 * Max0(satcount)
    decreases Max0(satcount)
  {
    if satcount <= 0 {
      assert LinkUniverse(satcount) == {};
    } else {
      var n := satcount - 1;
      var last := {Link(n, Left), Link(n, Up), Link(n, Right), Link(n, Down)};
      forall l: Link | l.sat == n ensures l in last {
        match l.dir
        case Left => assert l == Link(n, Left);
        case Up => assert l == Link(n, Up);
        case Right => assert l == Link(n, Right);
        case Down => assert l == Link(n, Down);
      }
      assert LinkUniverse(satcount) == LinkUniverse(n) + last;
      assert LinkUniverse(n) !! last;
      assert |last| == 4 by {
        assert |{Link(n, Left)}| == 1;
        assert |{Link(n, Left), Link(n, Up)}| == 2;
        assert |{Link(n, Left), Link(n, Up), Link(n, Right)}| == 3;
      }
      LinkUniverseSize(n);
    }
  }

  /** The node universe has one node per satellite. */
  lemma {:induction false} NodeUniverseSize(satcount: int)
    ensures |NodeUniverse(satcount)| == Max0(satcount)
    decreases Max0(satcount)
  {
    if satcount > 0 {
      NodeUniverseSize(satcount - 1);
    }
  }

  /**
    The two assertions of the phase loop hold of partitioned populations exactly
    when `satcount` is not negative.
  */
  lemma SizeAssertions(links: Population<Link>, nodes: Population<Node>, satcount: int)
    requires Partition(links, LinkUniverse(satcount)) && Partition(nodes, NodeUniverse(satcount))
    ensures |links.working| + |links.failed| == satcount * 4 <==> satcount >= 0
    ensures |nodes.working| + |nodes.failed| == satcount <==> satcount >= 0
  {
    PartitionSize(links, LinkUniverse(satcount));
    PartitionSize(nodes, NodeUniverse(satcount));
    LinkUniverseSize(satcount);
    NodeUniverseSize(satcount);
  }

  /** The state before the first phase: everything working, nothing failed. */
  function InitialState(satcount: int): (s: FaultState)
  {
    FaultState(Population(LinkUniverse(satcount), {}), Population(NodeUniverse(satcount), {}))
  }

  // ---------------------------------------------------------------------------
  // Fault state machine

  /** The working and failed sets split the universe. */
  predicate Partition<T>(p: Population<T>, universe: set<T>)
  {
    p.working !! p.failed && p.working + p.failed == universe
  }

  /** Only working entities fail and only failed entities are repaired. */
  predicate Admissible<T>(p: Population<T>, t: Transition<T>)
  {
    t.newFailed <= p.working && t.repaired <= p.failed
  }

  /** `working' = (working - new_failed) + repaired`, `failed' = (failed - repaired) + new_failed`. */
  function Evolve<T>(p: Population<T>, t: Transition<T>): (q: Population<T>)
  {
    Population((p.working - t.newFailed) + t.repaired, (p.failed - t.repaired) + t.newFailed)
  }

  /** A partition of the universe has as many members as the universe. */
  lemma PartitionSize<T>(p: Population<T>, universe: set<T>)
    requires Partition(p, universe)
    ensures |p.working| + |p.failed| == |universe|
  {
  }

  /**
    An admissible phase keeps the partition, and no entity both fails and is
    repaired in it.
  */
  lemma EvolveKeepsPartition<T>(p: Population<T>, t: Transition<T>, universe: set<T>)
    requires Partition(p, universe) && Admissible(p, t)
    ensures t.newFailed !! t.repaired
    ensures Partition(Evolve(p, t), universe)
    ensures |Evolve(p, t).working| + |Evolve(p, t).failed| == |universe|
  {
    PartitionSize(Evolve(p, t), universe);
  }

  /**
    The transition of an admissible phase can be read off the two states: the
    newly failed are the working that stopped working, the repaired are the
    failed that stopped being failed.
  */
  lemma TransitionFromStates<T>(p: Population<T>, t: Transition<T>)
    requires p.working !! p.failed && Admissible(p, t)
    ensures t.newFailed == p.working - Evolve(p, t).working
    ensures t.repaired == p.failed - Evolve(p, t).failed
  {
  }

  /** The number of `true` answers among the draws `from`, ..., `from + n - 1` for probability `p`. */
  function CountTrue(oracle: Oracle, p: real, from: nat, n: nat): (c: nat)
    ensures c <= n
  {
    if n == 0 then 0
    else CountTrue(oracle, p, from, n - 1) + (if oracle(from + n - 1, p) then 1 else 0)
  }

  /** Every draw `from`, ..., `from + n - 1` for probability `p` answers false. */
  predicate Quiet(oracle: Oracle, p: real, from: nat, n: nat)
  {
    forall k: nat :: from <= k < from + n ==> !oracle(k, p)
  }

  lemma {:induction false} QuietIffNoTrue(oracle: Oracle, p: real, from: nat, n: nat)
    ensures Quiet(oracle, p, from, n) <==> CountTrue(oracle, p, from, n) == 0
  {
    if n > 0 {
      QuietIffNoTrue(oracle, p, from, n - 1);
    }
  }

  /**
    One trial pass (command.py:86-91 and the three loops like it): every member
    of a snapshot of `pool` is visited once, in the order set iteration gives,
    and draws one answer; those answering true are chosen.
  */
  method Trial<T>(pool: set<T>, oracle: Oracle, p: real, draw: nat) returns (chosen: set<T>, next: nat)
    ensures chosen <= pool
    ensures next == draw + |pool|
    ensures |chosen| == CountTrue(oracle, p, draw, |pool|)
  {
    chosen, next := {}, draw;
    var rest := pool;
    ghost var visited: set<T> := {};
    while rest != {}
      invariant visited + rest == pool && visited !! rest
      invariant chosen <= visited
      invariant next == draw + |visited|
      invariant |chosen| == CountTrue(oracle, p, draw, |visited|)
      decreases |rest|
    {
      var x :| x in rest;
      assert x !in visited && x !in chosen;
      var hit := oracle(next, p);
      assert CountTrue(oracle, p, draw, |visited| + 1)
          == CountTrue(oracle, p, draw, |visited|) + (if hit then 1 else 0);
      if hit {
        chosen := chosen + {x};
      }
      rest, visited := rest - {x}, visited + {x};
      next := next + 1;
    }
  }

  /**
    The failure pass over the working set and then the repair pass over the
    failed set of one population (command.py:85-101, and 105-121 for nodes).
  */
  method StepPopulation<T>(p: Population<T>, oracle: Oracle, failP: real, repairP: real, draw: nat)
    returns (t: Transition<T>, next: nat)
    ensures Admissible(p, t)
    ensures |t.newFailed| == CountTrue(oracle, failP, draw, |p.working|)
    ensures |t.repaired| == CountTrue(oracle, repairP, draw + |p.working|, |p.failed|)
    ensures next == draw + |p.working| + |p.failed|
    ensures Quiet(oracle, failP, draw, |p.working|) && Quiet(oracle, repairP, draw + |p.working|, |p.failed|)
            ==> t == Transition({}, {}) && Evolve(p, t) == p
  {
    var newFailed, afterFail := Trial(p.working, oracle, failP, draw);
    var repaired, afterRepair := Trial(p.failed, oracle, repairP, afterFail);
    t, next := Transition(newFailed, repaired), afterRepair;
    QuietIffNoTrue(oracle, failP, draw, |p.working|);
    QuietIffNoTrue(oracle, repairP, draw + |p.working|, |p.failed|);
    if Quiet(oracle, failP, draw, |p.working|) && Quiet(oracle, repairP, draw + |p.working|, |p.failed|) {
      EmptyTransition(p, t);
    }
  }

  /** A transition that fails nothing and repairs nothing leaves the population as it is. */
  lemma EmptyTransition<T>(p: Population<T>, t: Transition<T>)
    requires |t.newFailed| == 0 && |t.repaired| == 0
    ensures t == Transition({}, {}) && Evolve(p, t) == p
  {
    assert (p.working - {}) + {} == p.working && (p.failed - {}) + {} == p.failed;
  }

  // ---------------------------------------------------------------------------
  // Blocks and their replay

  /** The members of a sequence. */
  function Elems<T>(xs: seq<T>): (s: set<T>)
    ensures forall i :: 0 <= i < |xs| ==> xs[i] in s
  {
    if xs == [] then {} else Elems(xs[..|xs| - 1]) + {xs[|xs| - 1]}
  }

  /** No member occurs twice. */
  predicate Distinct<T(==)>(xs: seq<T>)
  {
    xs == [] || (Distinct(xs[..|xs| - 1]) && xs[|xs| - 1] !in Elems(xs[..|xs| - 1]))
  }

  /** `xs` lists every member of `s` exactly once. */
  predicate Enumerates<T>(xs: seq<T>, s: set<T>)
  {
    Distinct(xs) && Elems(xs) == s
  }

  /** An enumeration has one entry per member. */
  lemma {:induction false} EnumeratesSize<T>(xs: seq<T>, s: set<T>)
    requires Enumerates(xs, s)
    ensures |xs| == |s|
  {
    if xs != [] {
      var front, x := xs[..|xs| - 1], xs[|xs| - 1];
      EnumeratesSize(front, Elems(front));
    }
  }

  /** Appending a member not yet listed keeps the list an enumeration of what has been taken. */
  lemma EnumerateStep<T>(xs: seq<T>, rest: set<T>, s: set<T>, x: T)
    requires rest <= s && Distinct(xs) && Elems(xs) == s - rest && x in rest
    ensures rest - {x} <= s && |rest - {x}| < |rest|
    ensures Distinct(xs + [x]) && Elems(xs + [x]) == s - (rest - {x})
  {
    assert (xs + [x])[..|xs|] == xs;
  }

  /** One `for x in s` loop over a set: its members in set iteration order. */
  method Enumerate<T>(s: set<T>) returns (xs: seq<T>)
    ensures Enumerates(xs, s)
  {
    xs := [];
    var rest := s;
    while rest != {}
      invariant rest <= s
      invariant Distinct(xs) && Elems(xs) == s - rest
      decreases |rest|
    {
      var x :| x in rest;
      EnumerateStep(xs, rest, s, x);
      xs, rest := xs + [x], rest - {x};
    }
  }

  /** The effect of one directive setting `x` to `v`. */
  function Mark<T>(p: Population<T>, x: T, v: Value): (q: Population<T>)
  {
    if v == Working then Population(p.working + {x}, p.failed - {x})
    else Population(p.working - {x}, p.failed + {x})
  }

  /** A directive is consistent with the state when it changes its entity's state. */
  predicate CanMark<T>(p: Population<T>, x: T, v: Value)
  {
    if v == Working then x in p.failed else x in p.working
  }

  /** The effect of the directives setting each of `xs`, in order, to `v`. */
  function MarkAll<T>(p: Population<T>, xs: seq<T>, v: Value): (q: Population<T>)
  {
    if xs == [] then p else Mark(MarkAll(p, xs[..|xs| - 1], v), xs[|xs| - 1], v)
  }

  /** Every one of the directives is consistent with the state it is applied to. */
  predicate CanMarkAll<T>(p: Population<T>, xs: seq<T>, v: Value)
  {
    xs == [] || (CanMarkAll(p, xs[..|xs| - 1], v) && CanMark(MarkAll(p, xs[..|xs| - 1], v), xs[|xs| - 1], v))
  }

  /** The population with the members of `s` set to `v`. */
  function Moved<T>(p: Population<T>, s: set<T>, v: Value): (q: Population<T>)
  {
    if v == Working then Population(p.working + s, p.failed - s)
    else Population(p.working - s, p.failed + s)
  }

  /**
    Setting every member of a set the opposite way, one directive each, is
    consistent and moves the whole set across.
  */
  lemma MarkAllSet<T>(p: Population<T>, xs: seq<T>, s: set<T>, v: Value)
    requires Enumerates(xs, s)
    requires if v == Working then s <= p.failed else s <= p.working
    ensures CanMarkAll(p, xs, v)
    ensures MarkAll(p, xs, v) == Moved(p, s, v)
  {
    MarkAllMoves(p, xs, v);
    MarkAllConsistent(p, xs, v);
  }

  /** Directives setting members to `v`, with or without repeats, move exactly those members across. */
  lemma {:induction false} MarkAllMoves<T>(p: Population<T>, xs: seq<T>, v: Value)
    ensures MarkAll(p, xs, v) == Moved(p, Elems(xs), v)
  {
    if xs == [] {
      assert Moved(p, {}, v) == p by {
        assert p.working + {} == p.working - {} == p.working;
        assert p.failed + {} == p.failed - {} == p.failed;
      }
    } else {
      var front, x := xs[..|xs| - 1], xs[|xs| - 1];
      MarkAllMoves(p, front, v);
      MarkMoves(p, Elems(front), x, v);
    }
  }

  /** Directives for distinct members that all start on the other side are each consistent. */
  lemma {:induction false} MarkAllConsistent<T>(p: Population<T>, xs: seq<T>, v: Value)
    requires Distinct(xs)
    requires if v == Working then Elems(xs) <= p.failed else Elems(xs) <= p.working
    ensures CanMarkAll(p, xs, v)
  {
    if xs != [] {
      var front, x := xs[..|xs| - 1], xs[|xs| - 1];
      MarkAllConsistent(p, front, v);
      MarkAllMoves(p, front, v);
    }
  }

  /** One more directive moves one more member across. */
  lemma MarkMoves<T>(p: Population<T>, s: set<T>, x: T, v: Value)
    ensures Mark(Moved(p, s, v), x, v) == Moved(p, s + {x}, v)
  {
    if v == Working {
      assert (p.working + s) + {x} == p.working + (s + {x});
      assert (p.failed - s) - {x} == p.failed - (s + {x});
    } else {
      assert (p.working - s) - {x} == p.working - (s + {x});
      assert (p.failed + s) + {x} == p.failed + (s + {x});
    }
  }

  /**
    The directives of a block (repairs first, then failures), applied one by one,
    are each consistent and lead exactly to the evolved population.
  */
  lemma ReplayTransition<T>(p: Population<T>, t: Transition<T>, repairs: seq<T>, failures: seq<T>)
    requires p.working !! p.failed && Admissible(p, t)
    requires Enumerates(repairs, t.repaired) && Enumerates(failures, t.newFailed)
    ensures CanMarkAll(p, repairs, Working)
    ensures CanMarkAll(MarkAll(p, repairs, Working), failures, Disabled)
    ensures MarkAll(MarkAll(p, repairs, Working), failures, Disabled) == Evolve(p, t)
  {
    MarkAllSet(p, repairs, t.repaired, Working);
    var mid := MarkAll(p, repairs, Working);
    MarkAllSet(mid, failures, t.newFailed, Disabled);
  }

  /** Every directive of the block is consistent with the state it is applied to. */
  predicate Playable(s: FaultState, b: Block)
  {
    && CanMarkAll(s.links, b.repairedLinks, Working)
    && CanMarkAll(MarkAll(s.links, b.repairedLinks, Working), b.failedLinks, Disabled)
    && CanMarkAll(s.nodes, b.repairedNodes, Working)
    && CanMarkAll(MarkAll(s.nodes, b.repairedNodes, Working), b.failedNodes, Disabled)
  }

  /** The state after the directives of the block. */
  function Replay(s: FaultState, b: Block): (s': FaultState)
  {
    FaultState(
      MarkAll(MarkAll(s.links, b.repairedLinks, Working), b.failedLinks, Disabled),
      MarkAll(MarkAll(s.nodes, b.repairedNodes, Working), b.failedNodes, Disabled))
  }

  /** The state after the directives of all blocks, in order. */
  function ReplayAll(s: FaultState, bs: seq<Block>): (s': FaultState)
  {
    if bs == [] then s else Replay(ReplayAll(s, bs[..|bs| - 1]), bs[|bs| - 1])
  }

  /**
    The document agrees with the state it describes: every directive of every
    block is consistent with the state reached by the blocks before it, and the
    comment of each block carries the numbers of failed links and failed nodes
    after that block.
  */
  ghost predicate Consistent(s: FaultState, bs: seq<Block>)
  {
    bs == [] ||
    (var front, b := bs[..|bs| - 1], bs[|bs| - 1];
     && Consistent(s, front)
     && Playable(ReplayAll(s, front), b)
     && b.linkFailures == |ReplayAll(s, bs).links.failed|
     && b.nodeFailures == |ReplayAll(s, bs).nodes.failed|)
  }

  /** Appending a block that agrees with the state reached so far keeps the document consistent. */
  lemma ConsistentSnoc(s: FaultState, bs: seq<Block>, b: Block)
    requires Consistent(s, bs) && Playable(ReplayAll(s, bs), b)
    requires b.linkFailures == |Replay(ReplayAll(s, bs), b).links.failed|
    requires b.nodeFailures == |Replay(ReplayAll(s, bs), b).nodes.failed|
    ensures ReplayAll(s, bs + [b]) == Replay(ReplayAll(s, bs), b)
    ensures Consistent(s, bs + [b])
  {
    assert (bs + [b])[..|bs|] == bs;
  }

  /** A block with no directive. */
  predicate NoDirectives(b: Block)
  {
    b.repairedLinks == [] && b.failedLinks == [] && b.repairedNodes == [] && b.failedNodes == []
  }

  // ---------------------------------------------------------------------------
  // Phase timing

  /** `warmup` when given, else 0 (command.py:57-59). */
  function WarmupOf(cfg: Config): (w: int)
  {
    if cfg.warmup.Some? then cfg.warmup.value else 0
  }

  /** `(simtime - warmup) / phases`, in exact arithmetic. */
  function PhaseLength(simtime: int, warmup: int, phases: int): (len: real)
    requires phases != 0
  {
    (simtime - warmup) as real / phases as real
  }

  /** `phase * phase_length + warmup`. */
  function PhaseStart(simtime: int, warmup: int, phases: int, phase: int): (t: real)
    requires phases != 0
  {
    phase as real * PhaseLength(simtime, warmup, phases) + warmup as real
  }

  /** `(phase + 1) * phase_length + warmup`. */
  function PhaseEnd(simtime: int, warmup: int, phases: int, phase: int): (t: real)
    requires phases != 0
  {
    (phase + 1) as real * PhaseLength(simtime, warmup, phases) + warmup as real
  }

  /**
    The phases tile the interval from `warmup` to `simtime`: the first starts at
    `warmup`, each ends where the next starts, and the last ends at `simtime`.
  */
  lemma PhasesTile(simtime: int, warmup: int, phases: int)
    requires phases > 0
    ensures PhaseStart(simtime, warmup, phases, 0) == warmup as real
    ensures forall i :: PhaseEnd(simtime, warmup, phases, i) == PhaseStart(simtime, warmup, phases, i + 1)
    ensures PhaseEnd(simtime, warmup, phases, phases - 1) == simtime as real
  {
    var len := PhaseLength(simtime, warmup, phases);
    assert phases as real * len == (simtime - warmup) as real;
  }

  /** When the simulation outlasts the warm-up, later phases start strictly later. */
  lemma PhaseStartsIncrease(simtime: int, warmup: int, phases: int, i: int, j: int)
    requires phases > 0 && warmup < simtime && i < j
    ensures PhaseStart(simtime, warmup, phases, i) < PhaseStart(simtime, warmup, phases, j)
  {
    var len := PhaseLength(simtime, warmup, phases);
    assert len > 0.0;
    assert PhaseStart(simtime, warmup, phases, j) - PhaseStart(simtime, warmup, phases, i) == (j - i) as real * len;
    assert (j - i) as real * len >= len;
  }

  /** Block `i` is written at the start of phase `i`, rounded to whole seconds. */
  ghost predicate Timed(bs: seq<Block>, simtime: int, warmup: int, phases: int)
  {
    phases != 0 &&
    forall i :: 0 <= i < |bs| ==> bs[i].at == RoundHalfEven(PhaseStart(simtime, warmup, phases, i))
  }

  lemma TimedSnoc(bs: seq<Block>, b: Block, simtime: int, warmup: int, phases: int)
    requires Timed(bs, simtime, warmup, phases)
    requires b.at == RoundHalfEven(PhaseStart(simtime, warmup, phases, |bs|))
    ensures Timed(bs + [b], simtime, warmup, phases)
  {
    forall i | 0 <= i < |bs| + 1
      ensures (bs + [b])[i].at == RoundHalfEven(PhaseStart(simtime, warmup, phases, i))
    {
      if i < |bs| {
        assert (bs + [b])[i] == bs[i];
      }
    }
  }

  /**
    Python's `round` on a float: the nearest integer, ties to the even one.
  */
  function RoundHalfEven(x: real): (n: int)
    ensures x - 0.5 <= n as real <= x + 0.5
    ensures (n as real - x == 0.5 || x - n as real == 0.5) ==> n % 2 == 0
  {
    var f := x.Floor;
    var d := x - f as real;
    if d < 0.5 then f
    else if d > 0.5 then f + 1
    else if f % 2 == 0 then f else f + 1
  }

  /** The two properties of RoundHalfEven determine its result. */
  lemma RoundHalfEvenUnique(x: real, n: int)
    requires x - 0.5 <= n as real <= x + 0.5
    requires (n as real - x == 0.5 || x - n as real == 0.5) ==> n % 2 == 0
    ensures n == RoundHalfEven(x)
  {
    var r := RoundHalfEven(x);
    assert -1 <= n - r <= 1;
  }

  // ---------------------------------------------------------------------------
  // The generator

  /**
    The trial passes of one phase (command.py:84-123): the link passes, then the
    node passes. Draws are numbered from `draw`, first the working links, then
    the failed links, the working nodes and the failed nodes.
  */
  method DrawPhase(s: FaultState, oracle: Oracle, probs: Probabilities, draw: nat)
    returns (lt: Transition<Link>, nt: Transition<Node>, next: nat)
    ensures Admissible(s.links, lt) && Admissible(s.nodes, nt)
    ensures |lt.newFailed| == CountTrue(oracle, probs.linkFail, draw, |s.links.working|)
    ensures |lt.repaired| == CountTrue(oracle, probs.linkRepair, draw + |s.links.working|, |s.links.failed|)
    ensures |nt.newFailed|
      == CountTrue(oracle, probs.nodeFail, draw + |s.links.working| + |s.links.failed|, |s.nodes.working|)
    ensures |nt.repaired|
      == CountTrue(oracle, probs.nodeRepair, draw + |s.links.working| + |s.links.failed| + |s.nodes.working|, |s.nodes.failed|)
    ensures next == draw + |s.links.working| + |s.links.failed| + |s.nodes.working| + |s.nodes.failed|
    ensures
      && Quiet(oracle, probs.linkFail, draw, |s.links.working|)
      && Quiet(oracle, probs.linkRepair, draw + |s.links.working|, |s.links.failed|)
      ==> lt == Transition({}, {}) && Evolve(s.links, lt) == s.links
    ensures
      && Quiet(oracle, probs.nodeFail, draw + |s.links.working| + |s.links.failed|, |s.nodes.working|)
      && Quiet(oracle, probs.nodeRepair, draw + |s.links.working| + |s.links.failed| + |s.nodes.working|, |s.nodes.failed|)
      ==> nt == Transition({}, {}) && Evolve(s.nodes, nt) == s.nodes
  {
    var afterLinks;
    lt, afterLinks := StepPopulation(s.links, oracle, probs.linkFail, probs.linkRepair, draw);
    nt, next := StepPopulation(s.nodes, oracle, probs.nodeFail, probs.nodeRepair, afterLinks);
  }

  /**
    The block that describes a phase (command.py:127-137): the comment with the
    failure counts after the phase, the rounded start time, and the repaired
    links, failed links, repaired nodes and failed nodes, each in set iteration
    order.
  */
  method WriteBlock(s: FaultState, lt: Transition<Link>, nt: Transition<Node>, start: real) returns (b: Block)
    requires s.links.working !! s.links.failed && s.nodes.working !! s.nodes.failed
    requires Admissible(s.links, lt) && Admissible(s.nodes, nt)
    ensures Enumerates(b.repairedLinks, lt.repaired) && Enumerates(b.failedLinks, lt.newFailed)
    ensures Enumerates(b.repairedNodes, nt.repaired) && Enumerates(b.failedNodes, nt.newFailed)
    ensures b.at == RoundHalfEven(start)
    ensures b.linkFailures == |Evolve(s.links, lt).failed| && b.nodeFailures == |Evolve(s.nodes, nt).failed|
    ensures Playable(s, b) && Replay(s, b) == FaultState(Evolve(s.links, lt), Evolve(s.nodes, nt))
    ensures lt == Transition({}, {}) && nt == Transition({}, {}) ==> NoDirectives(b) && Replay(s, b) == s
  {
    var repairedLinks := Enumerate(lt.repaired);
    var failedLinks := Enumerate(lt.newFailed);
    var repairedNodes := Enumerate(nt.repaired);
    var failedNodes := Enumerate(nt.newFailed);
    b := Block(|Evolve(s.links, lt).failed|, |Evolve(s.nodes, nt).failed|, RoundHalfEven(start),
               repairedLinks, failedLinks, repairedNodes, failedNodes);
    BlockReplays(s, lt, nt, b);
    if lt == Transition({}, {}) && nt == Transition({}, {}) {
      QuietBlock(s, b);
    }
  }

  /**
    Block `b` was drawn from state `s` with draws numbered from `d`: its failed
    links are distinct working links and its repaired links distinct failed
    links, as many as the true answers of their windows of draws (working
    links, failed links, working nodes, failed nodes, in that order), and the
    same for the nodes.
  */
  predicate PhaseDrawn(oracle: Oracle, probs: Probabilities, s: FaultState, d: nat, b: Block)
  {
    && Distinct(b.failedLinks) && Elems(b.failedLinks) <= s.links.working
    && Distinct(b.repairedLinks) && Elems(b.repairedLinks) <= s.links.failed
    && Distinct(b.failedNodes) && Elems(b.failedNodes) <= s.nodes.working
    && Distinct(b.repairedNodes) && Elems(b.repairedNodes) <= s.nodes.failed
    && |b.failedLinks| == CountTrue(oracle, probs.linkFail, d, |s.links.working|)
    && |b.repairedLinks| == CountTrue(oracle, probs.linkRepair, d + |s.links.working|, |s.links.failed|)
    && |b.failedNodes| == CountTrue(oracle, probs.nodeFail, d + |s.links.working| + |s.links.failed|, |s.nodes.working|)
    && |b.repairedNodes|
       == CountTrue(oracle, probs.nodeRepair, d + |s.links.working| + |s.links.failed| + |s.nodes.working|, |s.nodes.failed|)
  }

  /** The block written for the drawn transitions of a phase was drawn from the state before it. */
  lemma DrawnBlock(oracle: Oracle, probs: Probabilities, s: FaultState, d: nat,
                   lt: Transition<Link>, nt: Transition<Node>, b: Block)
    requires Admissible(s.links, lt) && Admissible(s.nodes, nt)
    requires |lt.newFailed| == CountTrue(oracle, probs.linkFail, d, |s.links.working|)
    requires |lt.repaired| == CountTrue(oracle, probs.linkRepair, d + |s.links.working|, |s.links.failed|)
    requires |nt.newFailed|
      == CountTrue(oracle, probs.nodeFail, d + |s.links.working| + |s.links.failed|, |s.nodes.working|)
    requires |nt.repaired|
      == CountTrue(oracle, probs.nodeRepair, d + |s.links.working| + |s.links.failed| + |s.nodes.working|, |s.nodes.failed|)
    requires Enumerates(b.repairedLinks, lt.repaired) && Enumerates(b.failedLinks, lt.newFailed)
    requires Enumerates(b.repairedNodes, nt.repaired) && Enumerates(b.failedNodes, nt.newFailed)
    ensures PhaseDrawn(oracle, probs, s, d, b)
  {
    EnumeratesSize(b.repairedLinks, lt.repaired);
    EnumeratesSize(b.failedLinks, lt.newFailed);
    EnumeratesSize(b.repairedNodes, nt.repaired);
    EnumeratesSize(b.failedNodes, nt.newFailed);
  }

  /** The first draw of phase `i` when every phase takes `perPhase` draws. */
  function DrawOffset(i: nat, perPhase: nat): (d: nat)
  {
    i * perPhase
  }

  /**
    Block `b`, written after the blocks `front`, was drawn from the state they
    reach, which partitions both universes, with the draws of its own phase.
  */
  ghost predicate BlockDrawn(oracle: Oracle, probs: Probabilities, satcount: int, s: FaultState,
                             front: seq<Block>, b: Block, perPhase: nat)
  {
    var before := ReplayAll(s, front);
    && Partition(before.links, LinkUniverse(satcount)) && Partition(before.nodes, NodeUniverse(satcount))
    && PhaseDrawn(oracle, probs, before, DrawOffset(|front|, perPhase), b)
  }

  /** Every block of `bs` was drawn from the state the blocks before it reach. */
  ghost predicate Drawn(oracle: Oracle, probs: Probabilities, satcount: int, s: FaultState, bs: seq<Block>, perPhase: nat)
  {
    bs == [] ||
    (Drawn(oracle, probs, satcount, s, bs[..|bs| - 1], perPhase)
     && BlockDrawn(oracle, probs, satcount, s, bs[..|bs| - 1], bs[|bs| - 1], perPhase))
  }

  /** Appending a block drawn from the reached, partitioned state with the next window of draws. */
  lemma DrawnSnoc(oracle: Oracle, probs: Probabilities, satcount: int, s: FaultState, bs: seq<Block>, b: Block, perPhase: nat)
    requires Drawn(oracle, probs, satcount, s, bs, perPhase)
    requires Partition(ReplayAll(s, bs).links, LinkUniverse(satcount))
    requires Partition(ReplayAll(s, bs).nodes, NodeUniverse(satcount))
    requires PhaseDrawn(oracle, probs, ReplayAll(s, bs), DrawOffset(|bs|, perPhase), b)
    ensures Drawn(oracle, probs, satcount, s, bs + [b], perPhase)
  {
    assert (bs + [b])[..|bs|] == bs;
  }

  /** Block `i` of a drawn document was drawn after the blocks before it. */
  lemma {:induction false} DrawnAt(oracle: Oracle, probs: Probabilities, satcount: int, s: FaultState,
                                   bs: seq<Block>, perPhase: nat, i: nat)
    requires Drawn(oracle, probs, satcount, s, bs, perPhase) && i < |bs|
    ensures BlockDrawn(oracle, probs, satcount, s, bs[..i], bs[i], perPhase)
    decreases |bs|
  {
    var front := bs[..|bs| - 1];
    if i != |bs| - 1 {
      PrefixOfPrefix(bs, |bs| - 1, i);
      DrawnAt(oracle, probs, satcount, s, front, perPhase, i);
    }
  }

  /** A prefix of a prefix is a prefix, with the same elements. */
  lemma PrefixOfPrefix<T>(xs: seq<T>, n: nat, i: nat)
    requires i < n <= |xs|
    ensures xs[..n][..i] == xs[..i] && xs[..n][i] == xs[i]
  {
  }

  /**
    Under an oracle that answers true for every failure draw, the first phase
    fails every link and every node.
  */
  lemma AllFailFirstPhase(cfg: Config, oracle: Oracle, bs: seq<Block>)
    requires Drawn(oracle, cfg.probs, cfg.satcount, InitialState(cfg.satcount), bs, 5 * Max0(cfg.satcount)) && bs != []
    requires forall k: nat :: oracle(k, cfg.probs.linkFail) && oracle(k, cfg.probs.nodeFail)
    ensures Elems(bs[0].failedLinks) == LinkUniverse(cfg.satcount)
    ensures Elems(bs[0].failedNodes) == NodeUniverse(cfg.satcount)
  {
    var init := InitialState(cfg.satcount);
    DrawnAt(oracle, cfg.probs, cfg.satcount, init, bs, 5 * Max0(cfg.satcount), 0);
    assert bs[..0] == [];
    assert PhaseDrawn(oracle, cfg.probs, init, 0, bs[0]);
    AllFailuresDrawn(oracle, cfg.probs, init, 0, bs[0]);
  }

  /** One turn of the phase loop keeps every block drawn, with `5 * satcount` draws per phase. */
  lemma DrawnStep(oracle: Oracle, probs: Probabilities, satcount: int, init: FaultState, bs: seq<Block>,
                  s: FaultState, b: Block, draw: nat, next: nat)
    requires Drawn(oracle, probs, satcount, init, bs, 5 * Max0(satcount)) && ReplayAll(init, bs) == s
    requires Partition(s.links, LinkUniverse(satcount)) && Partition(s.nodes, NodeUniverse(satcount))
    requires draw == |bs| * (5 * Max0(satcount)) && PhaseDrawn(oracle, probs, s, draw, b)
    requires next == draw + |s.links.working| + |s.links.failed| + |s.nodes.working| + |s.nodes.failed|
    ensures Drawn(oracle, probs, satcount, init, bs + [b], 5 * Max0(satcount))
    ensures next == (|bs| + 1) * (5 * Max0(satcount))
  {
    var perPhase := 5 * Max0(satcount);
    DrawnSnoc(oracle, probs, satcount, init, bs, b, perPhase);
    PhaseDraws(s, satcount);
    assert (|bs| + 1) * perPhase == |bs| * perPhase + perPhase;
  }

  /** A phase from a partitioned state draws once per link and once per node: `5 * satcount` draws. */
  lemma PhaseDraws(s: FaultState, satcount: int)
    requires Partition(s.links, LinkUniverse(satcount)) && Partition(s.nodes, NodeUniverse(satcount))
    ensures |s.links.working| + |s.links.failed| + |s.nodes.working| + |s.nodes.failed| == 5 * Max0(satcount)
  {
    PartitionSize(s.links, LinkUniverse(satcount));
    PartitionSize(s.nodes, NodeUniverse(satcount));
    LinkUniverseSize(satcount);
    NodeUniverseSize(satcount);
  }

  /** A window whose draws all answer true counts every one of its draws. */
  lemma {:induction false} AllTrueCount(oracle: Oracle, p: real, from: nat, n: nat)
    requires forall k: nat :: from <= k < from + n ==> oracle(k, p)
    ensures CountTrue(oracle, p, from, n) == n
  {
    if n > 0 {
      AllTrueCount(oracle, p, from, n - 1);
    }
  }

  /** A subset as large as its superset is the superset. */
  lemma SubsetOfSameSize<T>(a: set<T>, b: set<T>)
    requires a <= b && |a| == |b|
    ensures a == b
  {
    assert b == a + (b - a);
    assert |b - a| == 0;
  }

  /**
    Under an oracle that answers true for every failure draw, a phase fails
    every link and every node that was working before it.
  */
  lemma AllFailuresDrawn(oracle: Oracle, probs: Probabilities, s: FaultState, d: nat, b: Block)
    requires PhaseDrawn(oracle, probs, s, d, b)
    requires forall k: nat :: oracle(k, probs.linkFail) && oracle(k, probs.nodeFail)
    ensures Elems(b.failedLinks) == s.links.working && Elems(b.failedNodes) == s.nodes.working
  {
    AllTrueCount(oracle, probs.linkFail, d, |s.links.working|);
    AllTrueCount(oracle, probs.nodeFail, d + |s.links.working| + |s.links.failed|, |s.nodes.working|);
    EnumeratesSize(b.failedLinks, Elems(b.failedLinks));
    EnumeratesSize(b.failedNodes, Elems(b.failedNodes));
    SubsetOfSameSize(Elems(b.failedLinks), s.links.working);
    SubsetOfSameSize(Elems(b.failedNodes), s.nodes.working);
  }

  /**
    One phase (command.py:84-137): the trial passes and the block describing
    their outcome, which replays to the evolved state. Under an oracle that
    never fails anything, a phase that starts with nothing failed changes
    nothing and writes no directive.
  */
  method RunPhase(s: FaultState, oracle: Oracle, probs: Probabilities, draw: nat, start: real)
    returns (lt: Transition<Link>, nt: Transition<Node>, b: Block, next: nat)
    requires s.links.working !! s.links.failed && s.nodes.working !! s.nodes.failed
    ensures Admissible(s.links, lt) && Admissible(s.nodes, nt)
    ensures next == draw + |s.links.working| + |s.links.failed| + |s.nodes.working| + |s.nodes.failed|
    ensures b.at == RoundHalfEven(start)
    ensures b.linkFailures == |Evolve(s.links, lt).failed| && b.nodeFailures == |Evolve(s.nodes, nt).failed|
    ensures Playable(s, b) && Replay(s, b) == FaultState(Evolve(s.links, lt), Evolve(s.nodes, nt))
    ensures NeverFails(oracle, probs) && s.links.failed == {} && s.nodes.failed == {} ==>
      lt == Transition({}, {}) && nt == Transition({}, {}) && NoDirectives(b) && Replay(s, b) == s
    ensures PhaseDrawn(oracle, probs, s, draw, b)
  {
    lt, nt, next := DrawPhase(s, oracle, probs, draw);
    b := WriteBlock(s, lt, nt, start);
    DrawnBlock(oracle, probs, s, draw, lt, nt, b);
    if NeverFails(oracle, probs) && s.links.failed == {} && s.nodes.failed == {} {
      NeverFailsQuiet(oracle, probs, s, draw);
    }
  }

  /** The directives of a phase's block, replayed on the state before it, give the evolved state. */
  lemma BlockReplays(s: FaultState, lt: Transition<Link>, nt: Transition<Node>, b: Block)
    requires s.links.working !! s.links.failed && s.nodes.working !! s.nodes.failed
    requires Admissible(s.links, lt) && Admissible(s.nodes, nt)
    requires Enumerates(b.repairedLinks, lt.repaired) && Enumerates(b.failedLinks, lt.newFailed)
    requires Enumerates(b.repairedNodes, nt.repaired) && Enumerates(b.failedNodes, nt.newFailed)
    ensures Playable(s, b) && Replay(s, b) == FaultState(Evolve(s.links, lt), Evolve(s.nodes, nt))
  {
    ReplayTransition(s.links, lt, b.repairedLinks, b.failedLinks);
    ReplayTransition(s.nodes, nt, b.repairedNodes, b.failedNodes);
  }

  /** A block that enumerates empty transitions has no directives and changes nothing. */
  lemma QuietBlock(s: FaultState, b: Block)
    requires Enumerates(b.repairedLinks, {}) && Enumerates(b.failedLinks, {})
    requires Enumerates(b.repairedNodes, {}) && Enumerates(b.failedNodes, {})
    ensures NoDirectives(b) && Replay(s, b) == s
  {
    EnumeratesSize(b.repairedLinks, {});
    EnumeratesSize(b.failedLinks, {});
    EnumeratesSize(b.repairedNodes, {});
    EnumeratesSize(b.failedNodes, {});
  }

  /** The oracle never lets a working link or a working node fail. */
  ghost predicate NeverFails(oracle: Oracle, probs: Probabilities)
  {
    forall k: nat :: !oracle(k, probs.linkFail) && !oracle(k, probs.nodeFail)
  }

  /** Under an oracle that never fails anything, every pass of a phase that starts with nothing failed is quiet. */
  lemma NeverFailsQuiet(oracle: Oracle, probs: Probabilities, s: FaultState, draw: nat)
    requires NeverFails(oracle, probs) && s.links.failed == {} && s.nodes.failed == {}
    ensures Quiet(oracle, probs.linkFail, draw, |s.links.working|)
    ensures Quiet(oracle, probs.linkRepair, draw + |s.links.working|, |s.links.failed|)
    ensures Quiet(oracle, probs.nodeFail, draw + |s.links.working| + |s.links.failed|, |s.nodes.working|)
    ensures Quiet(oracle, probs.nodeRepair, draw + |s.links.working| + |s.links.failed| + |s.nodes.working|, |s.nodes.failed|)
  {
  }

  /** Appending an empty block with zero counts keeps every block empty with zero counts. */
  lemma QuietSnoc(bs: seq<Block>, b: Block)
    requires forall i :: 0 <= i < |bs| ==> NoDirectives(bs[i]) && bs[i].linkFailures == 0 && bs[i].nodeFailures == 0
    requires NoDirectives(b) && b.linkFailures == 0 && b.nodeFailures == 0
    ensures forall i :: 0 <= i < |bs + [b]| ==>
      NoDirectives((bs + [b])[i]) && (bs + [b])[i].linkFailures == 0 && (bs + [b])[i].nodeFailures == 0
  {
    forall i | 0 <= i < |bs + [b]|
      ensures NoDirectives((bs + [b])[i]) && (bs + [b])[i].linkFailures == 0 && (bs + [b])[i].nodeFailures == 0
    {
      if i < |bs| {
        assert (bs + [b])[i] == bs[i];
      }
    }
  }

  /**
    What the phase loop maintains after the blocks `blocks`, in state `s`, with
    `draw` draws taken: the state partitions both universes and is the one the
    blocks reach, every block agrees with the state before it, is timed, and
    was drawn from its own window of `5 * satcount` draws, and, under an oracle
    that never fails anything, nothing has changed and every block is empty.
  */
  ghost predicate PhaseLoop(cfg: Config, oracle: Oracle, blocks: seq<Block>, s: FaultState, draw: nat)
  {
    var init := InitialState(cfg.satcount);
    && Partition(s.links, LinkUniverse(cfg.satcount)) && Partition(s.nodes, NodeUniverse(cfg.satcount))
    && Consistent(init, blocks) && ReplayAll(init, blocks) == s
    && Timed(blocks, cfg.simtime, WarmupOf(cfg), cfg.phases)
    && draw == |blocks| * (5 * Max0(cfg.satcount))
    && Drawn(oracle, cfg.probs, cfg.satcount, init, blocks, 5 * Max0(cfg.satcount))
    && (NeverFails(oracle, cfg.probs) ==>
         && s == init
         && forall i :: 0 <= i < |blocks| ==>
              NoDirectives(blocks[i]) && blocks[i].linkFailures == 0 && blocks[i].nodeFailures == 0)
  }

  /** Before the first phase the loop's state is the initial one. */
  lemma PhaseLoopStart(cfg: Config, oracle: Oracle)
    requires cfg.phases != 0
    ensures PhaseLoop(cfg, oracle, [], InitialState(cfg.satcount), 0)
  {
  }

  /**
    One turn of the phase loop keeps what the loop maintains, and decides the
    two size assertions by the sign of `satcount`.
  */
  lemma PhaseStep(cfg: Config, oracle: Oracle, blocks: seq<Block>, s: FaultState, draw: nat,
                  lt: Transition<Link>, nt: Transition<Node>, b: Block, next: nat)
    requires PhaseLoop(cfg, oracle, blocks, s, draw)
    requires Admissible(s.links, lt) && Admissible(s.nodes, nt)
    requires next == draw + |s.links.working| + |s.links.failed| + |s.nodes.working| + |s.nodes.failed|
    requires b.at == RoundHalfEven(PhaseStart(cfg.simtime, WarmupOf(cfg), cfg.phases, |blocks|))
    requires b.linkFailures == |Evolve(s.links, lt).failed| && b.nodeFailures == |Evolve(s.nodes, nt).failed|
    requires Playable(s, b) && Replay(s, b) == FaultState(Evolve(s.links, lt), Evolve(s.nodes, nt))
    requires NeverFails(oracle, cfg.probs) && s.links.failed == {} && s.nodes.failed == {} ==>
      lt == Transition({}, {}) && nt == Transition({}, {}) && NoDirectives(b) && Replay(s, b) == s
    requires PhaseDrawn(oracle, cfg.probs, s, draw, b)
    ensures PhaseLoop(cfg, oracle, blocks + [b], FaultState(Evolve(s.links, lt), Evolve(s.nodes, nt)), next)
    ensures |Evolve(s.links, lt).working| + |Evolve(s.links, lt).failed| == cfg.satcount * 4 <==> cfg.satcount >= 0
    ensures |Evolve(s.nodes, nt).working| + |Evolve(s.nodes, nt).failed| == cfg.satcount <==> cfg.satcount >= 0
  {
    var init := InitialState(cfg.satcount);
    EvolveKeepsPartition(s.links, lt, LinkUniverse(cfg.satcount));
    EvolveKeepsPartition(s.nodes, nt, NodeUniverse(cfg.satcount));
    SizeAssertions(Evolve(s.links, lt), Evolve(s.nodes, nt), cfg.satcount);
    ConsistentSnoc(init, blocks, b);
    TimedSnoc(blocks, b, cfg.simtime, WarmupOf(cfg), cfg.phases);
    DrawnStep(oracle, cfg.probs, cfg.satcount, init, blocks, s, b, draw, next);
    if NeverFails(oracle, cfg.probs) {
      QuietSnoc(blocks, b);
    }
  }

  /**
    `__create_failures`: the blocks of the scenario document, in phase order.
    The document is `<scenario>`, these blocks and `</scenario>`; there is no
    closing block that repairs what is still failed.
  */
  method CreateFailures(cfg: Config, oracle: Oracle) returns (r: Result<seq<Block>, Error>)
    ensures r == Err(ZeroDivision) <==> cfg.phases == 0
    ensures r == Err(AssertionFailed) <==> cfg.phases > 0 && cfg.satcount < 0
    ensures r.Ok? ==> |r.value| == Max0(cfg.phases)
    ensures r.Ok? ==> Timed(r.value, cfg.simtime, WarmupOf(cfg), cfg.phases)
    ensures r.Ok? ==> Consistent(InitialState(cfg.satcount), r.value)
    ensures r.Ok? ==>
      var last := ReplayAll(InitialState(cfg.satcount), r.value);
      Partition(last.links, LinkUniverse(cfg.satcount)) && Partition(last.nodes, NodeUniverse(cfg.satcount))
    ensures r.Ok? ==> Drawn(oracle, cfg.probs, cfg.satcount, InitialState(cfg.satcount), r.value, 5 * Max0(cfg.satcount))
    ensures r.Ok? && NeverFails(oracle, cfg.probs) ==>
      forall i :: 0 <= i < |r.value| ==> NoDirectives(r.value[i]) && r.value[i].linkFailures == 0 && r.value[i].nodeFailures == 0
  {
    var warmup := WarmupOf(cfg);
    if cfg.phases == 0 {
      return Err(ZeroDivision);
    }
    var init := InitialState(cfg.satcount);
    var links, nodes := init.links, init.nodes;
    var blocks: seq<Block> := [];
    var draw: nat := 0;
    var phase := 0;
    PhaseLoopStart(cfg, oracle);
    while phase < cfg.phases
      invariant 0 <= phase <= Max0(cfg.phases)
      invariant phase > 0 ==> cfg.satcount >= 0
      invariant |blocks| == phase
      invariant PhaseLoop(cfg, oracle, blocks, FaultState(links, nodes), draw)
    {
      var start := PhaseStart(cfg.simtime, warmup, cfg.phases, phase);
      var s := FaultState(links, nodes);
      var lt, nt, b, next := RunPhase(s, oracle, cfg.probs, draw, start);
      PhaseStep(cfg, oracle, blocks, s, draw, lt, nt, b, next);
      links := Evolve(links, lt);
      if |links.working| + |links.failed| != cfg.satcount * 4 {
        return Err(AssertionFailed);
      }
      nodes := Evolve(nodes, nt);
      if |nodes.working| + |nodes.failed| != cfg.satcount {
        return Err(AssertionFailed);
      }
      blocks, draw, phase := blocks + [b], next, phase + 1;
    }
    return Ok(blocks);
  }
}
