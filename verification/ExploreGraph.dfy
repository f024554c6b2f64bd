/** The explorer's node graph: built by successive calls, walked by the runtime, and the same as the crawl's loop. */
module ExploreGraph {
  import opened Common
  import opened Budget
  import opened Actions
  import opened Crawl

  datatype Node =
    | Start | CheckCancelStep | NavigateStep | PerceiveStep | EnumerateStep
    | DecideStep | ActStep | PersistStep | ConvergeStep | End

  /** A plain edge, or the conditional one that asks should_continue. */
  datatype Edge = To(next: Node) | Ask(loop: Node, halt: Node)

  /** The nodes and edges recorded so far. */
  class StateGraph {
    var nodes: seq<Node>
    var edges: seq<(Node, Edge)>

    constructor ()
      ensures nodes == [] && edges == []
    {
      nodes, edges := [], [];
    }

    method AddNode(n: Node)
      modifies `nodes
      ensures nodes == old(nodes) + [n]
    {
      nodes := nodes + [n];
    }

    method AddEdge(from: Node, next: Node)
      modifies `edges
      ensures edges == old(edges) + [(from, To(next))]
    {
      edges := edges + [(from, To(next))];
    }

    method AddConditionalEdges(from: Node, loop: Node, halt: Node)
      modifies `edges
      ensures edges == old(edges) + [(from, Ask(loop, halt))]
    {
      edges := edges + [(from, Ask(loop, halt))];
    }
  }

  const NODES := [CheckCancelStep, NavigateStep, PerceiveStep, EnumerateStep,
                  DecideStep, ActStep, PersistStep, ConvergeStep]

  const WIRING := [
    (Start, To(CheckCancelStep)),
    (CheckCancelStep, Ask(NavigateStep, End)),
    (NavigateStep, To(PerceiveStep)),
    (PerceiveStep, To(EnumerateStep)),
    (EnumerateStep, To(DecideStep)),
    (DecideStep, To(ActStep)),
    (ActStep, To(PersistStep)),
    (PersistStep, To(ConvergeStep)),
    (ConvergeStep, Ask(CheckCancelStep, End))]

  method BuildExplorerGraph() returns (g: StateGraph)
    ensures fresh(g) && g.nodes == NODES && g.edges == WIRING
  {
    g := new StateGraph();
    g.AddNode(CheckCancelStep);
    g.AddNode(NavigateStep);
    g.AddNode(PerceiveStep);
    g.AddNode(EnumerateStep);
    g.AddNode(DecideStep);
    g.AddNode(ActStep);
    g.AddNode(PersistStep);
    g.AddNode(ConvergeStep);
    g.AddEdge(Start, CheckCancelStep);
    g.AddConditionalEdges(CheckCancelStep, NavigateStep, End);
    g.AddEdge(NavigateStep, PerceiveStep);
    g.AddEdge(PerceiveStep, EnumerateStep);
    g.AddEdge(EnumerateStep, DecideStep);
    g.AddEdge(DecideStep, ActStep);
    g.AddEdge(ActStep, PersistStep);
    g.AddEdge(PersistStep, ConvergeStep);
    g.AddConditionalEdges(ConvergeStep, CheckCancelStep, End);
  }

  // ----- Walking the graph -----

  function Visit(n: Node, w: World, t: Target, b: Caps, i: nat, s: State): State {
    match n
    case CheckCancelStep => CheckCancel(w, i, s)
    case NavigateStep => Navigate(w, i, s)
    case PerceiveStep => Perceive(w, i, s)
    case EnumerateStep => Enumerate(w, t, i, s)
    case DecideStep => Decide(w, i, s)
    case ActStep => Act(w, t, i, s)
    case PersistStep => s
    case ConvergeStep => Converge(w, i, s, b)
    case _ => s
  }

  /** The edge leaving a node; none leaves the end. */
  function EdgeFrom(edges: seq<(Node, Edge)>, n: Node): Option<Edge> {
    if edges == [] then None else if edges[0].0 == n then Some(edges[0].1) else EdgeFrom(edges[1..], n)
  }

  /** Where the runtime is: the node to run next, the turn it is in, and the state. */
  datatype Point = Point(node: Node, turn: nat, state: State)

  /** One node visit, then its edge. An exception in a node (`Failed`) ends the walk. */
  function Move(p: Point, edges: seq<(Node, Edge)>, w: World, t: Target, b: Caps): Point {
    var edge := EdgeFrom(edges, p.node);
    if edge.None? then p
    else
      var s := Visit(p.node, w, t, b, p.turn, p.state);
      var next :=
        if s.stop == Some(Failed) then End
        else if edge.value.To? then edge.value.next
        else if s.stop.Some? then edge.value.halt else edge.value.loop;
      Point(next, if p.node == ConvergeStep then p.turn + 1 else p.turn, s)
  }

  function Walk(p: Point, edges: seq<(Node, Edge)>, w: World, t: Target, b: Caps, visits: nat): Point
    decreases visits
  {
    if visits == 0 then p else Walk(Move(p, edges, w, t, b), edges, w, t, b, visits - 1)
  }

  // ----- The walk is the loop -----

  /** The wiring as a function of the node. */
  function Follow(n: Node): Option<Edge> {
    match n
    case Start => Some(To(CheckCancelStep))
    case CheckCancelStep => Some(Ask(NavigateStep, End))
    case NavigateStep => Some(To(PerceiveStep))
    case PerceiveStep => Some(To(EnumerateStep))
    case EnumerateStep => Some(To(DecideStep))
    case DecideStep => Some(To(ActStep))
    case ActStep => Some(To(PersistStep))
    case PersistStep => Some(To(ConvergeStep))
    case ConvergeStep => Some(Ask(CheckCancelStep, End))
    case End => None
  }

  lemma {:induction false} EdgeAt(edges: seq<(Node, Edge)>, n: Node, k: nat)
    requires k <= |edges| && (forall i | 0 <= i < k :: edges[i].0 != n) && (k < |edges| ==> edges[k].0 == n)
    ensures EdgeFrom(edges, n) == if k < |edges| then Some(edges[k].1) else None
  {
    if k > 0 {
      EdgeAt(edges[1..], n, k - 1);
    }
  }

  lemma WiringFollows(n: Node)
    ensures EdgeFrom(WIRING, n) == Follow(n)
  {
    var k := match n
      case Start => 0
      case CheckCancelStep => 1
      case NavigateStep => 2
      case PerceiveStep => 3
      case EnumerateStep => 4
      case DecideStep => 5
      case ActStep => 6
      case PersistStep => 7
      case ConvergeStep => 8
      case End => 9;
    EdgeAt(WIRING, n, k);
  }

  /** A move along the built graph. */
  lemma MoveIs(p: Point, w: World, t: Target, b: Caps)
    ensures var s := Visit(p.node, w, t, b, p.turn, p.state);
            Move(p, WIRING, w, t, b) ==
            if p.node == End then p
            else
              var e := Follow(p.node).value;
              Point(if s.stop == Some(Failed) then End
                    else if e.To? then e.next
                    else if s.stop.Some? then e.halt else e.loop,
                    if p.node == ConvergeStep then p.turn + 1 else p.turn, s)
  {
    WiringFollows(p.node);
  }

  lemma {:induction false} EndStays(p: Point, edges: seq<(Node, Edge)>, w: World, t: Target, b: Caps, visits: nat)
    requires EdgeFrom(edges, p.node).None?
    ensures Walk(p, edges, w, t, b, visits) == p
    decreases visits
  {
    hide Visit;
    hide EdgeFrom;
    if visits > 0 {
      EndStays(p, edges, w, t, b, visits - 1);
    }
  }

  lemma {:induction false} WalkSplits(p: Point, edges: seq<(Node, Edge)>, w: World, t: Target, b: Caps, m: nat, n: nat)
    ensures Walk(p, edges, w, t, b, m + n) == Walk(Walk(p, edges, w, t, b, m), edges, w, t, b, n)
    decreases m
  {
    hide Move;
    if m > 0 {
      WalkSplits(Move(p, edges, w, t, b), edges, w, t, b, m - 1, n);
    }
  }

  /** One visit unrolled; the end absorbs what is left. */
  lemma WalkUnrolls(p: Point, w: World, t: Target, b: Caps, visits: nat)
    requires visits > 0
    ensures Walk(p, WIRING, w, t, b, visits) == Walk(Move(p, WIRING, w, t, b), WIRING, w, t, b, visits - 1)
    ensures Move(p, WIRING, w, t, b).node == End ==> Walk(p, WIRING, w, t, b, visits) == Move(p, WIRING, w, t, b)
    ensures visits == 1 ==> Walk(p, WIRING, w, t, b, visits) == Move(p, WIRING, w, t, b)
  {
    hide Move;
    WiringFollows(End);
    hide EdgeFrom;
    if Move(p, WIRING, w, t, b).node == End {
      EndStays(Move(p, WIRING, w, t, b), WIRING, w, t, b, visits - 1);
    }
  }

  predicate AfterTurn(p: Point, i: nat, s: State) {
    p.state == s && (if s.stop.Some? then p.node == End else p.node == CheckCancelStep && p.turn == i + 1)
  }

  /** Eight visits from the loop top are one turn of the loop. */
  lemma TurnIsIterate(w: World, t: Target, b: Caps, i: nat, s: State)
    requires s.stop.None?
    ensures AfterTurn(Walk(Point(CheckCancelStep, i, s), WIRING, w, t, b, 8), i, Iterate(w, t, b, i, s))
  {
    hide EdgeFrom;
    var p1 := Point(CheckCancelStep, i, s);
    var p2 := Move(p1, WIRING, w, t, b);
    MoveIs(p1, w, t, b);
    WalkUnrolls(p1, w, t, b, 8);
    if p2.node != End {
      BodyIsBeforeConverge(w, t, b, i, p2.state);
    }
  }

  lemma BodyIsBeforeConverge(w: World, t: Target, b: Caps, i: nat, s: State)
    requires s.stop.None?
    ensures var s' := BeforeConverge(w, t, i, s);
            AfterTurn(Walk(Point(NavigateStep, i, s), WIRING, w, t, b, 7), i,
                      if s'.stop == Some(Failed) then s' else Converge(w, i, s', b))
  {
    var q := Asked(w, t, i, s);
    HeadIsAsked(w, t, b, i, s);
    AskedIsRunning(w, t, i, s);
    DecideVisit(w, t, b, i, q);
    hide *;
    BeforeConvergeIs(w, t, i, s);
    var d := Decide(w, i, q);
    WalkUnrolls(Point(DecideStep, i, q), w, t, b, 4);
    if d.stop != Some(Failed) {
      TailIsConverge(w, t, b, i, d);
    }
    AfterTurnIs(Walk(Point(DecideStep, i, q), WIRING, w, t, b, 4), i, d);
  }

  lemma AfterTurnIs(p: Point, i: nat, s: State)
    ensures s.stop.Some? && p == Point(End, i, s) ==> AfterTurn(p, i, s)
  {}

  lemma BeforeConvergeIs(w: World, t: Target, i: nat, s: State)
    ensures var d := Decide(w, i, Asked(w, t, i, s));
            && BeforeConverge(w, t, i, s) == (if d.stop == Some(Failed) then d else Act(w, t, i, d))
            && (d.stop != Some(Failed) ==> BeforeConverge(w, t, i, s).stop != Some(Failed))
  {
    hide Decide;
    hide Navigate;
    hide Perceive;
    hide Enumerate;
    if Decide(w, i, Asked(w, t, i, s)).stop != Some(Failed) {
      ActNeverFails(w, t, i, Decide(w, i, Asked(w, t, i, s)));
    }
  }

  /** Navigate, perceive and enumerate never stop a run, so the walk goes on to decide. */
  lemma HeadIsAsked(w: World, t: Target, b: Caps, i: nat, s: State)
    requires s.stop.None?
    ensures Walk(Point(NavigateStep, i, s), WIRING, w, t, b, 7) ==
            Walk(Point(DecideStep, i, Asked(w, t, i, s)), WIRING, w, t, b, 4)
  {
    hide Move;
    hide Walk;
    hide EdgeFrom;
    hide Navigate;
    hide Perceive;
    hide Enumerate;
    var s2 := Navigate(w, i, s);
    var s3 := Perceive(w, i, s2);
    var p1, p2, p3 := Point(NavigateStep, i, s), Point(PerceiveStep, i, s2), Point(EnumerateStep, i, s3);
    EarlyNodesGoOn(w, t, i, s);
    EarlyNodesGoOn(w, t, i, s2);
    EarlyNodesGoOn(w, t, i, s3);
    MoveIs(p1, w, t, b);
    MoveIs(p2, w, t, b);
    MoveIs(p3, w, t, b);
    WalkUnrolls(p1, w, t, b, 7);
    WalkUnrolls(p2, w, t, b, 6);
    WalkUnrolls(p3, w, t, b, 5);
  }

  lemma EarlyNodesGoOn(w: World, t: Target, i: nat, s: State)
    ensures Navigate(w, i, s).stop == s.stop && Perceive(w, i, s).stop == s.stop && Enumerate(w, t, i, s).stop == s.stop
  {}

  lemma DecideVisit(w: World, t: Target, b: Caps, i: nat, q: State)
    ensures var d := Decide(w, i, q);
            Move(Point(DecideStep, i, q), WIRING, w, t, b) ==
            Point(if d.stop == Some(Failed) then End else ActStep, i, d)
  {
    MoveIs(Point(DecideStep, i, q), w, t, b);
    hide Move;
    hide Decide;
    hide EdgeFrom;
  }

  lemma TailIsConverge(w: World, t: Target, b: Caps, i: nat, s: State)
    requires s.stop != Some(Failed)
    ensures AfterTurn(Walk(Point(ActStep, i, s), WIRING, w, t, b, 3), i, Converge(w, i, Act(w, t, i, s), b))
  {
    var p1 := Point(ActStep, i, s);
    var p2 := Move(p1, WIRING, w, t, b);
    var p3 := Move(p2, WIRING, w, t, b);
    MoveIs(p1, w, t, b);
    MoveIs(p2, w, t, b);
    MoveIs(p3, w, t, b);
    WalkUnrolls(p1, w, t, b, 3);
    WalkUnrolls(p2, w, t, b, 2);
    WalkUnrolls(p3, w, t, b, 1);
    hide Move;
    hide Walk;
    hide Act;
    hide Converge;
    hide EdgeFrom;
    ActNeverFails(w, t, i, s);
  }

  lemma ActNeverFails(w: World, t: Target, i: nat, s: State)
    ensures Act(w, t, i, s).stop == s.stop
    ensures forall b :: Converge(w, i, s, b).stop == Some(Failed) ==> s.stop == Some(Failed)
  {}

  /** Main result: walking the graph as it is built is running the loop. After eight visits a turn, from the start
      edge, the walk holds the loop's state, at the loop top if the run goes on and at the end if it stopped. */
  lemma {:induction false} WalkingTheGraphIsTheRun(w: World, t: Target, b: Caps, start: Url, n: nat)
    ensures var p, s := Walk(Point(Start, 0, Init(start)), WIRING, w, t, b, 1 + 8 * n), Run(w, t, b, start, n);
            p.state == s && (if s.stop.Some? then p.node == End else p.node == CheckCancelStep && p.turn == n)
    decreases n
  {
    hide Walk;
    hide Move;
    hide Iterate;
    hide EdgeFrom;
    var p0 := Point(Start, 0, Init(start));
    if n == 0 {
      MoveIs(p0, w, t, b);
      WalkUnrolls(p0, w, t, b, 1);
    } else {
      var p := Walk(p0, WIRING, w, t, b, 1 + 8 * (n - 1));
      WalkingTheGraphIsTheRun(w, t, b, start, n - 1);
      WalkSplits(p0, WIRING, w, t, b, 1 + 8 * (n - 1), 8);
      if p.node == End {
        WiringFollows(End);
        EndStays(p, WIRING, w, t, b, 8);
      } else {
        TurnIsIterate(w, t, b, n - 1, p.state);
        assert p == Point(CheckCancelStep, n - 1, p.state);
      }
    }
  }

  // ----- The runtime's recursion limit -----

  /** The runtime raises when its limit of visits is used up before the end. */
  predicate Trips(w: World, t: Target, b: Caps, start: Url, limit: nat) {
    Walk(Point(Start, 0, Init(start)), WIRING, w, t, b, 1 + limit).node != End
  }

  lemma TripsLess(w: World, t: Target, b: Caps, start: Url, limit: nat, higher: nat)
    requires limit <= higher
    ensures Trips(w, t, b, start, higher) ==> Trips(w, t, b, start, limit)
  {
    hide Walk;
    hide Move;
    hide EdgeFrom;
    hide Init;
    var p0 := Point(Start, 0, Init(start));
    var p := Walk(p0, WIRING, w, t, b, 1 + limit);
    WalkSplits(p0, WIRING, w, t, b, 1 + limit, higher - limit);
    if p.node == End {
      WiringFollows(End);
      EndStays(p, WIRING, w, t, b, higher - limit);
    }
  }

  /** Main result: a limit of whole turns trips exactly when the run is still going after that many turns, any limit
      trips when the run outlasts the turn it ends in, and none that covers the length bound ever trips. */
  lemma RecursionLimitTripsExactly(w: World, t: Target, b: Caps, start: Url, limit: nat)
    ensures limit % 8 == 0 ==> (Trips(w, t, b, start, limit) <==> Run(w, t, b, start, limit / 8).stop.None?)
    ensures Run(w, t, b, start, limit / 8).stop.Some? ==> !Trips(w, t, b, start, limit)
    ensures Run(w, t, b, start, limit / 8 + 1).stop.None? ==> Trips(w, t, b, start, limit)
    ensures limit >= 8 * RunBound(b) ==> !Trips(w, t, b, start, limit)
  {
    hide Walk;
    hide Run;
    var n := limit / 8;
    WalkingTheGraphIsTheRun(w, t, b, start, n);
    WalkingTheGraphIsTheRun(w, t, b, start, n + 1);
    assert Trips(w, t, b, start, 8 * n) <==> Run(w, t, b, start, n).stop.None?;
    assert Trips(w, t, b, start, 8 * (n + 1)) <==> Run(w, t, b, start, n + 1).stop.None?;
    TripsLess(w, t, b, start, 8 * n, limit);
    TripsLess(w, t, b, start, limit, 8 * (n + 1));
    if n >= RunBound(b) {
      RunEndsWithinBound(w, t, b, start, n);
    }
  }
}
