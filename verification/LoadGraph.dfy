/**
  The loader's loops: the per-transition rules, the adjacency lists of a mode
  and the breadth-first searches over them (src/internal/statemachine/load.go,
  transitionRules, creation, graph and bfs).
 */
module LoadGraph {
  import opened Wrappers
  import opened Machine
  import opened Load

  type Adjacency = map<StateName, seq<StateName>>

  function Next(adj: Adjacency, a: StateName): seq<StateName> {
    if a in adj then adj[a] else []
  }

  // ------------------------------------------------------------------- bfs

  /** p is a walk along the adjacency lists. */
  predicate Follows(adj: Adjacency, p: seq<StateName>) {
    forall i :: 0 <= i < |p| - 1 ==> p[i + 1] in Next(adj, p[i])
  }

  ghost predicate Connects(adj: Adjacency, p: seq<StateName>, a: StateName, b: StateName) {
    |p| >= 1 && p[0] == a && p[|p| - 1] == b && Follows(adj, p)
  }

  ghost predicate Connected(adj: Adjacency, a: StateName, b: StateName) {
    exists p :: Connects(adj, p, a, b)
  }

  function Mentioned(adj: Adjacency): set<StateName> {
    set a, b | a in adj && b in adj[a] :: b
  }

  lemma ConnectedStep(adj: Adjacency, a: StateName, b: StateName, c: StateName)
    requires Connected(adj, a, b) && c in Next(adj, b)
    ensures Connected(adj, a, c)
  {
    var p :| Connects(adj, p, a, b);
    var q := p + [c];
    forall i | 0 <= i < |q| - 1 ensures q[i + 1] in Next(adj, q[i]) {
      if i < |p| - 1 { assert q[i] == p[i] && q[i + 1] == p[i + 1]; }
    }
    assert Connects(adj, q, a, c);
  }

  lemma {:induction false} ClosedHoldsConnected(adj: Adjacency, S: set<StateName>, p: seq<StateName>, k: nat)
    requires Follows(adj, p) && k < |p| && p[0] in S
    requires forall x, y :: x in S && y in Next(adj, x) ==> y in S
    ensures p[k] in S
    decreases k
  {
    if k > 0 {
      ClosedHoldsConnected(adj, S, p, k - 1);
    }
  }

  /** The search computes exactly the states connected to the start. */
  method Bfs(start: StateName, inMode: set<StateName>, adj: Adjacency) returns (seen: set<StateName>)
    ensures start !in inMode ==> seen == {}
    ensures start in inMode ==> forall x :: x in seen <==> Connected(adj, start, x)
  {
    hide Connected, Connects;
    seen := {};
    if start !in inMode {
      return;
    }
    seen := {start};
    var queue := [start];
    ConnectedItself(adj, start);
    while |queue| > 0
      invariant start in seen && seen <= {start} + Mentioned(adj)
      invariant forall x :: x in queue ==> x in seen
      invariant forall x :: x in seen ==> Connected(adj, start, x)
      invariant forall x, y :: x in seen && x !in queue && y in Next(adj, x) ==> y in seen
      decreases {start} + Mentioned(adj) - seen, |queue|
    {
      var cur := queue[0];
      ghost var queue0, seen0 := queue, seen;
      queue := queue[1..];
      assert queue0 == [cur] + queue;
      var next := Next(adj, cur);
      for i := 0 to |next|
        invariant seen0 <= seen <= {start} + Mentioned(adj) && cur in seen
        invariant seen == seen0 ==> queue == queue0[1..]
        invariant forall x :: x in queue0[1..] ==> x in queue
        invariant forall x :: x in seen && x !in seen0 ==> x in queue
        invariant forall x :: x in queue ==> x in seen
        invariant forall x :: x in seen ==> Connected(adj, start, x)
        invariant forall j :: 0 <= j < i ==> next[j] in seen
      {
        var n := next[i];
        if n !in seen {
          ConnectedStep(adj, start, cur, n);
          assert cur in adj && n in adj[cur];
          seen := seen + {n};
          queue := queue + [n];
        }
      }
      forall x, y | x in seen && x !in queue && y in Next(adj, x) ensures y in seen {
        if x != cur {
          assert x in seen0 && x !in queue0;
        }
      }
    }
    forall x | Connected(adj, start, x) ensures x in seen {
      ClosedHoldsReachable(adj, seen, start, x);
    }
  }

  lemma ConnectedItself(adj: Adjacency, start: StateName)
    ensures Connected(adj, start, start)
  {
    assert Connects(adj, [start], start, start);
  }

  lemma ClosedHoldsReachable(adj: Adjacency, seen: set<StateName>, start: StateName, x: StateName)
    requires start in seen && Connected(adj, start, x)
    requires forall x, y :: x in seen && y in Next(adj, x) ==> y in seen
    ensures x in seen
  {
    var p :| Connects(adj, p, start, x);
    ClosedHoldsConnected(adj, seen, p, |p| - 1);
  }

  // ------------------------------------------------------- adjacency lists

  datatype Graph = Graph(fwd: Adjacency, rev: Adjacency)

  /** The lists hold exactly the given pairs, in both directions. */
  ghost predicate Holds(g: Graph, pairs: iset<(StateName, StateName)>) {
    forall a, b {:trigger b in Next(g.fwd, a)} {:trigger a in Next(g.rev, b)} {:trigger (a, b) in pairs} ::
      && (b in Next(g.fwd, a) <==> (a, b) in pairs)
      && (a in Next(g.rev, b) <==> (a, b) in pairs)
  }

  function Append(adj: Adjacency, a: StateName, b: StateName): (r: Adjacency)
    ensures forall x, y :: y in Next(r, x) <==> y in Next(adj, x) || (x == a && y == b)
  {
    var r := adj[a := Next(adj, a) + [b]];
    assert forall x :: x != a ==> Next(r, x) == Next(adj, x);
    r
  }

  /** An edge is kept when both its ends are states of the mode. */
  method AddEdge(
    inMode: set<StateName>, g: Graph, a: StateName, b: StateName, ghost pairs: iset<(StateName, StateName)>)
    returns (r: Graph)
    requires Holds(g, pairs)
    ensures Holds(r, if a in inMode && b in inMode then pairs + iset{(a, b)} else pairs)
  {
    r := g;
    if a in inMode && b in inMode {
      r := Graph(Append(g.fwd, a, b), Append(g.rev, b, a));
    }
  }

  // ------------------------------------------------------- building the graph

  method StatesInMode(m: Machine, mode: Mode) returns (inMode: set<StateName>)
    requires UniqueNames(m)
    ensures forall x :: x in inMode <==> InMode(m, mode, x)
  {
    inMode := {};
    for i := 0 to |m.states|
      invariant forall x :: x in inMode <==> exists j ::
        (0 <= j < i && m.states[j].name == x && mode in m.states[j].modes)
    {
      if mode in m.states[i].modes {
        inMode := inMode + {m.states[i].name};
      }
    }
    forall x ensures x in inMode <==> InMode(m, mode, x) {
      if x in inMode {
        var j :| 0 <= j < |m.states| && m.states[j].name == x && mode in m.states[j].modes;
        UniqueFound(m.states, m.states[j]);
      }
      if InMode(m, mode, x) {
        var st := FindNamed(m.states, x).value;
        var j :| 0 <= j < |m.states| && m.states[j] == st;
      }
    }
  }

  /** The states a transition can lead to from a, before the mode is considered. */
  method Targets(m: Machine, t: Transition, a: StateName) returns (names: seq<StateName>)
    requires UniqueNames(m) && Declared(m, a)
    ensures forall b :: b in names <==> Leads(m, t, a, b)
  {
    match t.to
    case Same => names := [a];
    case Return => names := FindNamed(m.states, a).value.returnTargets;
    case To(name) => names := [name];
    case Resume =>
      names := [];
      for i := 0 to |m.states|
        invariant forall b :: b in names <==> exists j :: 0 <= j < i && m.states[j].name == b && Resumes(m.states[j])
      {
        if Resumes(m.states[i]) {
          names := names + [m.states[i].name];
        }
      }
      forall b ensures b in names <==> Leads(m, t, a, b) {
        if b in names {
          var j :| 0 <= j < |m.states| && m.states[j].name == b && Resumes(m.states[j]);
          UniqueFound(m.states, m.states[j]);
        }
        if Leads(m, t, a, b) {
          var j :| 0 <= j < |m.states| && m.states[j] == FindNamed(m.states, b).value;
        }
      }
  }

  predicate Resumes(s: State) {
    !IsHeld(At(s.name)) && !s.terminal && s.active != Required
  }

  /** The edges one transition adds to the mode's graph. */
  predicate EdgeBy(m: Machine, mode: Mode, t: Transition, a: StateName, b: StateName) {
    mode in t.modes && At(a) in t.from && InMode(m, mode, a) && InMode(m, mode, b) && Leads(m, t, a, b)
  }

  ghost function EdgesBy(m: Machine, mode: Mode, t: Transition): iset<(StateName, StateName)> {
    iset p: (StateName, StateName) | EdgeBy(m, mode, t, p.0, p.1)
  }

  ghost function Edges(m: Machine, mode: Mode): iset<(StateName, StateName)> {
    iset p: (StateName, StateName) | Edge(m, mode, p.0, p.1)
  }

  method AddTransition(
    m: Machine, mode: Mode, inMode: set<StateName>, t: Transition, g: Graph, ghost pairs: iset<(StateName, StateName)>)
    returns (r: Graph)
    requires UniqueNames(m) && EndpointsDeclared(m, t) && (forall x :: x in inMode <==> InMode(m, mode, x))
      && Holds(g, pairs)
    ensures Holds(r, pairs + EdgesBy(m, mode, t))
  {
    r := g;
    ghost var now := pairs;
    if mode in t.modes {
      for j := 0 to |t.from|
        invariant Holds(r, now)
        invariant forall a, b :: (a, b) in now <==>
          (a, b) in pairs || (At(a) in t.from[..j] && EdgeBy(m, mode, t, a, b))
      {
        var f := t.from[j];
        assert t.from[..j + 1] == t.from[..j] + [f];
        if f.At? && f.name in inMode {
          var names := Targets(m, t, f.name);
          ghost var before := now;
          for k := 0 to |names|
            invariant Holds(r, now)
            invariant forall a, b :: (a, b) in now <==>
              (a, b) in before || (a == f.name && b in names[..k] && b in inMode)
          {
            assert names[..k + 1] == names[..k] + [names[k]];
            r := AddEdge(inMode, r, f.name, names[k], now);
            now := if names[k] in inMode then now + iset{(f.name, names[k])} else now;
          }
          assert names[..|names|] == names;
        }
      }
      assert t.from[..|t.from|] == t.from;
    }
    assert now == pairs + EdgesBy(m, mode, t);
  }

  method BuildGraph(m: Machine, mode: Mode, inMode: set<StateName>) returns (g: Graph)
    requires DeclarationsOk(m) && (forall x :: x in inMode <==> InMode(m, mode, x))
    ensures Holds(g, Edges(m, mode))
  {
    g := Graph(map[], map[]);
    ghost var pairs: iset<(StateName, StateName)> := iset{};
    for i := 0 to |m.transitions|
      invariant Holds(g, pairs)
      invariant forall j :: 0 <= j < i ==> EdgesBy(m, mode, m.transitions[j]) <= pairs
      invariant pairs <= Edges(m, mode)
    {
      EdgeByIsEdge(m, mode, m.transitions[i]);
      g := AddTransition(m, mode, inMode, m.transitions[i], g, pairs);
      pairs := pairs + EdgesBy(m, mode, m.transitions[i]);
    }
    forall p: (StateName, StateName) | p in Edges(m, mode) ensures p in pairs {
      var t :| t in m.transitions && mode in t.modes && At(p.0) in t.from && Leads(m, t, p.0, p.1);
      var j :| 0 <= j < |m.transitions| && m.transitions[j] == t;
      assert p in EdgesBy(m, mode, m.transitions[j]);
    }
    assert pairs == Edges(m, mode);
  }

  lemma EdgeByIsEdge(m: Machine, mode: Mode, t: Transition)
    requires t in m.transitions
    ensures EdgesBy(m, mode, t) <= Edges(m, mode)
  {
  }

  // ------------------------------------------------- reachability and ending

  lemma ConnectedIsReaches(m: Machine, mode: Mode, g: Graph, a: StateName, b: StateName)
    requires Holds(g, Edges(m, mode)) && InMode(m, mode, a)
    ensures Connected(g.fwd, a, b) <==> Reaches(m, mode, a, b)
  {
    hide Edge, InMode;
    if Connected(g.fwd, a, b) {
      var p :| Connects(g.fwd, p, a, b);
      forall i | 0 <= i < |p| - 1 ensures Edge(m, mode, p[i], p[i + 1]) {
        assert (p[i], p[i + 1]) in Edges(m, mode);
      }
      assert Walk(m, mode, p, a, b);
    }
    if Reaches(m, mode, a, b) {
      var p :| Walk(m, mode, p, a, b);
      forall i | 0 <= i < |p| - 1 ensures p[i + 1] in Next(g.fwd, p[i]) {
        assert (p[i], p[i + 1]) in Edges(m, mode);
      }
      assert Connects(g.fwd, p, a, b);
    }
  }

  lemma ReversedConnects(g: Graph, pairs: iset<(StateName, StateName)>, a: StateName, b: StateName)
    requires Holds(g, pairs)
    ensures Connected(g.rev, b, a) <==> Connected(g.fwd, a, b)
  {
    if Connected(g.rev, b, a) {
      var p :| Connects(g.rev, p, b, a);
      var q := seq(|p|, i requires 0 <= i < |p| => p[|p| - 1 - i]);
      forall i | 0 <= i < |q| - 1 ensures q[i + 1] in Next(g.fwd, q[i]) {
        assert p[|p| - 2 - i + 1] in Next(g.rev, p[|p| - 2 - i]);
        assert (q[i], q[i + 1]) in pairs;
      }
      assert Connects(g.fwd, q, a, b);
    }
    if Connected(g.fwd, a, b) {
      var p :| Connects(g.fwd, p, a, b);
      var q := seq(|p|, i requires 0 <= i < |p| => p[|p| - 1 - i]);
      forall i | 0 <= i < |q| - 1 ensures q[i + 1] in Next(g.rev, q[i]) {
        assert p[|p| - 2 - i + 1] in Next(g.fwd, p[|p| - 2 - i]);
        assert (q[i + 1], q[i]) in pairs;
      }
      assert Connects(g.rev, q, b, a);
    }
  }

  /** The states from which some terminal state of the mode is connected. */
  method EndingStates(m: Machine, mode: Mode, inMode: set<StateName>, g: Graph) returns (canEnd: set<StateName>)
    requires UniqueNames(m) && (forall x :: x in inMode <==> InMode(m, mode, x)) && Holds(g, Edges(m, mode))
    ensures forall x :: x in canEnd && x in inMode <==> x in inMode && CanEnd(m, mode, x)
  {
    hide Holds, Edges, Connected, Reaches;
    canEnd := {};
    for i := 0 to |m.states|
      invariant forall x :: x in canEnd <==>
        exists j :: 0 <= j < i && m.states[j].terminal && mode in m.states[j].modes
          && Connected(g.rev, m.states[j].name, x)
    {
      var s := m.states[i];
      UniqueFound(m.states, s);
      if s.terminal && s.name in inMode {
        var back := Bfs(s.name, inMode, g.rev);
        canEnd := canEnd + back;
      }
    }
    forall x | x in inMode ensures x in canEnd <==> CanEnd(m, mode, x) {
      EndsIffConnected(m, mode, g, x);
    }
  }

  lemma EndsIffConnected(m: Machine, mode: Mode, g: Graph, x: StateName)
    requires Holds(g, Edges(m, mode)) && InMode(m, mode, x)
    ensures CanEnd(m, mode, x) <==>
      exists j :: 0 <= j < |m.states| && m.states[j].terminal && mode in m.states[j].modes
        && Connected(g.rev, m.states[j].name, x)
  {
    hide Edges, Connected, Reaches;
    forall s: State ensures Connected(g.rev, s.name, x) <==> Reaches(m, mode, x, s.name) {
      ReversedConnects(g, Edges(m, mode), x, s.name);
      ConnectedIsReaches(m, mode, g, x, s.name);
    }
    if CanEnd(m, mode, x) {
      var s :| s in m.states && s.terminal && mode in s.modes && Reaches(m, mode, x, s.name);
      var j :| 0 <= j < |m.states| && m.states[j] == s;
    }
  }

  /** The report of one mode: its unreachable states and those that cannot end. */
  method CheckMode(m: Machine, mode: Mode) returns (unreachable: seq<StateName>, nonTerminating: seq<StateName>)
    requires DeclarationsOk(m)
    ensures forall x :: x in unreachable <==> InMode(m, mode, x) && !Reaches(m, mode, m.initial, x)
    ensures forall x :: x in nonTerminating <==> InMode(m, mode, x) && !CanEnd(m, mode, x)
  {
    hide Reaches, CanEnd, Holds, Edges, Connected, InMode, FindNamed;
    var inMode := StatesInMode(m, mode);
    var g := BuildGraph(m, mode, inMode);
    var seen := Bfs(m.initial, inMode, g.fwd);
    var canEnd := EndingStates(m, mode, inMode, g);
    SeenIsReached(m, mode, g, seen);
    EndingStatesEnd(m, mode, inMode, canEnd);
    unreachable, nonTerminating := [], [];
    for i := 0 to |m.states|
      invariant forall x :: x in unreachable <==> exists j :: 0 <= j < i && m.states[j].name == x && x in inMode - seen
      invariant forall x :: x in nonTerminating <==> exists j ::
        (0 <= j < i && m.states[j].name == x && x in inMode - canEnd)
    {
      var s := m.states[i];
      if s.name in inMode {
        if s.name !in seen {
          unreachable := unreachable + [s.name];
        }
        if !s.terminal && s.name !in canEnd {
          nonTerminating := nonTerminating + [s.name];
        }
      }
    }
    InModeIsListed(m, mode);
  }

  lemma InModeIsListed(m: Machine, mode: Mode)
    ensures forall x :: InMode(m, mode, x) ==> exists j :: 0 <= j < |m.states| && m.states[j].name == x
  {
    forall x | InMode(m, mode, x) ensures exists j :: 0 <= j < |m.states| && m.states[j].name == x {
      var j :| 0 <= j < |m.states| && m.states[j] == FindNamed(m.states, x).value;
    }
  }

  lemma EndingStatesEnd(m: Machine, mode: Mode, inMode: set<StateName>, canEnd: set<StateName>)
    requires UniqueNames(m) && (forall x :: x in inMode <==> InMode(m, mode, x))
    requires forall x :: x in canEnd && x in inMode <==> x in inMode && CanEnd(m, mode, x)
    ensures forall s :: s in m.states && s.terminal && s.name in inMode ==> s.name in canEnd
  {
    hide CanEnd;
    forall s | s in m.states && s.terminal && s.name in inMode ensures s.name in canEnd {
      UniqueFound(m.states, s);
      TerminalEnds(m, mode, s);
    }
  }

  lemma SeenIsReached(m: Machine, mode: Mode, g: Graph, seen: set<StateName>)
    requires Holds(g, Edges(m, mode))
    requires !InMode(m, mode, m.initial) ==> seen == {}
    requires InMode(m, mode, m.initial) ==> forall x :: x in seen <==> Connected(g.fwd, m.initial, x)
    ensures forall x :: x in seen <==> Reaches(m, mode, m.initial, x)
  {
    hide Edges, Connected;
    if InMode(m, mode, m.initial) {
      forall x ensures x in seen <==> Reaches(m, mode, m.initial, x) {
        ConnectedIsReaches(m, mode, g, m.initial, x);
      }
    }
  }

  lemma TerminalEnds(m: Machine, mode: Mode, s: State)
    requires s in m.states && InMode(m, mode, s.name) && mode in s.modes
    ensures s.terminal ==> CanEnd(m, mode, s.name)
  {
    if s.terminal {
      assert Walk(m, mode, [s.name], s.name, s.name);
      assert Reaches(m, mode, s.name, s.name);
    }
  }

  /** The graph rules of the loader, mode by mode. */
  method CheckGraph(m: Machine) returns (error: Option<LoadError>)
    requires DeclarationsOk(m)
    ensures error.None? <==> GraphOk(m)
    ensures error.Some? ==> error.value == Unreachable || error.value == NonTerminating
  {
    hide Reaches, CanEnd, InMode, DeclarationsOk;
    for i := 0 to |m.modes|
      invariant forall k :: 0 <= k < i ==> ModeOk(m, m.modes[k])
    {
      var unreachable, nonTerminating := CheckMode(m, m.modes[i]);
      ModeReport(m, m.modes[i], unreachable, nonTerminating);
      assert m.modes[i] in m.modes;
      if |unreachable| > 0 {
        return Some(Unreachable);
      }
      if |nonTerminating| > 0 {
        return Some(NonTerminating);
      }
    }
    error := None;
  }

  lemma ModeReport(m: Machine, mode: Mode, unreachable: seq<StateName>, nonTerminating: seq<StateName>)
    requires DeclarationsOk(m)
    requires forall x :: x in unreachable <==> InMode(m, mode, x) && !Reaches(m, mode, m.initial, x)
    requires forall x :: x in nonTerminating <==> InMode(m, mode, x) && !CanEnd(m, mode, x)
    ensures ModeOk(m, mode) <==> unreachable == [] && nonTerminating == []
  {
    hide Reaches, CanEnd;
    forall s | s in m.states && mode in s.modes ensures InMode(m, mode, s.name) {
      UniqueFound(m.states, s);
    }
    if unreachable != [] {
      var x := unreachable[0];
      assert x in unreachable && InMode(m, mode, x);
      assert FindNamed(m.states, x).value in m.states;
    }
    if nonTerminating != [] {
      var x := nonTerminating[0];
      assert x in nonTerminating && InMode(m, mode, x);
      assert FindNamed(m.states, x).value in m.states;
    }
  }
}
