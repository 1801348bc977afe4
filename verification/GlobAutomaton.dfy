/**
  The nondeterministic automaton of a glob, read as sets of states: state i
  means that tokens 0..i-1 are consumed, and state |ts| accepts
  (src/internal/policy/glob.go, closure and step).
 */
module GlobAutomaton {
  import opened GlobLanguage

  /** State j can be reached from state i without consuming a rune. */
  predicate Skips(ts: seq<Token>, i: nat, j: nat)
    decreases |ts| - i
  {
    i == j
    || (i < |ts| && (ts[i].Star? || ts[i].Any?) && Skips(ts, i + 1, j))
    || (i + 1 < |ts| && ts[i].Dirs? && Skips(ts, i + 2, j))
  }

  ghost predicate SkippedTo(ts: seq<Token>, S: set<nat>, j: nat) {
    exists i :: i in S && Skips(ts, i, j)
  }

  /** Every state reachable from a state of S without consuming a rune. */
  ghost function EpsilonClosure(ts: seq<Token>, S: set<nat>): set<nat> {
    set j | 0 <= j <= |ts| && SkippedTo(ts, S, j)
  }

  ghost predicate Closed(ts: seq<Token>, S: set<nat>) {
    forall i :: i in S && i < |ts| ==>
      && (ts[i].Star? || ts[i].Any? ==> i + 1 in S)
      && (ts[i].Dirs? ==> i + 2 in S)
  }

  /** Token t, in state i, moves to state j on rune c. */
  predicate MovesTo(t: Token, i: nat, c: Rune, j: nat) {
    match t
    case Literal(r) => c == r && j == i + 1
    case Question => c != SLASH && j == i + 1
    case Star => c != SLASH && j == i
    case Any => j == i
    case Dirs => j == i + 1 || (c == SLASH && j == i + 2)
    case DirsIn => j == i || (c == SLASH && j == i + 1)
  }

  ghost predicate MovedTo(ts: seq<Token>, S: set<nat>, c: Rune, j: nat) {
    exists i :: i in S && i < |ts| && MovesTo(ts[i], i, c, j)
  }

  ghost function Moved(ts: seq<Token>, S: set<nat>, c: Rune): set<nat> {
    set j | 0 <= j <= |ts| && MovedTo(ts, S, c, j)
  }

  ghost function Next(ts: seq<Token>, S: set<nat>, c: Rune): set<nat> {
    EpsilonClosure(ts, Moved(ts, S, c))
  }

  /** The states after the text w. */
  ghost function Run(ts: seq<Token>, w: Text): set<nat>
    decreases |w|
  {
    if w == [] then EpsilonClosure(ts, {0})
    else Next(ts, Run(ts, w[..|w| - 1]), w[|w| - 1])
  }

  /** Some state of S accepts s. */
  ghost predicate SetAccepts(ts: seq<Token>, S: set<nat>, s: Text) {
    exists i :: i in S && i <= |ts| && Accepts(ts[i..], s)
  }

  lemma {:induction false} SkipsOneMore(ts: seq<Token>, i: nat, j: nat)
    requires WellFormed(ts) && Skips(ts, i, j) && j < |ts|
    ensures ts[j].Star? || ts[j].Any? ==> Skips(ts, i, j + 1)
    ensures ts[j].Dirs? ==> Skips(ts, i, j + 2)
    decreases |ts| - i
  {
    if i != j {
      if ts[i].Dirs? {
        SkipsOneMore(ts, i + 2, j);
      } else {
        SkipsOneMore(ts, i + 1, j);
      }
    }
  }

  lemma {:induction false} ClosedUnderSkips(ts: seq<Token>, S: set<nat>, i: nat, j: nat)
    requires Closed(ts, S) && i in S && Skips(ts, i, j)
    ensures j in S
    decreases |ts| - i
  {
    if i != j {
      if ts[i].Dirs? {
        ClosedUnderSkips(ts, S, i + 2, j);
      } else {
        ClosedUnderSkips(ts, S, i + 1, j);
      }
    }
  }

  ghost predicate States(ts: seq<Token>, S: set<nat>) {
    forall i :: i in S ==> i <= |ts|
  }

  /** The epsilon closure is the least closed set of states that contains S. */
  lemma EpsilonClosureIsLeast(ts: seq<Token>, S: set<nat>, T: set<nat>)
    requires WellFormed(ts) && States(ts, S)
    ensures S <= EpsilonClosure(ts, S) && Closed(ts, EpsilonClosure(ts, S))
    ensures Closed(ts, T) && S <= T ==> EpsilonClosure(ts, S) <= T
  {
    var E := EpsilonClosure(ts, S);
    forall j | j in E && j < |ts|
      ensures ts[j].Star? || ts[j].Any? ==> j + 1 in E
      ensures ts[j].Dirs? ==> j + 2 in E
    {
      var i :| i in S && Skips(ts, i, j);
      SkipsOneMore(ts, i, j);
    }
    if Closed(ts, T) && S <= T {
      forall j | j in E ensures j in T {
        var i :| i in S && Skips(ts, i, j);
        ClosedUnderSkips(ts, T, i, j);
      }
    }
  }

  lemma {:induction false} SkipsAccepts(ts: seq<Token>, i: nat, j: nat, s: Text)
    requires i <= |ts| && j <= |ts| && Skips(ts, i, j) && Accepts(ts[j..], s)
    ensures Accepts(ts[i..], s)
    decreases |ts| - i
  {
    if i != j {
      if ts[i].Dirs? {
        SkipsAccepts(ts, i + 2, j, s);
        assert ts[i..][2..] == ts[i + 2..];
      } else {
        SkipsAccepts(ts, i + 1, j, s);
        assert ts[i..][1..] == ts[i + 1..];
      }
    }
  }

  lemma ClosureAcceptsSame(ts: seq<Token>, S: set<nat>, s: Text)
    requires States(ts, S)
    ensures SetAccepts(ts, EpsilonClosure(ts, S), s) <==> SetAccepts(ts, S, s)
  {
    var E := EpsilonClosure(ts, S);
    if SetAccepts(ts, E, s) {
      var j :| j in E && j <= |ts| && Accepts(ts[j..], s);
      var i :| i in S && Skips(ts, i, j);
      SkipsAccepts(ts, i, j, s);
    }
    if SetAccepts(ts, S, s) {
      var i :| i in S && i <= |ts| && Accepts(ts[i..], s);
      assert Skips(ts, i, i);
    }
  }

  lemma {:induction false} StepAccepts(ts: seq<Token>, S: set<nat>, i: nat, c: Rune, s: Text)
    requires WellFormed(ts) && Closed(ts, S) && i in S && i <= |ts| && Accepts(ts[i..], [c] + s)
    ensures SetAccepts(ts, Moved(ts, S, c), s)
    decreases |ts| - i
  {
    var u := [c] + s;
    assert u[1..] == s;
    var M := Moved(ts, S, c);
    var rest := ts[i..];
    assert i < |ts|;
    assert rest[1..] == ts[i + 1..];
    match ts[i]
    case Literal(r) => assert i + 1 in M;
    case Question => assert i + 1 in M;
    case Star =>
      if Accepts(rest[1..], u) {
        StepAccepts(ts, S, i + 1, c, s);
      } else {
        assert i in M;
      }
    case Any =>
      if Accepts(rest[1..], u) {
        StepAccepts(ts, S, i + 1, c, s);
      } else {
        assert i in M;
      }
    case Dirs =>
      assert rest[2..] == ts[i + 2..];
      if Accepts(rest[2..], u) {
        StepAccepts(ts, S, i + 2, c, s);
      } else if Accepts(rest[1..], s) {
        assert i + 1 in M;
      } else {
        assert i + 2 in M;
      }
    case DirsIn =>
      if Accepts(rest, s) {
        assert i in M;
      } else {
        assert i + 1 in M;
      }
  }

  lemma StepAcceptsBack(ts: seq<Token>, S: set<nat>, c: Rune, s: Text)
    requires WellFormed(ts) && SetAccepts(ts, Moved(ts, S, c), s)
    ensures SetAccepts(ts, S, [c] + s)
  {
    var u := [c] + s;
    assert u[1..] == s;
    var j :| j in Moved(ts, S, c) && j <= |ts| && Accepts(ts[j..], s);
    var i :| i in S && i < |ts| && MovesTo(ts[i], i, c, j);
    var rest := ts[i..];
    assert rest[1..] == ts[i + 1..];
    if ts[i].Dirs? {
      assert rest[2..] == ts[i + 2..];
    }
    assert Accepts(ts[i..], u);
  }

  lemma NextAccepts(ts: seq<Token>, S: set<nat>, c: Rune, s: Text)
    requires WellFormed(ts) && Closed(ts, S)
    ensures SetAccepts(ts, Next(ts, S, c), s) <==> SetAccepts(ts, S, [c] + s)
  {
    ClosureAcceptsSame(ts, Moved(ts, S, c), s);
    if SetAccepts(ts, S, [c] + s) {
      var i :| i in S && i <= |ts| && Accepts(ts[i..], [c] + s);
      StepAccepts(ts, S, i, c, s);
    }
    if SetAccepts(ts, Moved(ts, S, c), s) {
      StepAcceptsBack(ts, S, c, s);
    }
  }

  lemma {:induction false} RunClosed(ts: seq<Token>, w: Text)
    requires WellFormed(ts)
    ensures Closed(ts, Run(ts, w)) && States(ts, Run(ts, w))
    decreases |w|
  {
    if w == [] {
      EpsilonClosureIsLeast(ts, {0}, {});
    } else {
      EpsilonClosureIsLeast(ts, Moved(ts, Run(ts, w[..|w| - 1]), w[|w| - 1]), {});
    }
  }

  lemma {:induction false} RunAccepts(ts: seq<Token>, w: Text, s: Text)
    requires WellFormed(ts)
    ensures SetAccepts(ts, Run(ts, w), s) <==> Accepts(ts, w + s)
    decreases |w|
  {
    if w == [] {
      ClosureAcceptsSame(ts, {0}, s);
      assert ts[0..] == ts && w + s == s;
      assert 0 in {0 as nat};
    } else {
      var v, c := w[..|w| - 1], w[|w| - 1];
      RunClosed(ts, v);
      NextAccepts(ts, Run(ts, v), c, s);
      RunAccepts(ts, v, [c] + s);
      assert v + ([c] + s) == w + s;
    }
  }

  lemma {:induction false} EmptyAccepts(ts: seq<Token>, S: set<nat>, i: nat)
    requires WellFormed(ts) && Closed(ts, S) && i in S && i <= |ts| && Accepts(ts[i..], [])
    ensures |ts| in S
    decreases |ts| - i
  {
    if i < |ts| {
      assert ts[i..][1..] == ts[i + 1..];
      if ts[i].Dirs? {
        assert ts[i..][2..] == ts[i + 2..];
        EmptyAccepts(ts, S, i + 2);
      } else {
        EmptyAccepts(ts, S, i + 1);
      }
    }
  }

  /** The accepting state is reached by w exactly when the automaton accepts w. */
  lemma FinalIffAccepts(ts: seq<Token>, w: Text)
    requires WellFormed(ts)
    ensures |ts| in Run(ts, w) <==> Accepts(ts, w)
  {
    var S := Run(ts, w);
    RunClosed(ts, w);
    RunAccepts(ts, w, []);
    assert w + [] == w;
    if |ts| in S {
      assert ts[|ts|..] == [];
    }
    if SetAccepts(ts, S, []) {
      var i :| i in S && i <= |ts| && Accepts(ts[i..], []);
      EmptyAccepts(ts, S, i);
    }
  }

  /** The accepting state is reached by w exactly when the glob matches w. */
  lemma FinalIffMatches(p: Text, w: Text)
    ensures |Tokens(p)| in Run(Tokens(p), w) <==> Matches(p, w)
  {
    FinalIffAccepts(Tokens(p), w);
    TokensAcceptMatches(p, w);
  }

  // -------------------------------------------------- the finite alphabet

  function Literals(ts: seq<Token>): set<Rune> {
    set i | 0 <= i < |ts| && ts[i].Literal? :: ts[i].r
  }

  /** Two runes the tokens cannot tell apart. */
  predicate SameClass(ts: seq<Token>, c: Rune, d: Rune) {
    c == d || (c !in Literals(ts) && d !in Literals(ts) && c != SLASH && d != SLASH)
  }

  lemma SameClassSameNext(ts: seq<Token>, S: set<nat>, c: Rune, d: Rune)
    requires SameClass(ts, c, d)
    ensures Next(ts, S, c) == Next(ts, S, d)
  {
    forall i, j: nat | 0 <= i < |ts| ensures MovesTo(ts[i], i, c, j) == MovesTo(ts[i], i, d, j) {
      if ts[i].Literal? {
        assert ts[i].r in Literals(ts);
      }
    }
    assert Moved(ts, S, c) == Moved(ts, S, d);
  }

  /** A run that still has states had some after every prefix. */
  lemma {:induction false} AlivePrefix(ts: seq<Token>, w: Text, k: nat)
    requires k <= |w| && Run(ts, w) != {}
    ensures Run(ts, w[..k]) != {}
    decreases |w| - k
  {
    if k == |w| {
      assert w[..k] == w;
    } else {
      AlivePrefix(ts, w, k + 1);
      var v := w[..k + 1];
      assert v[..|v| - 1] == w[..k];
      assert Moved(ts, {}, v[|v| - 1]) == {};
    }
  }
}
