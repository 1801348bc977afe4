/**
  The breadth-first search over the determinised product of several globs, and
  the questions it decides (src/internal/policy/glob.go, existsPath to
  globInsideUnion).
 */
module GlobDecision {
  import opened GlobLanguage
  import opened GlobAutomaton
  import opened GlobSearch

  /** The text s is matched by every glob of pos and by no glob of neg. */
  ghost predicate Separates(pos: seq<Text>, neg: seq<Text>, s: Text) {
    && (forall p :: p in pos ==> Matches(p, s))
    && (forall n :: n in neg ==> !Matches(n, s))
  }

  ghost predicate AliveView(vs: seq<set<nat>>, npos: nat)
    requires npos <= |vs|
  {
    forall gi :: 0 <= gi < npos ==> vs[gi] != {}
  }

  ghost predicate AcceptingView(toks: seq<seq<Token>>, vs: seq<set<nat>>, npos: nat)
    requires npos <= |vs| == |toks|
  {
    && (forall gi :: 0 <= gi < npos ==> |toks[gi]| in vs[gi])
    && (forall gi :: npos <= gi < |toks| ==> |toks[gi]| !in vs[gi])
  }

  lemma AcceptingIffSeparates(pos: seq<Text>, neg: seq<Text>, w: Text)
    ensures var toks := TokenLists(pos + neg);
      AcceptingView(toks, RunAll(toks, w), |pos|) <==> Separates(pos, neg, w)
  {
    var globs := pos + neg;
    var toks := TokenLists(globs);
    forall gi | 0 <= gi < |globs| ensures |toks[gi]| in RunAll(toks, w)[gi] <==> Matches(globs[gi], w) {
      FinalIffMatches(globs[gi], w);
    }
    assert forall gi :: 0 <= gi < |pos| ==> pos[gi] == globs[gi];
    assert forall gi :: 0 <= gi < |neg| ==> neg[gi] == globs[|pos| + gi];
  }

  // ------------------------------------------- texts over the finite alphabet

  ghost predicate Over(alpha: seq<Rune>, w: Text) {
    forall i :: 0 <= i < |w| ==> w[i] in alpha
  }

  /** Every text behaves like some text over the finite alphabet. */
  lemma {:induction false} FiniteAlphabetSuffices(g: GlobSet, s: Text) returns (w: Text)
    requires g.Layout() && g.Alphabet()
    ensures Over(g.alpha, w) && |w| == |s| && RunAll(g.toks, w) == RunAll(g.toks, s)
    decreases |s|
  {
    if s == [] {
      w := [];
    } else {
      var v, c := s[..|s| - 1], s[|s| - 1];
      var u := FiniteAlphabetSuffices(g, v);
      var d := if g.Mentions(c) then c else var other :| other in g.alpha && !g.Mentions(other); other;
      w := u + [d];
      assert v + [c] == s;
      RunAllStep(g.toks, u, d);
      RunAllStep(g.toks, v, c);
      forall gi | 0 <= gi < |g.toks| ensures SameClass(g.toks[gi], c, d) {
      }
      forall gi | 0 <= gi < |g.toks|
        ensures Next(g.toks[gi], Run(g.toks[gi], v), d) == Next(g.toks[gi], Run(g.toks[gi], v), c)
      {
        SameClassSameNext(g.toks[gi], Run(g.toks[gi], v), c, d);
      }
      assert NextAll(g.toks, RunAll(g.toks, v), d) == NextAll(g.toks, RunAll(g.toks, v), c);
    }
  }

  // ------------------------------------------------------------- the search

  /** The search has recorded the state set vs. */
  ghost predicate Recorded(g: GlobSet, seen: set<Bits>, vs: seq<set<nat>>)
    requires g.Layout()
  {
    exists b :: b in seen && |b| == g.total && View(g, b) == vs
  }

  /** Every live successor of b on the first n runes of the alphabet is recorded. */
  ghost predicate Expanded(g: GlobSet, seen: set<Bits>, npos: nat, b: Bits, n: nat)
    requires g.Layout() && |b| == g.total && npos <= |g.toks| && n <= |g.alpha|
  {
    forall i {:trigger g.alpha[i]} :: 0 <= i < n && AliveView(NextAll(g.toks, View(g, b), g.alpha[i]), npos) ==>
      Recorded(g, seen, NextAll(g.toks, View(g, b), g.alpha[i]))
  }

  ghost predicate Reached(g: GlobSet, b: Bits)
    requires g.Layout() && |b| == g.total
  {
    exists w :: View(g, b) == RunAll(g.toks, w)
  }

  /** What the search keeps: recorded states are reached, and those off the queue are finished. */
  ghost predicate SearchState(g: GlobSet, npos: nat, seen: set<Bits>, queue: seq<Bits>)
    requires g.Layout() && npos <= |g.toks|
  {
    && (forall b :: b in seen ==> |b| == g.total && Reached(g, b))
    && (forall b :: b in queue ==> b in seen)
    && Recorded(g, seen, RunAll(g.toks, []))
    && (forall b :: b in seen && b !in queue ==>
         !AcceptingView(g.toks, View(g, b), npos) && Expanded(g, seen, npos, b, |g.alpha|))
  }

  lemma RecordedGrows(g: GlobSet, seen: set<Bits>, seen': set<Bits>, vs: seq<set<nat>>)
    requires g.Layout() && seen <= seen' && Recorded(g, seen, vs)
    ensures Recorded(g, seen', vs)
  {
    var b :| b in seen && |b| == g.total && View(g, b) == vs;
    assert b in seen';
  }

  lemma ExpandedGrows(g: GlobSet, seen: set<Bits>, seen': set<Bits>, npos: nat, b: Bits, n: nat)
    requires g.Layout() && |b| == g.total && npos <= |g.toks| && n <= |g.alpha|
    requires seen <= seen' && Expanded(g, seen, npos, b, n)
    ensures Expanded(g, seen', npos, b, n)
  {
    forall i | 0 <= i < n && AliveView(NextAll(g.toks, View(g, b), g.alpha[i]), npos)
      ensures Recorded(g, seen', NextAll(g.toks, View(g, b), g.alpha[i]))
    {
      RecordedGrows(g, seen, seen', NextAll(g.toks, View(g, b), g.alpha[i]));
    }
  }

  lemma ExhaustedStep(g: GlobSet, npos: nat, seen: set<Bits>, v: Text, c: Rune)
    requires g.Layout() && npos <= |g.toks| && SearchState(g, npos, seen, [])
    requires c in g.alpha && Recorded(g, seen, RunAll(g.toks, v)) && AliveView(RunAll(g.toks, v + [c]), npos)
    ensures Recorded(g, seen, RunAll(g.toks, v + [c]))
  {
    RunAllStep(g.toks, v, c);
    var b :| b in seen && |b| == g.total && View(g, b) == RunAll(g.toks, v);
    assert b !in [];
    var i :| 0 <= i < |g.alpha| && g.alpha[i] == c;
  }

  lemma AlivePrefixAll(toks: seq<seq<Token>>, npos: nat, w: Text, k: nat)
    requires npos <= |toks| && k <= |w| && AliveView(RunAll(toks, w), npos)
    ensures AliveView(RunAll(toks, w[..k]), npos)
  {
    forall gi | 0 <= gi < npos ensures Run(toks[gi], w[..k]) != {} {
      assert RunAll(toks, w)[gi] != {};
      AlivePrefix(toks[gi], w, k);
    }
  }

  lemma StartIsRecorded(g: GlobSet, npos: nat, seen: set<Bits>)
    requires g.Layout() && npos <= |g.toks| && SearchState(g, npos, seen, [])
    ensures Recorded(g, seen, RunAll(g.toks, []))
  {
  }

  lemma {:induction false} ExhaustedRecordsPrefixes(g: GlobSet, npos: nat, seen: set<Bits>, w: Text, k: nat)
    requires g.Layout() && npos <= |g.toks| && SearchState(g, npos, seen, [])
    requires Over(g.alpha, w) && k <= |w| && AliveView(RunAll(g.toks, w), npos)
    ensures Recorded(g, seen, RunAll(g.toks, w[..k]))
    decreases k
  {
    hide SearchState, RunAll, AliveView, Recorded;
    if k == 0 {
      assert w[..0] == [];
      StartIsRecorded(g, npos, seen);
    } else {
      ExhaustedRecordsPrefixes(g, npos, seen, w, k - 1);
      assert w[..k] == w[..k - 1] + [w[k - 1]];
      AlivePrefixAll(g.toks, npos, w, k);
      ExhaustedStep(g, npos, seen, w[..k - 1], w[k - 1]);
    }
  }

  /** An exhausted search without an accepting state means that no text separates. */
  lemma ExhaustedMeansNone(g: GlobSet, pos: seq<Text>, neg: seq<Text>, seen: set<Bits>, s: Text)
    requires g.Layout() && g.Alphabet() && g.toks == TokenLists(pos + neg)
    requires SearchState(g, |pos|, seen, [])
    ensures !Separates(pos, neg, s)
  {
    var w := FiniteAlphabetSuffices(g, s);
    AcceptingIffSeparates(pos, neg, s);
    if AliveView(RunAll(g.toks, w), |pos|) {
      ExhaustedRecordsPrefixes(g, |pos|, seen, w, |w|);
      assert w[..|w|] == w;
      var b :| b in seen && |b| == g.total && View(g, b) == RunAll(g.toks, w);
      assert b !in [];
    }
  }

  method Alive(g: GlobSet, npos: nat, b: Bits) returns (alive: bool)
    requires g.Layout() && npos <= |g.toks| && |b| == g.total
    ensures alive <==> AliveView(View(g, b), npos)
  {
    for gi := 0 to npos
      invariant forall k :: 0 <= k < gi ==> View(g, b)[k] != {}
    {
      var live := false;
      var i := g.off[gi];
      while i <= g.finals[gi] && !live
        invariant g.off[gi] <= i <= g.finals[gi] + 1
        invariant live ==> View(g, b)[gi] != {}
        invariant !live ==> forall k :: g.off[gi] <= k < i ==> !b[k]
      {
        live := b[i];
        assert b[i] == Bit(b, g.off[gi], i - g.off[gi]);
        assert live ==> i - g.off[gi] in View(g, b)[gi];
        i := i + 1;
      }
      if !live {
        assert View(g, b)[gi] == {};
        return false;
      }
    }
    return true;
  }

  method Accepting(g: GlobSet, npos: nat, b: Bits) returns (accepting: bool)
    requires g.Layout() && npos <= |g.toks| && |b| == g.total
    ensures accepting <==> AcceptingView(g.toks, View(g, b), npos)
  {
    for gi := 0 to |g.toks|
      invariant forall k :: 0 <= k < gi ==> (k < npos <==> |g.toks[k]| in View(g, b)[k])
    {
      var isIn := b[g.finals[gi]];
      assert isIn == Bit(b, g.off[gi], |g.toks[gi]|);
      if (gi < npos && !isIn) || (gi >= npos && isIn) {
        return false;
      }
    }
    return true;
  }

  /** Expands one state: records its live successors, in alphabet order. */
  method Expand(g: GlobSet, npos: nat, cur: Bits, seen0: set<Bits>, queue0: seq<Bits>)
    returns (seen: set<Bits>, queue: seq<Bits>, ok: bool)
    requires g.Layout() && npos <= |g.toks| && |cur| == g.total
    requires cur in seen0 && SearchState(g, npos, seen0, [cur] + queue0)
    requires !AcceptingView(g.toks, View(g, cur), npos)
    requires |seen0| <= MAX_GLOB_STATES
    ensures ok ==> SearchState(g, npos, seen, queue) && |seen| <= MAX_GLOB_STATES
    ensures ok ==> seen0 <= seen && (seen == seen0 ==> queue == queue0)
    ensures !ok ==> Power2(g.total) > MAX_GLOB_STATES
  {
    hide SearchState;
    seen, queue := seen0, queue0;
    for i := 0 to |g.alpha|
      invariant seen0 <= seen && (seen == seen0 ==> queue == queue0) && |seen| <= MAX_GLOB_STATES
      invariant SearchState(g, npos, seen, [cur] + queue)
      invariant Expanded(g, seen, npos, cur, i)
    {
      var nx := Step(g, cur, g.alpha[i]);
      var alive := Alive(g, npos, nx);
      if !alive {
        ExpandedOne(g, seen, npos, cur, i);
        continue;
      }
      if nx in seen {
        assert Recorded(g, seen, View(g, nx));
        ExpandedOne(g, seen, npos, cur, i);
        continue;
      }
      if |seen| >= MAX_GLOB_STATES {
        RecordedLengths(g, npos, seen, [cur] + queue);
        BitVectorsBounded(seen + {nx}, g.total);
        return seen, queue, false;
      }
      ghost var before := seen;
      RecordSuccessor(g, npos, cur, seen, queue, g.alpha[i], nx);
      ExpandedGrows(g, before, before + {nx}, npos, cur, i);
      seen := seen + {nx};
      queue := queue + [nx];
      assert Recorded(g, seen, View(g, nx));
      ExpandedOne(g, seen, npos, cur, i);
    }
    ok := true;
    FinishCurrent(g, npos, cur, seen, queue);
  }

  lemma RecordedLengths(g: GlobSet, npos: nat, seen: set<Bits>, queue: seq<Bits>)
    requires g.Layout() && npos <= |g.toks| && SearchState(g, npos, seen, queue)
    ensures forall b :: b in seen ==> |b| == g.total
  {
  }

  lemma ExpandedOne(g: GlobSet, seen: set<Bits>, npos: nat, b: Bits, n: nat)
    requires g.Layout() && |b| == g.total && npos <= |g.toks| && n < |g.alpha|
    requires Expanded(g, seen, npos, b, n)
    requires var vs := NextAll(g.toks, View(g, b), g.alpha[n]); AliveView(vs, npos) ==> Recorded(g, seen, vs)
    ensures Expanded(g, seen, npos, b, n + 1)
  {
  }

  lemma FinishCurrent(g: GlobSet, npos: nat, cur: Bits, seen: set<Bits>, queue: seq<Bits>)
    requires g.Layout() && npos <= |g.toks| && |cur| == g.total && SearchState(g, npos, seen, [cur] + queue)
    requires !AcceptingView(g.toks, View(g, cur), npos) && Expanded(g, seen, npos, cur, |g.alpha|)
    ensures SearchState(g, npos, seen, queue)
  {
    assert forall b :: b in queue ==> b in [cur] + queue;
    assert forall b :: b in seen && b !in queue ==> b == cur || b !in [cur] + queue;
  }

  lemma WitnessOf(g: GlobSet, pos: seq<Text>, neg: seq<Text>, seen: set<Bits>, queue: seq<Bits>, cur: Bits)
    requires g.Layout() && g.toks == TokenLists(pos + neg) && SearchState(g, |pos|, seen, queue)
    requires cur in queue && |cur| == g.total && AcceptingView(g.toks, View(g, cur), |pos|)
    ensures exists s :: Separates(pos, neg, s)
  {
    var w :| View(g, cur) == RunAll(g.toks, w);
    AcceptingIffSeparates(pos, neg, w);
  }

  lemma StartState(g: GlobSet, npos: nat, start: Bits)
    requires g.Layout() && npos <= |g.toks| && |start| == g.total && View(g, start) == RunAll(g.toks, [])
    ensures SearchState(g, npos, {start}, [start])
  {
    assert Reached(g, start);
    assert start in {start};
  }

  lemma RecordSuccessor(g: GlobSet, npos: nat, cur: Bits, seen: set<Bits>, queue: seq<Bits>, c: Rune, nx: Bits)
    requires g.Layout() && npos <= |g.toks| && |cur| == g.total && cur in seen
    requires SearchState(g, npos, seen, [cur] + queue)
    requires |nx| == g.total && View(g, nx) == NextAll(g.toks, View(g, cur), c)
    ensures SearchState(g, npos, seen + {nx}, [cur] + (queue + [nx]))
  {
    var seen', queue0, queue' := seen + {nx}, [cur] + queue, [cur] + (queue + [nx]);
    var w :| View(g, cur) == RunAll(g.toks, w);
    RunAllStep(g.toks, w, c);
    assert Reached(g, nx);
    RecordedGrows(g, seen, seen', RunAll(g.toks, []));
    forall b | b in queue' ensures b in seen' {
      assert b in queue0 || b == nx;
    }
    forall b | b in seen' && b !in queue'
      ensures !AcceptingView(g.toks, View(g, b), npos) && Expanded(g, seen', npos, b, |g.alpha|)
    {
      assert nx in queue + [nx];
      assert nx in queue';
      assert b in seen;
      assert b in queue0 ==> b in queue';
      ExpandedGrows(g, seen, seen', npos, b, |g.alpha|);
    }
  }

  /** Decides whether some text is matched by every glob of pos and by no glob of neg. */
  method SearchPath(pos: seq<Text>, neg: seq<Text>) returns (found: bool, ok: bool)
    ensures ok ==> (found <==> exists s :: Separates(pos, neg, s))
    ensures !ok ==> !found
    ensures FitsSearch(pos + neg) ==> ok
  {
    hide SearchState;
    var g := NewGlobSet(pos + neg);
    var start := Initial(g);
    var seen, queue := {start}, [start];
    StartState(g, |pos|, start);
    while |queue| > 0
      invariant SearchState(g, |pos|, seen, queue)
      invariant |seen| <= MAX_GLOB_STATES
      decreases MAX_GLOB_STATES - |seen|, |queue|
    {
      var cur := queue[0];
      ghost var seen0, queue0 := seen, queue;
      queue := queue[1..];
      assert queue0 == [cur] + queue;
      QueuedState(g, |pos|, seen0, queue0, cur);
      var accepting := Accepting(g, |pos|, cur);
      if accepting {
        WitnessOf(g, pos, neg, seen0, queue0, cur);
        return true, true;
      }
      seen, queue, ok := Expand(g, |pos|, cur, seen, queue);
      if !ok {
        return false, false;
      }
      if seen != seen0 {
        SubsetSize(seen0, seen);
      }
    }
    assert queue == [];
    forall s ensures !Separates(pos, neg, s) {
      ExhaustedMeansNone(g, pos, neg, seen, s);
    }
    return false, true;
  }

  lemma QueuedState(g: GlobSet, npos: nat, seen: set<Bits>, queue: seq<Bits>, cur: Bits)
    requires g.Layout() && npos <= |g.toks| && SearchState(g, npos, seen, queue) && cur in queue
    ensures cur in seen && |cur| == g.total
  {
  }

  lemma SubsetSize<T>(a: set<T>, b: set<T>)
    requires a < b
    ensures |a| < |b|
  {
    assert b == a + (b - a);
    assert |b| == |a| + |b - a|;
    var x :| x in b - a;
  }

  // -------------------------------------------------- when the search finishes

  ghost function Power2(n: nat): nat {
    if n == 0 then 1 else 2 * Power2(n - 1)
  }

  /** There are at most 2 to the n bit vectors of length n. */
  lemma {:induction false} BitVectorsBounded(X: set<Bits>, n: nat)
    requires forall b :: b in X ==> |b| == n
    ensures |X| <= Power2(n)
    decreases n
  {
    if n == 0 {
      assert X <= {[]};
      SubsetNoLarger(X, {[]});
    } else {
      var yes, no := set b | b in X && b[0], set b | b in X && !b[0];
      assert X == yes + no;
      SameSizeTails(yes, true);
      SameSizeTails(no, false);
      BitVectorsBounded(Tails(yes), n - 1);
      BitVectorsBounded(Tails(no), n - 1);
    }
  }

  ghost function Tail(b: Bits): Bits {
    if b == [] then [] else b[1..]
  }

  ghost function Tails(X: set<Bits>): set<Bits> {
    set b | b in X :: Tail(b)
  }

  lemma {:induction false} SameSizeTails(X: set<Bits>, first: bool)
    requires forall b :: b in X ==> |b| > 0 && b[0] == first
    ensures |X| == |Tails(X)|
    decreases X
  {
    if X != {} {
      var x :| x in X;
      var rest := X - {x};
      SameSizeTails(rest, first);
      forall b | b in rest ensures Tail(b) != Tail(x) {
        assert b == [first] + Tail(b) && x == [first] + Tail(x);
      }
      assert Tails(X) == Tails(rest) + {Tail(x)};
    }
  }

  lemma SubsetNoLarger<T>(a: set<T>, b: set<T>)
    requires a <= b
    ensures |a| <= |b|
  {
    assert b == a + (b - a);
  }

  // ---------------------------------------------------- the loader's questions

  /** The determinised product of the globs has at most as many states as the search may visit. */
  ghost predicate FitsSearch(globs: seq<Text>) {
    Power2(StateCount(globs)) <= MAX_GLOB_STATES
  }

  lemma {:induction false} Power2Grows(a: nat, b: nat)
    requires a <= b
    ensures Power2(a) <= Power2(b)
    decreases b
  {
    if a < b {
      Power2Grows(a, b - 1);
    }
  }

  lemma {:induction false} StateCountConcat(a: seq<Text>, b: seq<Text>)
    ensures StateCount(a + b) == StateCount(a) + StateCount(b)
    decreases |b|
  {
    hide Tokens;
    if b == [] {
      assert a + b == a;
    } else {
      assert (a + b)[..|a + b| - 1] == a + b[..|b| - 1];
      StateCountConcat(a, b[..|b| - 1]);
    }
  }

  /** Fewer negative states fit where more do. */
  lemma FewerFit(pos: seq<Text>, few: seq<Text>, many: seq<Text>)
    requires StateCount(few) <= StateCount(many) && FitsSearch(pos + many)
    ensures FitsSearch(pos + few)
  {
    StateCountConcat(pos, few);
    StateCountConcat(pos, many);
    Power2Grows(StateCount(pos + few), StateCount(pos + many));
  }

  /** Decides the same question after dropping the negated globs that cannot remove a solution. */
  method ExistsPath(pos: seq<Text>, neg: seq<Text>) returns (found: bool, ok: bool)
    ensures ok ==> (found <==> exists s :: Separates(pos, neg, s))
    ensures !ok ==> !found
    ensures FitsSearch(pos + neg) ==> ok
  {
    hide FitsSearch, StateCount, Power2;
    var wanted := neg;
    NoStates();
    if |neg| > 0 {
      if FitsSearch(pos + neg) {
        FewerFit(pos, [], neg);
      }
      var f, k := SearchPath(pos, []);
      if !f || !k {
        if k && !f {
          assert forall s :: Separates(pos, neg, s) ==> Separates(pos, [], s);
        }
        return f, k;
      }
      var kept: seq<Text> := [];
      var seen: set<Text> := {};
      for i := 0 to |neg|
        invariant forall n :: n in kept ==> n in neg
        invariant forall n :: n in seen <==> n in neg[..i]
        invariant StateCount(kept) <= StateCount(neg[..i])
        invariant forall n, s :: n in neg[..i] && n !in kept ==> !Separates(pos + [n], [], s)
      {
        var n := neg[i];
        assert neg[..i + 1] == neg[..i] + [n];
        StateCountConcat(neg[..i], [n]);
        StateCountConcat(kept, [n]);
        if n in seen {
          continue;
        }
        seen := seen + {n};
        var f1, k1 := SearchPath(pos + [n], []);
        if f1 || !k1 {
          kept := kept + [n];
        }
      }
      assert neg[..|neg|] == neg;
      forall s ensures Separates(pos, neg, s) <==> Separates(pos, kept, s) {
        DroppingDisjoint(pos, neg, kept, s);
      }
      wanted := kept;
      if FitsSearch(pos + neg) {
        FewerFit(pos, kept, neg);
      }
    }
    found, ok := SearchPath(pos, wanted);
  }

  lemma NoStates()
    ensures StateCount([]) == 0
  {
  }

  lemma DroppingDisjoint(pos: seq<Text>, neg: seq<Text>, kept: seq<Text>, s: Text)
    requires forall n :: n in kept ==> n in neg
    requires forall n :: n in neg && n !in kept ==> !Separates(pos + [n], [], s)
    ensures Separates(pos, neg, s) <==> Separates(pos, kept, s)
  {
    if Separates(pos, kept, s) {
      forall n | n in neg ensures !Matches(n, s) {
        if n !in kept {
          assert n in pos + [n];
        }
      }
    }
  }

  ghost predicate MatchesSome(globs: seq<Text>, s: Text) {
    exists d :: d in globs && Matches(d, s)
  }

  /** Decides whether some text matches both globs and none of the denied ones. */
  method GlobsIntersect(a: Text, b: Text, denied: seq<Text>) returns (found: bool, ok: bool)
    ensures ok ==> (found <==> exists s :: Matches(a, s) && Matches(b, s) && !MatchesSome(denied, s))
    ensures FitsSearch([a, b] + denied) ==> ok
  {
    found, ok := ExistsPath([a, b], denied);
    forall s ensures Separates([a, b], denied, s) <==> Matches(a, s) && Matches(b, s) && !MatchesSome(denied, s) {
      assert a in [a, b] && b in [a, b];
    }
  }

  /** Decides inclusion of the glob's language in the union of the others. */
  method GlobInsideUnion(g: Text, union: seq<Text>) returns (inside: bool, ok: bool)
    ensures ok ==> (inside <==> forall s :: Matches(g, s) ==> MatchesSome(union, s))
    ensures FitsSearch([g] + union) ==> ok
  {
    var found;
    found, ok := ExistsPath([g], union);
    inside := !found;
    forall s ensures Separates([g], union, s) <==> Matches(g, s) && !MatchesSome(union, s) {
      assert g in [g];
    }
  }
}
