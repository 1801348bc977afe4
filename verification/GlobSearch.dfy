/**
  The bit-vector form of the automata and the breadth-first searches that
  decide intersection, complement and inclusion of globs
  (src/internal/policy/glob.go, newGlobSet to MatchGlob).
 */
module GlobSearch {
  import opened GlobLanguage
  import opened GlobAutomaton

  const MAX_GLOB_STATES: nat := 200000

  type Bits = seq<bool>

  /** A set of globs whose automaton states are laid out in one bit vector. */
  datatype GlobSet = GlobSet(toks: seq<seq<Token>>, off: seq<nat>, finals: seq<nat>, total: nat, alpha: seq<Rune>)
  {
    ghost predicate Layout() {
      && |off| == |finals| == |toks|
      && (forall gi :: 0 <= gi < |toks| ==> WellFormed(toks[gi]))
      && (forall gi :: 0 <= gi < |toks| ==> finals[gi] == off[gi] + |toks[gi]| && finals[gi] < total)
      && (forall gi, gj :: 0 <= gi < gj < |toks| ==> finals[gi] < off[gj])
    }

    ghost predicate Mentions(r: Rune) {
      r == SLASH || exists gi :: 0 <= gi < |toks| && r in Literals(toks[gi])
    }

    /** The alphabet holds every mentioned rune and one rune no glob mentions. */
    ghost predicate Alphabet() {
      && (forall r :: Mentions(r) ==> r in alpha)
      && (exists other :: other in alpha && !Mentions(other))
    }
  }

  // ------------------------------------------------------------- views

  predicate Bit(b: Bits, off: nat, j: nat)
    requires off + j < |b|
  {
    b[off + j]
  }

  ghost function StatesAt(b: Bits, off: nat, n: nat): set<nat>
    requires off + n < |b|
  {
    set j | 0 <= j <= n && Bit(b, off, j)
  }

  /** The state set of every glob in a bit vector. */
  ghost function View(g: GlobSet, b: Bits): seq<set<nat>>
    requires g.Layout() && |b| == g.total
  {
    seq(|g.toks|, gi requires 0 <= gi < |g.toks| => StatesAt(b, g.off[gi], |g.toks[gi]|))
  }

  ghost function NextAll(toks: seq<seq<Token>>, vs: seq<set<nat>>, c: Rune): seq<set<nat>>
    requires |vs| == |toks|
  {
    seq(|toks|, gi requires 0 <= gi < |toks| => Next(toks[gi], vs[gi], c))
  }

  ghost function RunAll(toks: seq<seq<Token>>, w: Text): seq<set<nat>> {
    seq(|toks|, gi requires 0 <= gi < |toks| => Run(toks[gi], w))
  }

  lemma RunAllStep(toks: seq<seq<Token>>, w: Text, c: Rune)
    ensures RunAll(toks, w + [c]) == NextAll(toks, RunAll(toks, w), c)
  {
    var u := w + [c];
    assert u[..|u| - 1] == w && u[|u| - 1] == c;
  }

  // ---------------------------------------------------- building the set

  method ParseGlob(pat: Text) returns (toks: seq<Token>)
    ensures toks == Tokens(pat)
  {
    hide Tokens;
    toks := [];
    var i := 0;
    assert pat[0..] == pat;
    while i < |pat|
      invariant 0 <= i <= |pat|
      invariant toks + Tokens(pat[i..]) == Tokens(pat)
    {
      ghost var rest := pat[i..];
      TokensStep(rest);
      var head, width;
      if pat[i] == STAR && i + 2 < |pat| && pat[i + 1] == STAR && pat[i + 2] == SLASH {
        head, width := [Dirs, DirsIn], 3;
      } else if pat[i] == STAR && i + 1 < |pat| && pat[i + 1] == STAR {
        head, width := [Any], 2;
      } else if pat[i] == STAR {
        head, width := [Star], 1;
      } else if pat[i] == QUESTION {
        head, width := [Question], 1;
      } else {
        head, width := [Literal(pat[i])], 1;
      }
      assert Tokens(rest) == head + Tokens(rest[width..]);
      assert rest[width..] == pat[i + width..];
      assert toks + (head + Tokens(rest[width..])) == (toks + head) + Tokens(rest[width..]);
      toks := toks + head;
      i := i + width;
    }
    NoTokens(pat[i..]);
  }

  /** The first token of a glob and the number of runes it takes. */
  ghost function FirstToken(p: Text): (seq<Token>, nat)
    requires p != []
    ensures 1 <= FirstToken(p).1 <= |p|
  {
    if StartsDirs(p) then ([Dirs, DirsIn], 3)
    else if StartsAny(p) then ([Any], 2)
    else if p[0] == STAR then ([Star], 1)
    else if p[0] == QUESTION then ([Question], 1)
    else ([Literal(p[0])], 1)
  }

  lemma TokensStep(p: Text)
    requires p != []
    ensures Tokens(p) == FirstToken(p).0 + Tokens(p[FirstToken(p).1..])
  {
  }

  lemma NoTokens(p: Text)
    requires p == []
    ensures Tokens(p) == []
  {
  }

  ghost function TokenLists(globs: seq<Text>): seq<seq<Token>> {
    seq(|globs|, i requires 0 <= i < |globs| => Tokens(globs[i]))
  }

  method CollectLiterals(ts: seq<Token>, lits: set<Rune>) returns (r: set<Rune>)
    ensures r == lits + Literals(ts)
  {
    r := lits;
    for i := 0 to |ts|
      invariant r == lits + Literals(ts[..i])
    {
      assert ts[..i + 1] == ts[..i] + [ts[i]];
      LiteralsAppend(ts[..i], ts[i]);
      if ts[i].Literal? {
        r := r + {ts[i].r};
      }
    }
    assert ts[..|ts|] == ts;
  }

  lemma LiteralsAppend(ts: seq<Token>, t: Token)
    ensures Literals(ts + [t]) == Literals(ts) + (if t.Literal? then {t.r} else {})
  {
    var us := ts + [t];
    forall r | r in Literals(ts) ensures r in Literals(us) {
      var i :| 0 <= i < |ts| && ts[i].Literal? && ts[i].r == r;
      assert us[i].r == r;
    }
    assert us[|ts|] == t;
  }

  /** The literals and the slash, and after them one rune that is neither. */
  method AlphabetOf(lits: set<Rune>) returns (alpha: seq<Rune>)
    ensures alpha != [] && alpha[|alpha| - 1] !in lits
    ensures forall r :: r in alpha <==> r in lits || r == alpha[|alpha| - 1]
  {
    alpha := [];
    var left := lits;
    while left != {}
      invariant left <= lits
      invariant forall r :: r in lits <==> r in left || r in alpha
      decreases |left|
    {
      var r :| r in left;
      left := left - {r};
      alpha := alpha + [r];
    }
    var other: Rune := 1;
    ghost var high := lits;
    while other in lits
      invariant high <= lits
      invariant forall r :: r in lits && r >= other ==> r in high
      decreases |high|
    {
      high := high - {other};
      other := other + 1;
    }
    alpha := alpha + [other];
  }

  function Appended(g: GlobSet, ts: seq<Token>): (r: GlobSet)
    requires g.Layout() && WellFormed(ts)
    ensures r.Layout() && r.toks == g.toks + [ts] && r.total == g.total + |ts| + 1
  {
    GlobSet(g.toks + [ts], g.off + [g.total], g.finals + [g.total + |ts|], g.total + |ts| + 1, g.alpha)
  }

  method NewGlobSet(globs: seq<Text>) returns (g: GlobSet)
    ensures g.toks == TokenLists(globs) && g.Layout() && g.Alphabet()
    ensures g.total == StateCount(globs)
  {
    hide Tokens, WellFormed;
    g := GlobSet([], [], [], 0, []);
    var lits := {SLASH};
    for k := 0 to |globs|
      invariant g.toks == TokenLists(globs[..k]) && g.Layout() && g.total == StateCount(globs[..k])
      invariant SLASH in lits
      invariant forall gi :: 0 <= gi < k ==> Literals(g.toks[gi]) <= lits
    {
      assert globs[..k + 1][..k] == globs[..k];
      var ts := ParseGlob(globs[k]);
      lits := CollectLiterals(ts, lits);
      g := Appended(g, ts);
    }
    assert globs[..|globs|] == globs;
    var alpha := AlphabetOf(lits);
    g := g.(alpha := alpha);
    var other := alpha[|alpha| - 1];
    assert !g.Mentions(other);
  }

  /** The automaton states of the globs, laid out one after the other. */
  ghost function StateCount(globs: seq<Text>): nat
    decreases |globs|
  {
    if globs == [] then 0
    else StateCount(globs[..|globs| - 1]) + |Tokens(globs[|globs| - 1])| + 1
  }

  // ------------------------------------------------------- the bit vector

  /** The pass over one glob: afterwards its bits are the epsilon closure. */
  method CloseOne(ts: seq<Token>, off: nat, b: array<bool>)
    requires WellFormed(ts) && off + |ts| < b.Length
    modifies b
    ensures StatesAt(b[..], off, |ts|) == EpsilonClosure(ts, old(StatesAt(b[..], off, |ts|)))
    ensures forall k :: 0 <= k < b.Length && !(off <= k <= off + |ts|) ==> b[k] == old(b[k])
  {
    ghost var S := StatesAt(b[..], off, |ts|);
    ghost var cur := S;
    ghost var E := LeastClosed(ts, S);
    for i := 0 to |ts|
      invariant cur == StatesAt(b[..], off, |ts|)
      invariant S <= cur <= E
      invariant ClosedBelow(ts, cur, i)
      invariant forall k :: 0 <= k < b.Length && !(off <= k <= off + |ts|) ==> b[k] == old(b[k])
    {
      assert b[off + i] == Bit(b[..], off, i);
      if b[off + i] {
        GrowClosed(ts, cur, E, i);
        if ts[i].Star? || ts[i].Any? {
          SetBit(b, off, |ts|, i + 1);
          cur := cur + {i + 1};
        } else if ts[i].Dirs? {
          SetBit(b, off, |ts|, i + 2);
          cur := cur + {i + 2};
        }
      }
    }
    LeastClosedIsClosure(ts, S, E, cur);
  }

  lemma LeastClosed(ts: seq<Token>, S: set<nat>) returns (E: set<nat>)
    requires WellFormed(ts) && States(ts, S)
    ensures S <= E && Closed(ts, E)
    ensures forall T :: Closed(ts, T) && S <= T ==> E <= T
  {
    E := EpsilonClosure(ts, S);
    forall T { EpsilonClosureIsLeast(ts, S, T); }
  }

  lemma LeastClosedIsClosure(ts: seq<Token>, S: set<nat>, E: set<nat>, cur: set<nat>)
    requires WellFormed(ts) && States(ts, S)
    requires forall T :: Closed(ts, T) && S <= T ==> E <= T
    requires S <= cur <= E && ClosedBelow(ts, cur, |ts|)
    ensures cur == EpsilonClosure(ts, S)
  {
    EpsilonClosureIsLeast(ts, S, cur);
  }

  lemma GrowClosed(ts: seq<Token>, cur: set<nat>, E: set<nat>, i: nat)
    requires i < |ts| && i in cur && cur <= E && Closed(ts, E) && ClosedBelow(ts, cur, i)
    ensures ts[i].Star? || ts[i].Any? ==> i + 1 in E && ClosedBelow(ts, cur + {i + 1}, i + 1)
    ensures ts[i].Dirs? ==> i + 2 in E && ClosedBelow(ts, cur + {i + 2}, i + 1)
    ensures !(ts[i].Star? || ts[i].Any? || ts[i].Dirs?) ==> ClosedBelow(ts, cur, i + 1)
  {
  }

  ghost predicate ClosedBelow(ts: seq<Token>, S: set<nat>, n: nat)
    requires n <= |ts|
  {
    forall i :: i in S && i < n ==>
      && (ts[i].Star? || ts[i].Any? ==> i + 1 in S)
      && (ts[i].Dirs? ==> i + 2 in S)
  }

  lemma SetOneBit(b: Bits, off: nat, n: nat, x: nat, before: set<nat>)
    requires off + n < |b| && x <= n && b[off + x]
    requires forall j :: j in before ==> j <= n
    requires forall j: nat :: j <= n && j != x ==> (j in before <==> Bit(b, off, j))
    ensures StatesAt(b, off, n) == before + {x}
  {
    assert Bit(b, off, x);
  }

  method Closure(g: GlobSet, b: array<bool>)
    requires g.Layout() && b.Length == g.total
    modifies b
    ensures forall gi :: 0 <= gi < |g.toks| ==>
      View(g, b[..])[gi] == EpsilonClosure(g.toks[gi], old(View(g, b[..]))[gi])
  {
    for gi := 0 to |g.toks|
      invariant forall k :: 0 <= k < gi ==>
        View(g, b[..])[k] == EpsilonClosure(g.toks[k], old(View(g, b[..]))[k])
      invariant forall k :: gi <= k < |g.toks| ==> View(g, b[..])[k] == old(View(g, b[..]))[k]
    {
      label L:
      CloseOne(g.toks[gi], g.off[gi], b);
      forall k | 0 <= k < |g.toks| && k != gi ensures View(g, b[..])[k] == old@L(View(g, b[..]))[k] {
        SameSegment(old@L(b[..]), b[..], g.off[k], |g.toks[k]|);
      }
    }
  }

  lemma SameSegment(b: Bits, b': Bits, off: nat, n: nat)
    requires |b| == |b'| && off + n < |b|
    requires forall k :: off <= k <= off + n ==> b[k] == b'[k]
    ensures StatesAt(b, off, n) == StatesAt(b', off, n)
  {
    assert forall j: nat :: j <= n ==> Bit(b, off, j) == Bit(b', off, j);
  }

  method Initial(g: GlobSet) returns (b: Bits)
    requires g.Layout()
    ensures |b| == g.total && View(g, b) == RunAll(g.toks, [])
  {
    var a := new bool[g.total](_ => false);
    for gi := 0 to |g.toks|
      invariant forall k :: 0 <= k < gi ==> View(g, a[..])[k] == {0}
      invariant forall k :: gi <= k < |g.toks| ==> View(g, a[..])[k] == {}
    {
      label L:
      a[g.off[gi]] := true;
      SetOneBit(a[..], g.off[gi], |g.toks[gi]|, 0, old@L(View(g, a[..]))[gi]);
      forall k | 0 <= k < |g.toks| && k != gi ensures View(g, a[..])[k] == old@L(View(g, a[..]))[k] {
        SameSegment(old@L(a[..]), a[..], g.off[k], |g.toks[k]|);
      }
    }
    Closure(g, a);
    b := a[..];
  }

  /** The states of one glob that the runes' moves reach, or-ed into n. */
  method MoveOne(ts: seq<Token>, off: nat, b: Bits, c: Rune, n: array<bool>)
    requires WellFormed(ts) && off + |ts| < |b| == n.Length
    requires StatesAt(n[..], off, |ts|) == {}
    modifies n
    ensures StatesAt(n[..], off, |ts|) == Moved(ts, StatesAt(b, off, |ts|), c)
    ensures forall k :: 0 <= k < n.Length && !(off <= k <= off + |ts|) ==> n[k] == old(n[k])
  {
    ghost var S := StatesAt(b, off, |ts|);
    for i := 0 to |ts|
      invariant forall k :: 0 <= k < n.Length && !(off <= k <= off + |ts|) ==> n[k] == old(n[k])
      invariant forall j: nat :: j <= |ts| ==> (j in StatesAt(n[..], off, |ts|)
        <==> exists k :: k in S && k < i && MovesTo(ts[k], k, c, j))
    {
      ghost var before := StatesAt(n[..], off, |ts|);
      if b[off + i] {
        assert Bit(b, off, i);
        assert i in S;
        match ts[i]
        case Literal(r) =>
          if c == r { SetBit(n, off, |ts|, i + 1); }
        case Question =>
          if c != SLASH { SetBit(n, off, |ts|, i + 1); }
        case Star =>
          if c != SLASH { SetBit(n, off, |ts|, i); }
        case Any =>
          SetBit(n, off, |ts|, i);
        case Dirs =>
          SetBit(n, off, |ts|, i + 1);
          if c == SLASH { SetBit(n, off, |ts|, i + 2); }
        case DirsIn =>
          SetBit(n, off, |ts|, i);
          if c == SLASH { SetBit(n, off, |ts|, i + 1); }
        assert forall j: nat :: j <= |ts| ==>
          (j in StatesAt(n[..], off, |ts|) <==> j in before || MovesTo(ts[i], i, c, j));
      } else {
        assert !Bit(b, off, i);
        assert i !in S;
      }
    }
    forall j: nat | j <= |ts| ensures j in StatesAt(n[..], off, |ts|) <==> j in Moved(ts, S, c) {
    }
  }

  method SetBit(n: array<bool>, off: nat, len: nat, x: nat)
    requires off + len < n.Length && x <= len
    modifies n
    ensures n[..] == old(n[..])[off + x := true]
    ensures StatesAt(n[..], off, len) == old(StatesAt(n[..], off, len)) + {x}
  {
    n[off + x] := true;
    SetOneBit(n[..], off, len, x, old(StatesAt(n[..], off, len)));
  }

  method Step(g: GlobSet, b: Bits, c: Rune) returns (r: Bits)
    requires g.Layout() && |b| == g.total
    ensures |r| == g.total && View(g, r) == NextAll(g.toks, View(g, b), c)
  {
    var n := new bool[g.total](_ => false);
    for gi := 0 to |g.toks|
      invariant forall k :: 0 <= k < gi ==> View(g, n[..])[k] == Moved(g.toks[k], View(g, b)[k], c)
      invariant forall k :: gi <= k < |g.toks| ==> View(g, n[..])[k] == {}
    {
      label L:
      assert View(g, n[..])[gi] == {};
      MoveOne(g.toks[gi], g.off[gi], b, c, n);
      forall k | 0 <= k < |g.toks| && k != gi ensures View(g, n[..])[k] == old@L(View(g, n[..]))[k] {
        SameSegment(old@L(n[..]), n[..], g.off[k], |g.toks[k]|);
      }
    }
    Closure(g, n);
    r := n[..];
  }

  /** MatchGlob decides the declarative meaning of the glob, for every glob and path. */
  method MatchGlob(glob: Text, path: Text) returns (matched: bool)
    ensures matched <==> Matches(glob, path)
  {
    var g := NewGlobSet([glob]);
    var b := Initial(g);
    for k := 0 to |path|
      invariant |b| == g.total && View(g, b) == RunAll(g.toks, path[..k])
    {
      b := Step(g, b, path[k]);
      RunAllStep(g.toks, path[..k], path[k]);
      assert path[..k] + [path[k]] == path[..k + 1];
    }
    assert path[..|path|] == path;
    FinalIffMatches(glob, path);
    matched := b[g.finals[0]];
    assert matched == Bit(b, g.off[0], |g.toks[0]|);
    assert matched <==> |g.toks[0]| in View(g, b)[0];
  }
}
