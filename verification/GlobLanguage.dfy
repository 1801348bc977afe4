/**
  The meaning of a glob, and the automaton the policy loader runs for it
  (src/internal/policy/glob.go).

  A rune is any natural number: the alphabet is unbounded, and a newline is an
  ordinary rune.
 */
module GlobLanguage {

  type Rune = nat

  const SLASH: Rune := 47
  const STAR: Rune := 42
  const QUESTION: Rune := 63

  type Text = seq<Rune>

  predicate StartsDirs(p: Text) {
    |p| >= 3 && p[0] == STAR && p[1] == STAR && p[2] == SLASH
  }

  predicate StartsAny(p: Text) {
    |p| >= 2 && p[0] == STAR && p[1] == STAR
  }

  /** The declarative meaning of a glob: which texts the pattern `p` matches. */
  ghost predicate Matches(p: Text, s: Text)
    decreases |p|
  {
    if p == [] then
      s == []
    else if StartsDirs(p) then
      exists k :: 0 <= k <= |s| && (k == 0 || s[k - 1] == SLASH) && Matches(p[3..], s[k..])
    else if StartsAny(p) then
      exists k :: 0 <= k <= |s| && Matches(p[2..], s[k..])
    else if p[0] == STAR then
      exists k :: 0 <= k <= |s| && SLASH !in s[..k] && Matches(p[1..], s[k..])
    else if p[0] == QUESTION then
      s != [] && s[0] != SLASH && Matches(p[1..], s[1..])
    else
      s != [] && s[0] == p[0] && Matches(p[1..], s[1..])
  }

  /** The tokens of a glob; `**` followed by `/` takes two automaton states. */
  datatype Token = Literal(r: Rune) | Question | Star | Any | Dirs | DirsIn

  function Tokens(p: Text): (ts: seq<Token>)
    ensures WellFormed(ts)
    decreases |p|
  {
    if p == [] then []
    else if StartsDirs(p) then [Dirs, DirsIn] + Tokens(p[3..])
    else if StartsAny(p) then [Any] + Tokens(p[2..])
    else if p[0] == STAR then [Star] + Tokens(p[1..])
    else if p[0] == QUESTION then [Question] + Tokens(p[1..])
    else [Literal(p[0])] + Tokens(p[1..])
  }

  predicate WellFormed(ts: seq<Token>) {
    forall i :: 0 <= i < |ts| && ts[i].Dirs? ==> i + 1 < |ts| && ts[i + 1].DirsIn?
  }

  /** Whether the automaton accepts `s` when the tokens `ts` are still to be consumed. */
  predicate Accepts(ts: seq<Token>, s: Text)
    decreases |s|, |ts|
  {
    if ts == [] then s == []
    else
      match ts[0]
      case Literal(r) => s != [] && s[0] == r && Accepts(ts[1..], s[1..])
      case Question => s != [] && s[0] != SLASH && Accepts(ts[1..], s[1..])
      case Star => Accepts(ts[1..], s) || (s != [] && s[0] != SLASH && Accepts(ts, s[1..]))
      case Any => Accepts(ts[1..], s) || (s != [] && Accepts(ts, s[1..]))
      case Dirs =>
        || (|ts| >= 2 && Accepts(ts[2..], s))
        || (s != [] && Accepts(ts[1..], s[1..]))
        || (s != [] && s[0] == SLASH && |ts| >= 2 && Accepts(ts[2..], s[1..]))
      case DirsIn =>
        s != [] && (Accepts(ts, s[1..]) || (s[0] == SLASH && Accepts(ts[1..], s[1..])))
  }

  lemma {:induction false} StarAccepts(ts: seq<Token>, s: Text)
    requires ts != [] && ts[0].Star?
    ensures Accepts(ts, s) <==> exists k :: 0 <= k <= |s| && SLASH !in s[..k] && Accepts(ts[1..], s[k..])
    decreases |s|
  {
    if Accepts(ts, s) {
      if Accepts(ts[1..], s) {
        assert s[0..] == s;
        assert SLASH !in s[..0];
      } else {
        StarAccepts(ts, s[1..]);
        var k :| 0 <= k <= |s[1..]| && SLASH !in s[1..][..k] && Accepts(ts[1..], s[1..][k..]);
        assert s[1..][k..] == s[k + 1..];
        assert s[..k + 1] == [s[0]] + s[1..][..k];
      }
    }
    if k :| 0 <= k <= |s| && SLASH !in s[..k] && Accepts(ts[1..], s[k..]) {
      if k == 0 {
        assert s[0..] == s;
      } else {
        assert s[1..][k - 1..] == s[k..];
        assert s[..k] == [s[0]] + s[1..][..k - 1];
        StarAccepts(ts, s[1..]);
      }
    }
  }

  lemma {:induction false} AnyAccepts(ts: seq<Token>, s: Text)
    requires ts != [] && ts[0].Any?
    ensures Accepts(ts, s) <==> exists k :: 0 <= k <= |s| && Accepts(ts[1..], s[k..])
    decreases |s|
  {
    if Accepts(ts, s) {
      if Accepts(ts[1..], s) {
        assert s[0..] == s;
      } else {
        AnyAccepts(ts, s[1..]);
        var k :| 0 <= k <= |s[1..]| && Accepts(ts[1..], s[1..][k..]);
        assert s[1..][k..] == s[k + 1..];
      }
    }
    if k :| 0 <= k <= |s| && Accepts(ts[1..], s[k..]) {
      if k == 0 {
        assert s[0..] == s;
      } else {
        assert s[1..][k - 1..] == s[k..];
        AnyAccepts(ts, s[1..]);
      }
    }
  }

  lemma {:induction false} DirsInAccepts(ts: seq<Token>, s: Text)
    requires ts != [] && ts[0].DirsIn?
    ensures Accepts(ts, s) <==> exists k :: 1 <= k <= |s| && s[k - 1] == SLASH && Accepts(ts[1..], s[k..])
    decreases |s|
  {
    if Accepts(ts, s) {
      if !(s[0] == SLASH && Accepts(ts[1..], s[1..])) {
        DirsInAccepts(ts, s[1..]);
        var k :| 1 <= k <= |s[1..]| && s[1..][k - 1] == SLASH && Accepts(ts[1..], s[1..][k..]);
        assert s[1..][k..] == s[k + 1..];
      }
    }
    if k :| 1 <= k <= |s| && s[k - 1] == SLASH && Accepts(ts[1..], s[k..]) {
      if k > 1 {
        assert s[1..][k - 1..] == s[k..];
        assert s[1..][k - 2] == SLASH;
        DirsInAccepts(ts, s[1..]);
      }
    }
  }

  lemma DirsAccepts(ts: seq<Token>, s: Text)
    requires |ts| >= 2 && ts[0].Dirs? && ts[1].DirsIn?
    ensures Accepts(ts, s)
       <==> exists k :: 0 <= k <= |s| && (k == 0 || s[k - 1] == SLASH) && Accepts(ts[2..], s[k..])
  {
    assert s[0..] == s;
    assert ts[1..][1..] == ts[2..];
    if s != [] {
      var tail := s[1..];
      DirsInAccepts(ts[1..], tail);
      if k :| 1 <= k <= |tail| && tail[k - 1] == SLASH && Accepts(ts[2..], tail[k..]) {
        assert tail[k..] == s[k + 1..];
        assert s[k] == SLASH;
      }
      if k :| 2 <= k <= |s| && s[k - 1] == SLASH && Accepts(ts[2..], s[k..]) {
        assert tail[k - 1..] == s[k..];
        assert tail[k - 2] == SLASH;
      }
    }
  }

  /** The automaton of a glob accepts exactly the texts the glob matches. */
  lemma {:induction false} TokensAcceptMatches(p: Text, s: Text)
    ensures Accepts(Tokens(p), s) <==> Matches(p, s)
    decreases |p|, |s|
  {
    var ts := Tokens(p);
    if p == [] {
    } else if StartsDirs(p) {
      DirsAccepts(ts, s);
      assert ts[2..] == Tokens(p[3..]);
      forall k | 0 <= k <= |s| ensures Accepts(ts[2..], s[k..]) <==> Matches(p[3..], s[k..]) {
        TokensAcceptMatches(p[3..], s[k..]);
      }
    } else if StartsAny(p) {
      AnyAccepts(ts, s);
      assert ts[1..] == Tokens(p[2..]);
      forall k | 0 <= k <= |s| ensures Accepts(ts[1..], s[k..]) <==> Matches(p[2..], s[k..]) {
        TokensAcceptMatches(p[2..], s[k..]);
      }
    } else if p[0] == STAR {
      StarAccepts(ts, s);
      assert ts[1..] == Tokens(p[1..]);
      forall k | 0 <= k <= |s| ensures Accepts(ts[1..], s[k..]) <==> Matches(p[1..], s[k..]) {
        TokensAcceptMatches(p[1..], s[k..]);
      }
    } else {
      assert ts[1..] == Tokens(p[1..]);
      if s != [] {
        TokensAcceptMatches(p[1..], s[1..]);
      }
    }
  }
}
