/** The concatenated certificate text, and what str.replace does to it. */
module CertTexts {
  type Text = string

  const BLANK := "\n\n"

  /** Python's str.replace(pattern, ''): left to right, all occurrences that do not overlap. */
  function Replaced(s: Text, pattern: Text): Text
    requires pattern != ""
  {
    if s == "" then ""
    else if pattern <= s then Replaced(s[|pattern|..], pattern)
    else [s[0]] + Replaced(s[1..], pattern)
  }

  /** The texts one after the other, each after a blank line. */
  function Joined(texts: seq<Text>): Text {
    if texts == [] then "" else BLANK + texts[0] + Joined(texts[1..])
  }

  /** A text without blank lines that starts with something else than a newline. */
  predicate Clean(t: Text) {
    t != "" && t[0] != '\n' && Dense(t)
  }

  predicate AllClean(texts: seq<Text>) { forall i :: 0 <= i < |texts| ==> Clean(texts[i]) }

  function Without(texts: seq<Text>, p: Text): seq<Text> {
    if texts == [] then [] else if texts[0] == p then Without(texts[1..], p) else [texts[0]] + Without(texts[1..], p)
  }

  // ---- scanning past what does not match ----------------------------------------------------------

  ghost predicate NoMatch(s: Text, k: nat, pattern: Text) { k <= |s| && !(pattern <= s[k..]) }

  lemma NoMatchTail(u: Text, r: Text, k: nat, pattern: Text)
    requires u != "" && NoMatch(u + r, k + 1, pattern)
    ensures NoMatch(u[1..] + r, k, pattern)
  {
    assert (u + r)[k + 1..] == (u[1..] + r)[k..];
  }

  lemma SkipsOne(u: Text, r: Text, pattern: Text)
    requires pattern != "" && u != "" && NoMatch(u + r, 0, pattern)
    ensures Replaced(u + r, pattern) == [u[0]] + Replaced(u[1..] + r, pattern)
  {
    assert (u + r)[0..] == u + r && (u + r)[1..] == u[1..] + r;
  }

  lemma Regrouped(u: Text, r: Text)
    requires u != ""
    ensures [u[0]] + (u[1..] + r) == u + r
  {
  }

  lemma {:induction false} Skips(u: Text, r: Text, pattern: Text)
    requires pattern != ""
    requires forall k: nat {:trigger NoMatch(u + r, k, pattern)} :: k < |u| ==> NoMatch(u + r, k, pattern)
    ensures Replaced(u + r, pattern) == u + Replaced(r, pattern)
    decreases |u|
  {
    if u == "" {
      assert u + r == r;
    } else {
      var v := u[1..];
      SkipsOne(u, r, pattern);
      forall k: nat | k < |v|
        ensures NoMatch(v + r, k, pattern)
      {
        assert NoMatch(u + r, k + 1, pattern);
        NoMatchTail(u, r, k, pattern);
      }
      Skips(v, r, pattern);
      Regrouped(u, Replaced(r, pattern));
    }
  }

  /** What follows a text: nothing, or a blank line. */
  predicate Follows(r: Text) { r == "" || (|r| >= 2 && r[0] == '\n' && r[1] == '\n') }

  lemma JoinedFollows(texts: seq<Text>)
    ensures Follows(Joined(texts))
  {
  }

  lemma Differs(s: Text, k: nat, pattern: Text, j: nat)
    requires k <= |s| && j < |pattern| && (k + j >= |s| || s[k + j] != pattern[j])
    ensures NoMatch(s, k, pattern)
  {
    assert k + j < |s| ==> s[k..][j] == s[k + j];
  }

  /** No two newlines in a row. */
  predicate Dense(t: Text) { forall i :: 0 <= i < |t| - 1 ==> t[i] != '\n' || t[i + 1] != '\n' }

  /** Inside a text, and at its end, no blank line is followed by a clean text. */
  lemma InsideNoMatch(t: Text, r: Text, p: Text, k: nat)
    requires Clean(p) && Follows(r) && k < |t| && Dense(t)
    ensures NoMatch(t + r, k, BLANK + p)
  {
    var s, q := t + r, BLANK + p;
    if k + 1 < |t| {
      Differs(s, k, q, if t[k] != '\n' then 0 else 1);
    } else if r == "" {
      Differs(s, k, q, 1);
    } else {
      assert s[k + 2] == r[1];
      Differs(s, k, q, 2);
    }
  }

  lemma DenseTail(t: Text, n: nat)
    requires Dense(t) && n <= |t|
    ensures Dense(t[n..])
  {
    forall i | 0 <= i < |t| - n - 1
      ensures t[n..][i] != '\n' || t[n..][i + 1] != '\n'
    {
      assert t[n..][i] == t[n + i] && t[n..][i + 1] == t[n + i + 1];
    }
  }

  lemma TwoNewlines(t: Text, n: nat)
    requires Dense(t)
    ensures n + 1 < |t| ==> t[n] != '\n' || t[n + 1] != '\n'
  {
  }

  lemma SamePrefix(u: Text, a: Text, b: Text)
    requires u + a <= u + b
    ensures a <= b
  {
    assert forall i :: 0 <= i < |a| ==> a[i] == (u + a)[|u| + i] == (u + b)[|u| + i];
  }

  /** The separator of a text that does not begin with `p` is passed over with its text. */
  lemma PassedOver(t: Text, r: Text, p: Text)
    requires Clean(p) && Clean(t) && Follows(r) && !(p <= t) && p != t + "\n"
    ensures Replaced(BLANK + t + r, BLANK + p) == BLANK + t + Replaced(r, BLANK + p)
  {
    var u, q := BLANK + t, BLANK + p;
    var s := u + r;
    assert s == BLANK + (t + r);
    assert !(p <= t + r) by {
      if p <= t + r { BeginsWith(p, t, r); }
    }
    forall k: nat | k < |u|
      ensures NoMatch(s, k, q)
    {
      if k >= 2 {
        InsideNoMatch(t, r, p, k - 2);
        assert s[k..] == (t + r)[k - 2..];
      } else if k == 1 {
        assert s[2] == t[0];
        Differs(s, 1, q, 1);
      } else if q <= s {
        SamePrefix(BLANK, p, t + r);
      } else {
        assert s[0..] == s;
      }
    }
    Skips(u, r, q);
  }

  /** A clean text that begins a text and what follows it begins the text, or is it with one newline more. */
  lemma BeginsWith(p: Text, t: Text, r: Text)
    requires Clean(p) && Follows(r) && p <= t + r
    ensures p <= t || p == t + "\n"
  {
    if |p| <= |t| {
      assert p == (t + r)[..|p|] == t[..|p|];
    } else {
      var z := t + r;
      assert z[|t|] == r[0] && z[|t| + 1] == r[1];
      TwoNewlines(p, |t|);
      assert |p| <= |t| + 1;
      assert t == z[..|t|] == p[..|t|] && p[|t|] == z[|t|];
      assert p == p[..|t|] + [p[|t|]];
    }
  }

  /** A text followed by nothing is passed over even when it is `p` but for a newline. */
  lemma PassedAtEnd(t: Text, p: Text)
    requires Clean(p) && Clean(t) && p == t + "\n"
    ensures Replaced(BLANK + t, BLANK + p) == BLANK + t
  {
    var u, q := BLANK + t, BLANK + p;
    assert u + "" == u;
    forall k: nat | k < |u|
      ensures NoMatch(u + "", k, q)
    {
      Differs(u, k, q, |u|);
    }
    Skips(u, "", q);
  }

  lemma MatchGoes(q: Text, w: Text)
    requires q != ""
    ensures Replaced(q + w, q) == Replaced(w, q)
  {
    assert (q + w)[|q|..] == w && q <= q + w;
  }

  lemma Separated(t: Text, r: Text, n: nat)
    requires n <= |t|
    ensures BLANK + t + r == BLANK + t[..n] + (t[n..] + r)
  {
    assert t == t[..n] + t[n..];
  }

  /** What begins with `p` loses it with its separator. */
  lemma TakenAway(t: Text, r: Text, p: Text)
    requires Clean(p) && Clean(t) && Follows(r) && p <= t
    ensures Replaced(BLANK + t + r, BLANK + p) == t[|p|..] + Replaced(r, BLANK + p)
  {
    var v, q := t[|p|..], BLANK + p;
    assert t[..|p|] == p;
    Separated(t, r, |p|);
    MatchGoes(q, v + r);
    DenseTail(t, |p|);
    forall k: nat | k < |v|
      ensures NoMatch(v + r, k, q)
    {
      InsideNoMatch(v, r, p, k);
    }
    Skips(v, r, q);
  }

  lemma NewlineMoves(t: Text, w: Text)
    ensures BLANK + t + (BLANK + w) == BLANK + (t + "\n") + ("\n" + w)
  {
    assert BLANK + w == "\n" + ("\n" + w);
  }

  /** A text that is `p` but for the newline at the end goes with the first newline of the next separator,
      which leaves the next text after a single newline. */
  lemma SwallowedUp(t: Text, next: Text, r: Text, p: Text)
    requires Clean(p) && Clean(next) && Follows(r) && p == t + "\n"
    ensures Replaced(BLANK + t + (BLANK + next + r), BLANK + p) == "\n" + next + Replaced(r, BLANK + p)
  {
    var u, q := "\n" + next, BLANK + p;
    var s := u + r;
    NewlineMoves(t, next + r);
    assert BLANK + next + r == BLANK + (next + r) && "\n" + (next + r) == s;
    MatchGoes(q, s);
    forall k: nat | k < |u|
      ensures NoMatch(s, k, q)
    {
      if k == 0 {
        assert s[1] == next[0];
        Differs(s, 0, q, 1);
      } else {
        InsideNoMatch(next, r, p, k - 1);
        assert s[k..] == (next + r)[k - 1..];
      }
    }
    Skips(u, r, q);
  }

  /** What a removal leaves of the joined texts. */
  function Pieces(texts: seq<Text>, p: Text): Text {
    if texts == [] then ""
    else if p <= texts[0] then texts[0][|p|..] + Pieces(texts[1..], p)
    else if p == texts[0] + "\n" && |texts| > 1 then "\n" + texts[1] + Pieces(texts[2..], p)
    else BLANK + texts[0] + Pieces(texts[1..], p)
  }

  /** The removal in closed form: a text that begins with `p` loses its separator and `p`, a text that is `p`
      but for a newline is swallowed when another follows, and every other text stays. */
  lemma {:induction false} ReplacedPieces(texts: seq<Text>, p: Text)
    requires AllClean(texts) && Clean(p)
    ensures Replaced(Joined(texts), BLANK + p) == Pieces(texts, p)
    decreases |texts|
  {
    if texts != [] {
      var t, rest := texts[0], texts[1..];
      JoinedFollows(rest);
      ReplacedPieces(rest, p);
      if p <= t {
        TakenAway(t, Joined(rest), p);
      } else if p != t + "\n" {
        PassedOver(t, Joined(rest), p);
      } else if rest == [] {
        PassedAtEnd(t, p);
        assert BLANK + t + "" == BLANK + t;
      } else {
        ReplacedPieces(rest[1..], p);
        JoinedFollows(rest[1..]);
        SwallowedUp(t, rest[0], Joined(rest[1..]), p);
        assert rest[1..] == texts[2..];
      }
    }
  }

  /** No text but `p` itself begins with `p`. */
  predicate Alone(texts: seq<Text>, p: Text) { forall i :: 0 <= i < |texts| ==> p <= texts[i] ==> texts[i] == p }

  /** No text but perhaps the last one is `p` but for a newline at its end. */
  predicate Apart(texts: seq<Text>, p: Text) { forall i :: 0 <= i < |texts| - 1 ==> p != texts[i] + "\n" }

  /** What there is to say of the first text. */
  lemma HeadOf(texts: seq<Text>, p: Text)
    requires texts != []
    ensures Alone(texts, p) <==> (p <= texts[0] ==> texts[0] == p) && Alone(texts[1..], p)
    ensures Apart(texts, p) <==> (|texts| > 1 ==> p != texts[0] + "\n") && Apart(texts[1..], p)
    ensures Without(texts, p) == (if texts[0] == p then [] else [texts[0]]) + Without(texts[1..], p)
  {
    var rest := texts[1..];
    assert forall i :: 0 <= i < |rest| ==> rest[i] == texts[i + 1];
    assert forall i :: 0 < i < |texts| ==> texts[i] == rest[i - 1];
    if Apart(texts, p) { assert Apart(rest, p); }
    assert texts[0] == p ==> [] + Without(rest, p) == Without(rest, p);
  }

  lemma JoinedCons(t: Text, rest: seq<Text>)
    ensures Joined([t] + rest) == BLANK + t + Joined(rest)
  {
    assert ([t] + rest)[1..] == rest;
  }

  /** Removal never leaves more than it should. */
  lemma {:induction false} PiecesFit(texts: seq<Text>, p: Text)
    requires p != ""
    ensures |Pieces(texts, p)| <= |Joined(Without(texts, p))|
    decreases |texts|
  {
    if texts != [] {
      var t, rest := texts[0], texts[1..];
      HeadOf(texts, p);
      PiecesFit(rest, p);
      JoinedCons(t, Without(rest, p));
      if p == t + "\n" && rest != [] {
        assert rest[1..] == texts[2..];
        HeadOf(rest, p);
        PiecesFit(rest[1..], p);
        JoinedCons(rest[0], Without(rest[1..], p));
      }
    }
  }

  /** A text that only begins with `p`, or is swallowed, is missed at the end. */
  lemma PiecesMiss(texts: seq<Text>, p: Text)
    requires AllClean(texts) && p != "" && texts != []
    requires (p <= texts[0] && p != texts[0]) || (p == texts[0] + "\n" && |texts| > 1)
    ensures Pieces(texts, p) != Joined(Without(texts, p))
  {
    var t, rest := texts[0], texts[1..];
    HeadOf(texts, p);
    JoinedCons(t, Without(rest, p));
    if p <= t {
      PiecesFit(rest, p);
    } else {
      assert Pieces(texts, p)[1] == texts[1][0] != '\n';
      assert Joined(Without(texts, p))[1] == '\n';
    }
  }

  lemma SameTail(u: Text, a: Text, b: Text)
    ensures u + a == u + b <==> a == b
  {
    assert (u + a)[|u|..] == a && (u + b)[|u|..] == b;
  }

  lemma {:induction false} PiecesIff(texts: seq<Text>, p: Text)
    requires AllClean(texts) && p != ""
    ensures Pieces(texts, p) == Joined(Without(texts, p)) <==> Alone(texts, p) && Apart(texts, p)
    decreases |texts|
  {
    if texts != [] {
      var t, rest := texts[0], texts[1..];
      HeadOf(texts, p);
      if (p <= t && p != t) || (p == t + "\n" && |texts| > 1) {
        PiecesMiss(texts, p);
      } else {
        PiecesIff(rest, p);
        if t == p {
          assert t[|p|..] == "";
        } else {
          JoinedCons(t, Without(rest, p));
          SameTail(BLANK + t, Pieces(rest, p), Joined(Without(rest, p)));
        }
      }
    }
  }

  /**
   * Removing a clean text from the joined clean texts leaves the other texts joined, if and only if no
   * other text begins with it and none before the last is it but for a newline at the end.
   */
  lemma RemovedIff(texts: seq<Text>, p: Text)
    requires AllClean(texts) && Clean(p)
    ensures Replaced(Joined(texts), BLANK + p) == Joined(Without(texts, p)) <==> Alone(texts, p) && Apart(texts, p)
  {
    ReplacedPieces(texts, p);
    PiecesIff(texts, p);
  }

  /** For instance, taking out "A" damages a certificate "AB" ... */
  lemma PrefixDamaged()
    ensures var texts := ["A", "AB"];
            AllClean(texts) && Replaced(Joined(texts), BLANK + "A") != Joined(Without(texts, "A"))
  {
    var texts := ["A", "AB"];
    assert texts[1] == "A" + "B";
    RemovedIff(texts, "A");
  }

  /** ... and taking out "A" with a newline damages an "A" before another certificate. */
  lemma NewlineDamaged()
    ensures var texts := ["A", "A\n", "B"];
            AllClean(texts) && Replaced(Joined(texts), BLANK + "A\n") != Joined(Without(texts, "A\n"))
  {
    var texts := ["A", "A\n", "B"];
    assert "A\n" == texts[0] + "\n";
    RemovedIff(texts, "A\n");
  }
}
