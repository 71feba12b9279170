/**
 The authority section of the Redis proxy's configuration: every stretch between the AUTHORITY and
 the SERVERS marker is replaced by a generated section.  A text is a sequence of tokens, characters
 and sections, and a rewrite changes the contents of the sections and nothing else.
 */
module PredixyConfig {
  function Hashes(n: nat): (s: string)
    ensures |s| == n && forall k :: 0 <= k < n ==> s[k] == '#'
  {
    seq(n, k => '#')
  }

  /** The line that opens the section: 80 characters. */
  const PREV := Hashes(35) + " AUTHORITY " + Hashes(34)
  /** The line that closes it: 80 characters. */
  const NEXT := Hashes(35) + " SERVERS " + Hashes(36)

  predicate NoHash(s: string) {
    forall k :: 0 <= k < |s| ==> s[k] != '#'
  }

  /** The character at a place, or a space outside the text. */
  function At(s: string, k: int): char {
    if 0 <= k < |s| then s[k] else ' '
  }

  /** What the solver needs of the two markers. */
  lemma Markers()
    ensures |PREV| == 80 && |NEXT| == 80
    ensures forall k :: 0 <= k < 35 ==> PREV[k] == '#' && NEXT[k] == '#'
    ensures PREV[35] == ' ' && PREV[36] == 'A' && PREV[45] == ' '
    ensures forall k :: 35 < k < 45 ==> PREV[k] != ' ' && PREV[k] != '#'
    ensures forall k :: 46 <= k < 80 ==> PREV[k] == '#'
    ensures NEXT[36] == 'S'
  {
  }

  /** The two lines: their names between hashes. */
  lemma MarkersSpelled()
    ensures |PREV| == |NEXT| == 80 && PREV[35..46] == " AUTHORITY " && NEXT[35..44] == " SERVERS "
    ensures forall k :: 0 <= k < 80 ==> (k < 35 || k >= 46 ==> PREV[k] == '#') && (k < 35 || k >= 44 ==> NEXT[k] == '#')
  {
  }

  /** The length of the longest prefix without '#'. */
  function Run(t: string): (n: nat)
    ensures n <= |t| && NoHash(t[..n]) && (n < |t| ==> t[n] == '#')
  {
    if t == "" || t[0] == '#' then 0 else
      var n := Run(t[1..]);
      assert forall k :: 0 < k < n + 1 ==> t[k] == t[1..][k - 1] == t[1..][..n][k - 1];
      1 + n
  }

  /** `t` starts with a marked section. */
  predicate Matches(t: string) {
    var rest := t[if |PREV| <= |t| then |PREV| else |t|..];
    PREV <= t && Run(rest) >= 1 && NEXT <= rest[Run(rest)..]
  }

  function Content(t: string): (c: string)
    requires Matches(t)
    ensures c != "" && NoHash(c) && PREV + c + NEXT <= t
  {
    ContentFits(t);
    t[|PREV|..][..Run(t[|PREV|..])]
  }

  lemma ContentFits(t: string)
    requires Matches(t)
    ensures PREV + t[|PREV|..][..Run(t[|PREV|..])] + NEXT <= t
  {
    hide Hashes;
    var rest := t[|PREV|..];
    var c := rest[..Run(rest)];
    var after := rest[Run(rest)..];
    assert after == NEXT + after[|NEXT|..];
    assert rest == c + after && t == PREV + rest;
    assert t == PREV + c + NEXT + after[|NEXT|..];
  }

  lemma RunOf(c: string, rest: string)
    requires NoHash(c) && rest != "" && rest[0] == '#'
    ensures Run(c + rest) == |c|
  {
    var t := c + rest;
    assert t[|c|] == '#';
    assert Run(t) > |c| ==> At(t[..Run(t)], |c|) == At(t, |c|);
  }

  /** The match the expression describes is unique: the content is the whole stretch without '#'. */
  lemma MatchesMeans(t: string, c: string)
    requires c != "" && NoHash(c) && PREV + c + NEXT <= t
    ensures Matches(t) && Content(t) == c
  {
    Markers();
    var rest := t[|PREV|..];
    var after := rest[|c|..];
    assert t[..|PREV + c + NEXT|] == PREV + c + NEXT;
    assert t == PREV + c + NEXT + t[|PREV + c + NEXT|..];
    assert rest == c + after && after == NEXT + t[|PREV + c + NEXT|..];
    RunOf(c, after);
  }

  // ---- Tokens ----

  datatype Token = Plain(c: char) | Section(content: string)

  function Width(content: string): nat {
    |PREV| + |content| + |NEXT|
  }

  function Tokens(t: string): seq<Token>
    decreases |t|
  {
    if t == "" then []
    else if Matches(t) then
      Markers();
      [Section(Content(t))] + Tokens(t[Width(Content(t))..])
    else [Plain(t[0])] + Tokens(t[1..])
  }

  function Text(token: Token): string {
    match token
    case Plain(c) => [c]
    case Section(content) => PREV + content + NEXT
  }

  function Flat(tokens: seq<Token>): string {
    if tokens == [] then "" else Text(tokens[0]) + Flat(tokens[1..])
  }

  /** Nothing is lost in the tokens. */
  lemma {:induction false} FlatTokens(t: string)
    ensures Flat(Tokens(t)) == t
    decreases |t|
  {
    hide Matches;
    Markers();
    if t == "" {
    } else if Matches(t) {
      var c := Content(t);
      FlatTokens(t[Width(c)..]);
      assert t == (PREV + c + NEXT) + t[Width(c)..];
      assert Tokens(t)[1..] == Tokens(t[Width(c)..]);
    } else {
      FlatTokens(t[1..]);
      assert Tokens(t)[1..] == Tokens(t[1..]);
      assert t == [t[0]] + t[1..];
    }
  }

  // ---- The rewrite ----

  function Framed(section: string): string {
    "\n" + section + "\n"
  }

  /** Replacing every match, leftmost first, by the markers around the new section. */
  function Rewrite(t: string, section: string): string
    decreases |t|
  {
    if t == "" then ""
    else if Matches(t) then
      Markers();
      PREV + Framed(section) + NEXT + Rewrite(t[Width(Content(t))..], section)
    else [t[0]] + Rewrite(t[1..], section)
  }

  /** The first match of a text and of its rewrite start at the same place: up to the end of that
      opening marker the two texts agree, and then the rewrite has a line break. */
  ghost predicate AgreeTo(t: string, u: string, d: nat) {
    && d + 80 <= |t| && d + 80 < |u|
    && t[..d + 80] == u[..d + 80] && t[d..d + 80] == PREV && u[d + 80] == '\n'
    && Matches(t[d..])
  }

  lemma AgreeOneLater(t: string, u: string, x: char, d: nat)
    requires AgreeTo(t, u, d)
    ensures AgreeTo([x] + t, [x] + u, d + 1)
  {
    hide Matches;
    var t', u' := [x] + t, [x] + u;
    assert t'[..d + 81] == [x] + t[..d + 80] && u'[..d + 81] == [x] + u[..d + 80];
    assert t'[d + 1..d + 81] == t[d..d + 80];
    assert t'[d + 1..] == t[d..];
  }

  lemma AgreeHere(t: string, section: string)
    requires Matches(t)
    ensures AgreeTo(t, Rewrite(t, section), 0)
  {
    Markers();
    var u := Rewrite(t, section);
    assert u[..80] == PREV && u[80] == '\n';
    assert t[..80] == PREV && t[0..] == t;
    assert |t| >= |PREV + Content(t) + NEXT|;
  }

  lemma {:induction false} FirstMatch(t: string, section: string)
    ensures Rewrite(t, section) == t || exists d :: AgreeTo(t, Rewrite(t, section), d)
    decreases |t|
  {
    hide Matches, AgreeTo, Framed, Hashes;
    if t == "" {
    } else if Matches(t) {
      AgreeHere(t, section);
    } else {
      FirstMatch(t[1..], section);
      var u1 := Rewrite(t[1..], section);
      assert t == [t[0]] + t[1..];
      if u1 != t[1..] {
        var d :| AgreeTo(t[1..], u1, d);
        AgreeOneLater(t[1..], u1, t[0], d);
      }
    }
  }

  /** `u` reads as the start of a match with content `c`, and has an opening marker followed by a
      line break at `d`. */
  ghost predicate Spelled(u: string, c: string, d: nat) {
    && c != "" && NoHash(c) && 0 < d
    && (forall k :: 0 <= k < 80 ==> At(u, k) == At(PREV, k))
    && (forall k :: 80 <= k < 80 + |c| ==> At(u, k) == At(c, k - 80))
    && (forall k :: 80 + |c| <= k < 160 + |c| ==> At(u, k) == At(NEXT, k - (80 + |c|)))
    && (forall k :: d <= k < d + 80 ==> At(u, k) == At(PREV, k - d))
    && At(u, d + 80) == '\n'
  }

  /** The opening marker cannot overlap itself by more than its trailing hashes, and when it overlaps
      by these the content has to be its own name, which no closing marker follows. */
  lemma SpelledFar(u: string, c: string, d: nat)
    requires Spelled(u, c, d)
    ensures d >= 80
  {
    Markers();
    hide Hashes;
    var r := |c|;
    assert d < 45 ==> At(u, d + 35) == At(PREV, 35) && At(u, d + 35) == At(PREV, d + 35);
    assert d == 10 ==> At(u, 46) == At(PREV, 36) && At(u, 46) == At(PREV, 46);
    assert d >= 45;
    assert d < 80 ==> At(u, 80) == At(PREV, 80 - d) && At(u, 80) == At(c, 0) != '#';
    assert d < 80 ==> d == 45;
    assert d == 45 && r < 11 ==> At(u, 80 + r) == At(PREV, 35 + r) && At(u, 80 + r) == At(NEXT, 0);
    assert d == 45 && r > 11 ==> At(u, 91) == At(PREV, 46) && At(u, 91) == At(c, 11) != '#';
    assert d == 45 ==> r == 11;
    assert d == 45 ==> At(u, 125) == At(NEXT, 34);
  }

  lemma SpelledBehind(u: string, c: string, d: nat)
    requires Spelled(u, c, d)
    ensures d > 80 + |c|
  {
    Markers();
    hide Hashes;
    SpelledFar(u, c, d);
    assert d < 80 + |c| ==> At(u, d) == At(PREV, 0) && At(u, d) == At(c, d - 80) != '#';
    assert d == 80 + |c| ==> At(u, d + 36) == At(PREV, 36) && At(u, d + 36) == At(NEXT, 36);
  }

  lemma SharedPart(t: string, u: string, m: nat, d: nat)
    requires d <= m <= |t| && m <= |u| && t[..m] == u[..m]
    ensures t[..d] == u[..d] && t[d..m] == u[d..m]
  {
    assert t[..d] == t[..m][..d] && u[..d] == u[..m][..d];
    assert t[d..m] == t[..m][d..] && u[d..m] == u[..m][d..];
  }

  lemma AtStart(u: string, prefix: string)
    requires prefix <= u
    ensures forall k :: 0 <= k < |prefix| ==> At(u, k) == At(prefix, k)
  {
  }

  lemma AtConcat(a: string, b: string, c: string)
    ensures forall k :: 0 <= k < |a| ==> At(a + b + c, k) == At(a, k)
    ensures forall k :: |a| <= k < |a| + |b| ==> At(a + b + c, k) == At(b, k - |a|)
    ensures forall k :: |a| + |b| <= k < |a| + |b| + |c| ==> At(a + b + c, k) == At(c, k - (|a| + |b|))
  {
  }

  lemma AtPart(u: string, d: nat, part: string)
    requires d + |part| <= |u| && u[d..d + |part|] == part
    ensures forall k :: d <= k < d + |part| ==> At(u, k) == At(part, k - d)
  {
    assert forall k :: d <= k < d + |part| ==> u[k] == u[d..d + |part|][k - d];
  }

  lemma SpellOut(u: string, d: nat)
    requires Matches(u) && 0 < d && d + 80 < |u| && u[d..d + 80] == PREV && u[d + 80] == '\n'
    ensures Spelled(u, Content(u), d)
  {
    Markers();
    hide Hashes, Matches, At;
    var c := Content(u);
    AtStart(u, PREV + c + NEXT);
    AtConcat(PREV, c, NEXT);
    AtPart(u, d, PREV);
    AtPart(u, d + 80, "\n");
    OneChar('\n');
  }

  lemma OneChar(c: char)
    ensures At([c], 0) == c
  {
  }

  lemma AgreementSpelled(t: string, u: string, d: nat)
    requires AgreeTo(t, u, d) && d > 0 && Matches(u)
    ensures Spelled(u, Content(u), d)
  {
    hide Hashes, Matches, Spelled;
    SharedPart(t, u, d + 80, d);
    SpellOut(u, d);
  }

  lemma PrefixShared(t: string, u: string, m: nat, all: string)
    requires m <= |t| && m <= |u| && t[..m] == u[..m] && all <= u && |all| <= m
    ensures all <= t
  {
    SharedPart(t, u, m, |all|);
  }

  /** A match at the start of the rewrite is a match of the original text. */
  lemma MatchIsOld(t: string, u: string, d: nat)
    requires AgreeTo(t, u, d) && d > 0
    ensures Matches(u) ==> Matches(t)
  {
    hide Hashes, Matches, Spelled;
    if Matches(u) {
      Markers();
      var c := Content(u);
      AgreementSpelled(t, u, d);
      SpelledBehind(u, c, d);
      PrefixShared(t, u, d + 80, PREV + c + NEXT);
      MatchesMeans(t, c);
    }
  }

  /** Rewriting behind a text that does not start with a match creates none at its start. */
  lemma NoNewMatch(t: string, section: string)
    requires !Matches(t)
    ensures !Matches(Rewrite(t, section))
  {
    hide Matches;
    var u := Rewrite(t, section);
    FirstMatch(t, section);
    if u != t {
      var d :| AgreeTo(t, u, d);
      assert t[0..] == t;
      MatchIsOld(t, u, d);
    }
  }
}
