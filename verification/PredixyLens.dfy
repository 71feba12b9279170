/**
 The rewrite obeys the lens laws, over all texts and for every section without '#', and for no
 other.
 */
module PredixyLens {
  import opened PredixyConfig

  /** The tokens with new contents in every section. */
  function SetAll(tokens: seq<Token>, content: string): seq<Token> {
    seq(|tokens|, k requires 0 <= k < |tokens| => if tokens[k].Section? then Section(content) else tokens[k])
  }

  predicate HasSection(tokens: seq<Token>) {
    exists k :: 0 <= k < |tokens| && tokens[k].Section?
  }

  /** Every section holds this content. */
  predicate AllHold(tokens: seq<Token>, content: string) {
    forall k :: 0 <= k < |tokens| && tokens[k].Section? ==> tokens[k].content == content
  }

  lemma SetAllCons(token: Token, tokens: seq<Token>, content: string)
    ensures SetAll([token] + tokens, content)
            == [if token.Section? then Section(content) else token] + SetAll(tokens, content)
  {
  }

  lemma FlatCons(token: Token, tokens: seq<Token>)
    ensures Flat([token] + tokens) == Text(token) + Flat(tokens)
  {
    assert ([token] + tokens)[1..] == tokens;
  }

  /** A rewrite sets the contents of all sections and leaves every other character. */
  lemma {:induction false} RewriteSetsSections(t: string, section: string)
    ensures Rewrite(t, section) == Flat(SetAll(Tokens(t), Framed(section)))
    decreases |t|
  {
    hide Matches, Framed, Hashes, SetAll;
    if t == "" {
      NoTokens(Framed(section));
    } else if Matches(t) {
      MatchShortens(t);
      var rest := t[Width(Content(t))..];
      RewriteSetsSections(rest, section);
      SetAllCons(Section(Content(t)), Tokens(rest), Framed(section));
      FlatCons(Section(Framed(section)), SetAll(Tokens(rest), Framed(section)));
    } else {
      RewriteSetsSections(t[1..], section);
      SetAllCons(Plain(t[0]), Tokens(t[1..]), Framed(section));
      FlatCons(Plain(t[0]), SetAll(Tokens(t[1..]), Framed(section)));
    }
  }

  lemma NoTokens(content: string)
    ensures SetAll([], content) == [] && Flat([]) == ""
  {
  }

  lemma MatchShortens(t: string)
    requires Matches(t)
    ensures 160 < Width(Content(t)) <= |t|
  {
    Markers();
  }

  /** The rewritten text starts with the new section. */
  lemma NewSectionMatches(section: string, rest: string)
    requires NoHash(section)
    ensures var u := PREV + Framed(section) + NEXT + rest;
            Matches(u) && Content(u) == Framed(section) && u[Width(Framed(section))..] == rest
  {
    hide Matches, Hashes;
    var all := PREV + Framed(section) + NEXT;
    var u := all + rest;
    assert u[..|all|] == all;
    MatchesMeans(u, Framed(section));
    assert |all| == Width(Framed(section));
  }

  /** Reading after writing: the rewrite has the same sections in the same places, each holding the
      new content, and the same characters around them. */
  lemma {:induction false} PutGet(t: string, section: string)
    requires NoHash(section)
    ensures Tokens(Rewrite(t, section)) == SetAll(Tokens(t), Framed(section))
    decreases |t|
  {
    hide Matches, Framed, Hashes, SetAll;
    var u := Rewrite(t, section);
    if t == "" {
      NoTokens(Framed(section));
    } else if Matches(t) {
      MatchShortens(t);
      var rest := t[Width(Content(t))..];
      PutGet(rest, section);
      SetAllCons(Section(Content(t)), Tokens(rest), Framed(section));
      NewSectionMatches(section, Rewrite(rest, section));
    } else {
      PutGet(t[1..], section);
      SetAllCons(Plain(t[0]), Tokens(t[1..]), Framed(section));
      NoNewMatch(t, section);
      assert u[0] == t[0] && u[1..] == Rewrite(t[1..], section);
    }
  }

  /** Writing twice: the second rewrite alone counts. */
  lemma PutPut(t: string, p: string, q: string)
    requires NoHash(p)
    ensures Rewrite(Rewrite(t, p), q) == Rewrite(t, q)
  {
    hide Rewrite, Tokens, Flat, Framed;
    PutGet(t, p);
    RewriteSetsSections(t, q);
    RewriteSetsSections(Rewrite(t, p), q);
    assert SetAll(SetAll(Tokens(t), Framed(p)), Framed(q)) == SetAll(Tokens(t), Framed(q));
  }

  /** Writing what is there: a rewrite changes nothing exactly when every section holds it already. */
  lemma GetPut(t: string, section: string)
    requires NoHash(section)
    ensures Rewrite(t, section) == t <==> AllHold(Tokens(t), Framed(section))
  {
    hide Rewrite, Tokens, Flat, Framed;
    PutGet(t, section);
    RewriteSetsSections(t, section);
    FlatTokens(t);
    var tokens, f := Tokens(t), Framed(section);
    if AllHold(tokens, f) {
      assert forall k :: 0 <= k < |tokens| && tokens[k].Section? ==> tokens[k] == Section(f);
      assert SetAll(tokens, f) == tokens;
    } else {
      var k :| 0 <= k < |tokens| && tokens[k].Section? && tokens[k].content != f;
      assert SetAll(tokens, f)[k] == Section(f);
    }
  }

  /** A text without a match stays as it is, whatever the section. */
  lemma NoMatchNoChange(t: string, section: string)
    requires !HasSection(Tokens(t))
    ensures Rewrite(t, section) == t
  {
    hide Rewrite, Tokens, Flat, Framed;
    RewriteSetsSections(t, section);
    FlatTokens(t);
    assert SetAll(Tokens(t), Framed(section)) == Tokens(t);
  }

  // ---- Only '#'-free sections ----

  const EMPTY_SECTION := PREV + "\n" + NEXT

  lemma RewriteOfEmptySection(q: string)
    ensures Rewrite(EMPTY_SECTION, q) == PREV + Framed(q) + NEXT
  {
    hide Matches, Hashes;
    MatchesMeans(EMPTY_SECTION, "\n");
    assert EMPTY_SECTION[Width("\n")..] == "";
  }

  lemma {:induction false} RewriteIsNotEmpty(t: string, q: string)
    requires t != ""
    ensures Rewrite(t, q) != ""
  {
    Markers();
  }

  lemma HashSectionIsShorter(p: string, u: string)
    requires !NoHash(p) && u == PREV + Framed(p) + NEXT && Matches(u)
    ensures Width(Content(u)) < |u|
  {
    hide Matches, Hashes;
    var c, f := Content(u), Framed(p);
    var k :| 0 <= k < |p| && p[k] == '#';
    assert f[k + 1] == '#';
    assert PREV + c <= u by {
      assert u[..|PREV + c + NEXT|] == PREV + c + NEXT;
      assert u[..|PREV + c|] == u[..|PREV + c + NEXT|][..|PREV + c|];
    }
    assert forall j :: 0 <= j < |c| ==> At(c, j) == At(u, |PREV| + j);
    assert forall j :: 0 <= j < |f| ==> At(f, j) == At(u, |PREV| + j);
    assert |c| == |f| ==> At(c, k + 1) == At(f, k + 1);
  }

  /** Once a section with '#' has been written, the next rewrite does not find its end. */
  lemma HashBreaksPutPut(p: string)
    requires !NoHash(p)
    ensures Rewrite(Rewrite(EMPTY_SECTION, p), "") != Rewrite(EMPTY_SECTION, "")
  {
    hide Matches, Hashes, Framed;
    RewriteOfEmptySection(p);
    RewriteOfEmptySection("");
    Markers();
    var u, b := Rewrite(EMPTY_SECTION, p), PREV + Framed("") + NEXT;
    NewSectionMatches("", "");
    assert b + "" == b;
    if Matches(u) {
      HashSectionIsShorter(p, u);
      var rest := u[Width(Content(u))..];
      RewriteIsNotEmpty(rest, "");
      assert Rewrite(u, "") == b + Rewrite(rest, "");
    } else {
      NoNewMatch(u, "");
    }
  }

  /** The second write hides the first, for all texts and all second sections, exactly when the first
      section has no '#'. */
  lemma PutPutExactlyWithoutHash(p: string)
    ensures (forall t, q :: Rewrite(Rewrite(t, p), q) == Rewrite(t, q)) <==> NoHash(p)
  {
    if NoHash(p) {
      forall t, q ensures Rewrite(Rewrite(t, p), q) == Rewrite(t, q) {
        PutPut(t, p, q);
      }
    } else {
      HashBreaksPutPut(p);
    }
  }
}
