/** Paths as byte strings: the tokens of strtok, and the parent and leaf of split_path. */
module Paths {
  import opened Bytes
  import opened Consistency

  type Name = seq<byte>

  const MAX_PATH_LEN: nat := 10

  /** The length of the longest prefix without a slash. */
  function Span(p: seq<byte>): (n: nat)
    ensures n <= |p| && SLASH !in p[..n] && (n < |p| ==> p[n] == SLASH)
  {
    if p == [] || p[0] == SLASH then 0 else
      var n := Span(p[1..]);
      assert p[..n + 1] == [p[0]] + p[1..][..n];
      n + 1
  }

  /** The components of a path: its maximal runs without a slash. */
  function Tokens(p: seq<byte>): seq<Name>
    decreases |p|
  {
    if p == [] then []
    else if p[0] == SLASH then Tokens(p[1..])
    else [p[..Span(p)]] + Tokens(p[Span(p)..])
  }

  /** What determines the components: text without a slash is one component, no text is none, and a slash separates. */
  lemma TokensAre(p: seq<byte>, q: seq<byte>)
    ensures SLASH !in p ==> Tokens(p) == if p == [] then [] else [p]
    ensures Tokens(p + [SLASH] + q) == Tokens(p) + Tokens(q)
  {
    hide Tokens;
    if SLASH !in p { OneToken(p); }
    TokensSlash(p);
    TokensJoin(p + [SLASH], q);
  }

  lemma OneToken(p: seq<byte>)
    requires SLASH !in p
    ensures Tokens(p) == if p == [] then [] else [p]
  {
    SpanWhole(p);
    assert p[..|p|] == p && p[|p|..] == [];
  }

  /** A component, cut to the length of a name. */
  function Cut(t: Name): Name {
    if |t| > MAX_NAME_LEN then t[..MAX_NAME_LEN] else t
  }

  /** That is its first 27 bytes, or all of it. */
  lemma CutIs(t: Name)
    ensures Cut(t) <= t && |Cut(t)| == if |t| <= 27 then |t| else 27
  {
  }

  function CutAll(ts: seq<Name>): (r: seq<Name>)
    ensures |r| == |ts|
  {
    seq(|ts|, i requires 0 <= i < |ts| => Cut(ts[i]))
  }

  /** What parse leaves in argv: at most ten components, each cut. */
  function Argv(p: seq<byte>): seq<Name> {
    var ts := CutAll(Tokens(p));
    if |ts| > MAX_PATH_LEN then ts[..MAX_PATH_LEN] else ts
  }

  /** translate skips a leading ".". */
  function Canon(ns: seq<Name>): seq<Name> {
    if ns != [] && ns[0] == [DOT] then ns[1..] else ns
  }

  /** The names that a path is resolved by. */
  function Route(p: seq<byte>): seq<Name> { Canon(Argv(p)) }

  /** They are the first ten components, each cut; a leading "." is skipped. */
  lemma RouteIs(p: seq<byte>)
    ensures var ts := if |Tokens(p)| <= 10 then Tokens(p) else Tokens(p)[..10];
      var skip := if ts != [] && ts[0] == [DOT] then 1 else 0;
      && |Route(p)| == |ts| - skip
      && forall k :: 0 <= k < |Route(p)| ==> Route(p)[k] == Cut(ts[k + skip])
  {
    hide Tokens;
  }

  // ---- strtok and parse ------------------------------------------------------------------------

  datatype Token = NoToken | Token(text: Name, rest: seq<byte>)

  /** strtok with the delimiter "/". */
  function StrTok(p: seq<byte>): Token {
    if p == [] then NoToken
    else if p[0] == SLASH then StrTok(p[1..])
    else Token(p[..Span(p)], p[Span(p)..])
  }

  lemma {:induction false} StrTokTokens(p: seq<byte>)
    ensures match StrTok(p) case NoToken => Tokens(p) == [] case Token(t, rest) => Tokens(p) == [t] + Tokens(rest)
  {
    if p != [] && p[0] == SLASH { StrTokTokens(p[1..]); }
  }

  /** parse: splits the path into at most ten names. */
  method Parse(path: seq<byte>) returns (argv: seq<Name>)
    ensures argv == Argv(path)
    ensures |argv| == if |Tokens(path)| <= 10 then |Tokens(path)| else 10
    ensures forall k :: 0 <= k < |argv| ==>
      argv[k] <= Tokens(path)[k] && |argv[k]| == if |Tokens(path)[k]| <= 27 then |Tokens(path)[k]| else 27
  {
    argv := [];
    var rest := path;
    var i := 0;
    while i < MAX_PATH_LEN
      invariant 0 <= i <= MAX_PATH_LEN && |argv| == i && i <= |Tokens(path)|
      invariant argv == CutAll(Tokens(path))[..i]
      invariant Tokens(path)[i..] == Tokens(rest)
    {
      StrTokTokens(rest);
      var tok := StrTok(rest);
      if tok == NoToken { break; }
      assert Tokens(path)[i] == tok.text;
      argv := argv + [if |tok.text| > MAX_NAME_LEN then tok.text[..MAX_NAME_LEN] else tok.text];
      rest := tok.rest;
      i := i + 1;
    }
  }

  // ---- basename and dirname ----------------------------------------------------------------------

  /** The path without its trailing slashes. */
  function StripEnd(p: seq<byte>): seq<byte> {
    if p != [] && p[|p| - 1] == SLASH then StripEnd(p[..|p| - 1]) else p
  }

  /** The part up to and including the last slash. */
  function UpToLast(p: seq<byte>): (d: seq<byte>)
    ensures |d| <= |p| && d == p[..|d|]
    ensures d == [] || d[|d| - 1] == SLASH
    ensures SLASH !in p[|d|..]
  {
    if p == [] || p[|p| - 1] == SLASH then p
    else
      var d := UpToLast(p[..|p| - 1]);
      assert p[|d|..] == p[..|p| - 1][|d|..] + [p[|p| - 1]];
      d
  }

  /** basename (POSIX.1-2017, System Interfaces, basename()). */
  function Basename(p: seq<byte>): seq<byte> {
    var q := StripEnd(p);
    if p == [] then [DOT] else if q == [] then [SLASH] else q[|UpToLast(q)|..]
  }

  /** dirname (POSIX.1-2017, System Interfaces, dirname()). */
  function Dirname(p: seq<byte>): seq<byte> {
    var q := StripEnd(p);
    if p == [] then [DOT]
    else if q == [] then [SLASH]
    else if UpToLast(q) == [] then [DOT]
    else if StripEnd(UpToLast(q)) == [] then [SLASH]
    else StripEnd(UpToLast(q))
  }

  // ---- the two splitters agree ----------------------------------------------------------------------

  lemma {:induction false} TokensJoin(d: seq<byte>, e: seq<byte>)
    requires d == [] || d[|d| - 1] == SLASH
    ensures Tokens(d + e) == Tokens(d) + Tokens(e)
    decreases |d|
  {
    if d == [] {
      assert d + e == e;
    } else if d[0] == SLASH {
      assert (d + e)[1..] == d[1..] + e;
      TokensJoin(d[1..], e);
    } else {
      var n := Span(d);
      assert d[|d| - 1] !in d[..n];
      SpanJoin(d, e);
      assert (d + e)[..n] == d[..n] && (d + e)[n..] == d[n..] + e;
      TokensJoin(d[n..], e);
    }
  }

  lemma {:induction false} SpanJoin(d: seq<byte>, e: seq<byte>)
    requires Span(d) < |d|
    ensures Span(d + e) == Span(d)
  {
    if d[0] != SLASH {
      assert (d + e)[1..] == d[1..] + e;
      SpanJoin(d[1..], e);
    }
  }

  lemma {:induction false} TokensSlash(p: seq<byte>)
    ensures Tokens(p + [SLASH]) == Tokens(p)
    decreases |p|
  {
    if p == [] {
      assert p + [SLASH] == [SLASH];
    } else if p[0] == SLASH {
      assert (p + [SLASH])[1..] == p[1..] + [SLASH];
      TokensSlash(p[1..]);
    } else {
      var n := Span(p);
      SpanSlash(p);
      assert (p + [SLASH])[..n] == p[..n] && (p + [SLASH])[n..] == p[n..] + [SLASH];
      TokensSlash(p[n..]);
    }
  }

  lemma {:induction false} SpanSlash(p: seq<byte>)
    ensures Span(p + [SLASH]) == Span(p)
  {
    if p != [] && p[0] != SLASH {
      assert (p + [SLASH])[1..] == p[1..] + [SLASH];
      SpanSlash(p[1..]);
    }
  }

  lemma {:induction false} StripEndTokens(p: seq<byte>)
    ensures Tokens(StripEnd(p)) == Tokens(p)
  {
    if p != [] && p[|p| - 1] == SLASH {
      var q := p[..|p| - 1];
      assert p == q + [SLASH];
      TokensSlash(q);
      StripEndTokens(q);
    }
  }

  lemma SpanWhole(e: seq<byte>)
    requires SLASH !in e
    ensures Span(e) == |e|
  {
  }

  /** The text after the last slash of a path without trailing slashes is its last token. */
  lemma LastToken(q: seq<byte>)
    requires q != [] && q[|q| - 1] != SLASH
    ensures var d := UpToLast(q); Tokens(q) == Tokens(d) + [q[|d|..]]
  {
    var d := UpToLast(q);
    var e := q[|d|..];
    assert q == d + e;
    TokensJoin(d, e);
    SpanWhole(e);
    assert e[..|e|] == e && e[|e|..] == [];
  }

  lemma DirnameTokens(q: seq<byte>, d: seq<byte>)
    requires d == UpToLast(q) && q != [] && q[|q| - 1] != SLASH
    ensures d == [] ==> Tokens(d) == [] && Tokens(Dirname(q)) == [[DOT]]
    ensures d != [] ==> Tokens(Dirname(q)) == Tokens(d)
  {
    hide UpToLast;
    StripEndTokens(d);
    SpanWhole([DOT]);
    assert [DOT][..1] == [DOT] && [DOT][1..] == [];
    assert Tokens([SLASH]) == [];
  }

  lemma {:induction false} StripTwice(p: seq<byte>)
    ensures StripEnd(StripEnd(p)) == StripEnd(p)
  {
    if p != [] && p[|p| - 1] == SLASH { StripTwice(p[..|p| - 1]); }
  }

  /** The leaf is the last token, and the parent's tokens are the others; a path without a slash has the parent ".". */
  lemma SplitTokens(p: seq<byte>)
    requires Tokens(p) != []
    ensures var ts := Tokens(p); var n := |ts| - 1;
      Basename(p) == ts[n] && (Tokens(Dirname(p)) == ts[..n] || (n == 0 && Tokens(Dirname(p)) == [[DOT]]))
  {
    hide UpToLast;
    var q := StripEnd(p);
    StripEndTokens(p);
    StripEndLast(p);
    StripTwice(p);
    assert Dirname(q) == Dirname(p);
    LastToken(q);
    DirnameTokens(q, UpToLast(q));
  }

  /** split_path: the leaf is the last component, cut to the length of a name, and the parent holds the other
      components. */
  method SplitPath(path: seq<byte>) returns (parent: seq<byte>, leaf: Name)
    ensures parent == Dirname(path) && leaf == Cut(Basename(path)) && |leaf| <= MAX_NAME_LEN
    ensures Tokens(path) != [] ==> var ts := Tokens(path); var n := |ts| - 1;
      leaf == Cut(ts[n]) && (Tokens(parent) == ts[..n] || (n == 0 && Tokens(parent) == [[DOT]]))
    ensures Tokens(path) == [] ==> Tokens(parent) == [] || Tokens(parent) == [[DOT]]
  {
    hide Tokens, Dirname, Basename;
    leaf := Basename(path);
    if |leaf| > MAX_NAME_LEN { leaf := leaf[..MAX_NAME_LEN]; }
    parent := Dirname(path);
    if Tokens(path) != [] { SplitTokens(path); } else { RootTokens(path); }
  }

  lemma {:induction false} StripEndLast(p: seq<byte>)
    ensures var q := StripEnd(p); q == [] || q[|q| - 1] != SLASH
  {
    if p != [] && p[|p| - 1] == SLASH { StripEndLast(p[..|p| - 1]); }
  }

  /** The tokens of a path contain no slash and are not empty. */
  lemma {:induction false} TokensGood(p: seq<byte>)
    requires 0 !in p
    ensures forall t: Name :: t in Tokens(p) ==> 0 < |t| && SLASH !in t && 0 !in t
    decreases |p|
  {
    if p == [] {
    } else if p[0] == SLASH {
      TokensGood(p[1..]);
    } else {
      TokensGood(p[Span(p)..]);
    }
  }

  lemma CutAllLast(ts: seq<Name>)
    requires ts != []
    ensures CutAll(ts) == CutAll(ts[..|ts| - 1]) + [Cut(ts[|ts| - 1])]
  {
  }

  lemma CutDot(ts: seq<Name>)
    requires |ts| == 1
    ensures CutAll(ts) == [Cut(ts[0])] && Cut([DOT]) == [DOT]
  {
  }

  /** A path of one to ten components that is more than ".": its route is its parent's route and then its leaf. */
  lemma SplitRoute(p: seq<byte>)
    requires |Tokens(p)| <= MAX_PATH_LEN && Route(p) != [] && 0 !in p
    ensures Route(p) == Route(Dirname(p)) + [Cut(Basename(p))]
    ensures GoodName(Cut(Basename(p)))
  {
    hide Tokens, Basename, Dirname, CutAll;
    var ts := Tokens(p);
    SplitTokens(p);
    TokensGood(p);
    var n := |ts| - 1;
    CutAllLast(ts);
    if n == 0 {
      CutDot(ts);
      CutDot([[DOT]]);
      NoNames(ts[..0]);
    }
  }

  lemma NoNames(ts: seq<Name>)
    requires ts == []
    ensures CutAll(ts) == []
  {
  }

  lemma DotTokens()
    ensures Tokens([DOT]) == [[DOT]] && Tokens([SLASH]) == [] && Tokens([]) == []
  {
    SpanWhole([DOT]);
    assert [DOT][..1] == [DOT] && [DOT][1..] == [];
  }

  /** The root has no parent but itself. */
  lemma RootTokens(p: seq<byte>)
    requires Tokens(p) == []
    ensures Tokens(Dirname(p)) == [] || Tokens(Dirname(p)) == [[DOT]]
  {
    hide Tokens;
    DotTokens();
    StripEndTokens(p);
    StripEndLast(p);
    if StripEnd(p) != [] { LastToken(StripEnd(p)); }
  }

  lemma RootRoute(p: seq<byte>)
    requires |Tokens(p)| <= MAX_PATH_LEN && Route(p) == []
    ensures Route(Dirname(p)) == []
  {
    hide Tokens, Dirname, Basename, CutAll;
    var ts := Tokens(p);
    if ts == [] {
      RootTokens(p);
    } else {
      SplitTokens(p);
      assert |ts| == 1;
      NoNames(ts[..0]);
    }
    NoNames([]);
    CutDot([[DOT]]);
  }

  /** Beyond ten components, parse sees no difference between a path and its parent. */
  lemma LongRoute(p: seq<byte>)
    requires |Tokens(p)| > MAX_PATH_LEN
    ensures Route(Dirname(p)) == Route(p)
  {
    hide Tokens, Basename, Dirname, Cut;
    SplitTokens(p);
    var ts := Tokens(p);
    assert CutAll(ts[..|ts| - 1])[..MAX_PATH_LEN] == CutAll(ts)[..MAX_PATH_LEN];
  }

  /** Is the path its own parent, as far as its resolution goes? */
  predicate OwnParent(p: seq<byte>) {
    |Tokens(p)| > MAX_PATH_LEN || Route(p) == []
  }

  /** The names that lead to the entry of a path: those of its parent, and its leaf. */
  function EntryRoute(p: seq<byte>): seq<Name> {
    Route(Dirname(p)) + [Cut(Basename(p))]
  }

  /** A path is resolved by its parent's names and its leaf unless it is the root or has more than ten components; those
      are resolved by the names of their parents. */
  lemma ParentRoute(p: seq<byte>)
    requires 0 !in p
    ensures OwnParent(p) <==> Route(p) == Route(Dirname(p))
    ensures OwnParent(p) <==> Route(p) != EntryRoute(p)
  {
    hide Tokens, Basename, Dirname, Cut, Route;
    if |Tokens(p)| > MAX_PATH_LEN {
      LongRoute(p);
    } else if Route(p) == [] {
      RootRoute(p);
    } else {
      SplitRoute(p);
    }
    assert |EntryRoute(p)| == |Route(Dirname(p))| + 1;
  }
}
