/** Placeholder substitution (app/domain/document_templates.py): the regular
    expression {{ \s* (\w+) \s* }} replaced everywhere, left to right. */
module DocumentTemplates {
  import opened Base

  /** The regular expression's two character classes. */
  datatype CharClasses = CharClasses(isSpace: char -> bool, isWord: char -> bool) {
    /** What Python's \s and \w satisfy over all of Unicode: no character is in
        both, and a brace is in neither. */
    ghost predicate Valid() {
      && (forall c :: !(isSpace(c) && isWord(c)))
      && !isSpace('{') && !isSpace('}') && !isWord('{') && !isWord('}')
    }
  }

  const OPEN: string := "{{"
  const CLOSE: string := "}}"

  predicate All(f: char -> bool, t: string, from: nat, to: nat)
    requires from <= to <= |t|
  {
    forall i :: from <= i < to ==> f(t[i])
  }

  /** The grammar: two braces, spaces up to a, a non-empty word up to b, spaces,
      and two braces; the name is the word. */
  predicate IsPlaceholderAt(k: CharClasses, source: string, name: string, a: nat, b: nat) {
    var close := |source| - 2;
    && 2 <= a < b <= close
    && source[..2] == OPEN && source[close..] == CLOSE
    && All(k.isSpace, source, 2, a) && All(k.isWord, source, a, b) && All(k.isSpace, source, b, close)
    && name == source[a..b]
  }

  ghost predicate IsPlaceholder(k: CharClasses, source: string, name: string) {
    exists a, b :: IsPlaceholderAt(k, source, name, a, b)
  }

  /** Where a greedy repetition from i ends. */
  function RunEnd(f: char -> bool, t: string, i: nat): (j: nat)
    requires i <= |t|
    ensures i <= j <= |t| && All(f, t, i, j)
    ensures j < |t| ==> !f(t[j])
    decreases |t| - i
  {
    if i == |t| || !f(t[i]) then i else RunEnd(f, t, i + 1)
  }

  /** The regular expression tried at the start of t: the match's length and
      captured name. Greedy, without backtracking. */
  function MatchPrefix(k: CharClasses, t: string): (m: Option<(nat, string)>)
    ensures m.Some? ==> 5 <= m.value.0 <= |t|
  {
    if |t| < 2 || t[..2] != OPEN then None
    else
      var a := RunEnd(k.isSpace, t, 2);
      var b := RunEnd(k.isWord, t, a);
      var c := RunEnd(k.isSpace, t, b);
      if a < b && c + 2 <= |t| && t[c..c + 2] == CLOSE then Some((c + 2, t[a..b])) else None
  }

  /** Greedy matching decides the grammar: a prefix of t is a placeholder with
      some name exactly when it is the one MatchPrefix finds. */
  lemma MatchPrefixDecidesGrammar(k: CharClasses, t: string, n: nat, name: string)
    requires k.Valid() && n <= |t|
    ensures MatchPrefix(k, t) == Some((n, name)) <==> IsPlaceholder(k, t[..n], name)
  {
    hide MatchPrefix;
    if MatchPrefix(k, t) == Some((n, name)) {
      MatchIsPlaceholder(k, t, n, name);
    }
    if IsPlaceholder(k, t[..n], name) {
      var a, b :| IsPlaceholderAt(k, t[..n], name, a, b);
      PlaceholderIsMatch(k, t, n, name, a, b);
    }
  }

  lemma MatchIsPlaceholder(k: CharClasses, t: string, n: nat, name: string)
    requires n <= |t| && MatchPrefix(k, t) == Some((n, name))
    ensures IsPlaceholder(k, t[..n], name)
  {
    var a := RunEnd(k.isSpace, t, 2);
    var b := RunEnd(k.isWord, t, a);
    assert t[..n][..2] == t[..2] && t[..n][n - 2..] == t[n - 2..n];
    assert t[..n][a..b] == t[a..b];
    assert IsPlaceholderAt(k, t[..n], name, a, b);
  }

  lemma PlaceholderIsMatch(k: CharClasses, t: string, n: nat, name: string, a: nat, b: nat)
    requires k.Valid() && n <= |t| && IsPlaceholderAt(k, t[..n], name, a, b)
    ensures MatchPrefix(k, t) == Some((n, name))
  {
    assert forall i :: 0 <= i < n ==> t[i] == t[..n][i];
    assert t[n - 2] == t[..n][n - 2..][0];
    RunEndsAt(k.isSpace, t, 2, a);
    RunEndsAt(k.isWord, t, a, b);
    RunEndsAt(k.isSpace, t, b, n - 2);
    assert t[..2] == t[..n][..2] && t[n - 2..n] == t[..n][n - 2..];
    assert t[a..b] == t[..n][a..b];
  }

  lemma RunEndsAt(f: char -> bool, t: string, i: nat, j: nat)
    requires i <= j < |t| && All(f, t, i, j) && !f(t[j])
    ensures RunEnd(f, t, i) == j
  {
  }

  // ----- Rendering -----

  function ValueOf(context: map<string, string>, name: string): string {
    if name in context then context[name] else ""
  }

  /** render_template: each match replaced by its context value, or by nothing. */
  function Render(k: CharClasses, t: string, context: map<string, string>): string
    decreases |t|
  {
    if t == "" then ""
    else
      match MatchPrefix(k, t)
      case Some((n, name)) => ValueOf(context, name) + Render(k, t[n..], context)
      case None => [t[0]] + Render(k, t[1..], context)
  }

  // ----- A template as literals and placeholders -----

  datatype Token = Text(c: char) | Hole(source: string, name: string)

  function Source(x: Token): string {
    if x.Text? then [x.c] else x.source
  }

  function Unparse(tokens: seq<Token>): string {
    if tokens == [] then "" else Source(tokens[0]) + Unparse(tokens[1..])
  }

  function Tokenize(k: CharClasses, t: string): seq<Token>
    decreases |t|
  {
    if t == "" then []
    else
      match MatchPrefix(k, t)
      case Some((n, name)) => [Hole(t[..n], name)] + Tokenize(k, t[n..])
      case None => [Text(t[0])] + Tokenize(k, t[1..])
  }

  /** Every hole is a placeholder, and no placeholder starts at a text character. */
  ghost predicate IsSplit(k: CharClasses, tokens: seq<Token>) {
    tokens != [] ==>
      && (match tokens[0]
          case Text(_) => forall n, name :: 0 <= n <= |Unparse(tokens)| ==>
              !IsPlaceholder(k, Unparse(tokens)[..n], name)
          case Hole(source, name) => IsPlaceholder(k, source, name))
      && IsSplit(k, tokens[1..])
  }

  lemma {:induction false} TokenizeSplits(k: CharClasses, t: string)
    requires k.Valid()
    ensures Unparse(Tokenize(k, t)) == t
    ensures IsSplit(k, Tokenize(k, t))
    decreases |t|
  {
    hide MatchPrefix, IsPlaceholder;
    if t != "" {
      if MatchPrefix(k, t).Some? {
        var (n, name) := MatchPrefix(k, t).value;
        TokenizeSplits(k, t[n..]);
        MatchPrefixDecidesGrammar(k, t, n, name);
        SplitBehindHole(k, t[..n], name, Tokenize(k, t[n..]));
        assert t == t[..n] + t[n..];
      } else {
        TokenizeSplits(k, t[1..]);
        NoMatchNoPlaceholder(k, t);
        SplitBehindText(k, t, Tokenize(k, t[1..]));
      }
    }
  }

  lemma NoMatchNoPlaceholder(k: CharClasses, t: string)
    requires k.Valid() && MatchPrefix(k, t).None?
    ensures forall n, name :: 0 <= n <= |t| ==> !IsPlaceholder(k, t[..n], name)
  {
    hide MatchPrefix, IsPlaceholder;
    forall n, name | 0 <= n <= |t|
      ensures !IsPlaceholder(k, t[..n], name)
    {
      MatchPrefixDecidesGrammar(k, t, n, name);
    }
  }

  lemma SplitBehindHole(k: CharClasses, source: string, name: string, rest: seq<Token>)
    requires IsPlaceholder(k, source, name) && IsSplit(k, rest)
    ensures IsSplit(k, [Hole(source, name)] + rest)
    ensures Unparse([Hole(source, name)] + rest) == source + Unparse(rest)
  {
    hide IsPlaceholder;
    assert ([Hole(source, name)] + rest)[1..] == rest;
  }

  lemma SplitBehindText(k: CharClasses, t: string, rest: seq<Token>)
    requires t != "" && Unparse(rest) == t[1..] && IsSplit(k, rest)
    requires forall n, name :: 0 <= n <= |t| ==> !IsPlaceholder(k, t[..n], name)
    ensures IsSplit(k, [Text(t[0])] + rest) && Unparse([Text(t[0])] + rest) == t
  {
    hide IsPlaceholder;
    var tokens := [Text(t[0])] + rest;
    assert tokens[1..] == rest;
    assert [t[0]] + t[1..] == t;
  }

  /** The split of a template is unique: Tokenize is the only way to read it as
      literals and placeholders. */
  lemma {:induction false} SplitIsTokenize(k: CharClasses, tokens: seq<Token>)
    requires k.Valid() && IsSplit(k, tokens)
    ensures tokens == Tokenize(k, Unparse(tokens))
  {
    hide MatchPrefix, IsPlaceholder;
    if tokens != [] {
      SplitIsTokenize(k, tokens[1..]);
      FirstTokenIsRead(k, tokens);
      assert tokens == [tokens[0]] + tokens[1..];
    }
  }

  /** Reading a split begins with its first token. */
  lemma FirstTokenIsRead(k: CharClasses, tokens: seq<Token>)
    requires k.Valid() && IsSplit(k, tokens) && tokens != []
    ensures Tokenize(k, Unparse(tokens)) == [tokens[0]] + Tokenize(k, Unparse(tokens[1..]))
  {
    hide MatchPrefix, IsPlaceholder;
    var rest := Unparse(tokens[1..]);
    if tokens[0].Hole? {
      HoleIsMatched(k, tokens[0], rest);
    } else {
      var t := Unparse(tokens);
      assert t[1..] == rest;
      TextIsNotMatched(k, t);
    }
  }

  lemma HoleIsMatched(k: CharClasses, hole: Token, rest: string)
    requires k.Valid() && hole.Hole? && IsPlaceholder(k, hole.source, hole.name)
    ensures MatchPrefix(k, hole.source + rest) == Some((|hole.source|, hole.name))
    ensures (hole.source + rest)[..|hole.source|] == hole.source && (hole.source + rest)[|hole.source|..] == rest
  {
    hide MatchPrefix, IsPlaceholder;
    var t := hole.source + rest;
    assert t[..|hole.source|] == hole.source && t[|hole.source|..] == rest;
    MatchPrefixDecidesGrammar(k, t, |hole.source|, hole.name);
  }

  lemma TextIsNotMatched(k: CharClasses, t: string)
    requires k.Valid() && t != "" && forall n, name :: 0 <= n <= |t| ==> !IsPlaceholder(k, t[..n], name)
    ensures MatchPrefix(k, t).None?
  {
    if MatchPrefix(k, t).Some? {
      var (n, name) := MatchPrefix(k, t).value;
      hide MatchPrefix, IsPlaceholder;
      MatchPrefixDecidesGrammar(k, t, n, name);
    }
  }

  function RenderToken(x: Token, context: map<string, string>): string {
    if x.Text? then [x.c] else ValueOf(context, x.name)
  }

  function RenderTokens(tokens: seq<Token>, context: map<string, string>): string {
    if tokens == [] then "" else RenderToken(tokens[0], context) + RenderTokens(tokens[1..], context)
  }

  /** Rendering replaces each placeholder of the template once and copies the
      rest: what a value inserts is never scanned again. */
  lemma {:induction false} RenderIsTokenwise(k: CharClasses, t: string, context: map<string, string>)
    ensures Render(k, t, context) == RenderTokens(Tokenize(k, t), context)
    decreases |t|
  {
    if t != "" {
      match MatchPrefix(k, t) {
        case Some((n, name)) =>
          RenderIsTokenwise(k, t[n..], context);
          assert Tokenize(k, t)[1..] == Tokenize(k, t[n..]);
        case None =>
          RenderIsTokenwise(k, t[1..], context);
          assert Tokenize(k, t)[1..] == Tokenize(k, t[1..]);
      }
    }
  }

  // ----- Rendering in two stages -----

  function Plain(name: string): string {
    OPEN + name + CLOSE
  }

  function Normalised(tokens: seq<Token>): (r: seq<Token>)
    ensures |r| == |tokens|
    ensures forall i :: 0 <= i < |tokens| ==>
              r[i] == if tokens[i].Text? then tokens[i] else Hole(Plain(tokens[i].name), tokens[i].name)
  {
    seq(|tokens|, i requires 0 <= i < |tokens| =>
      if tokens[i].Text? then tokens[i] else Hole(Plain(tokens[i].name), tokens[i].name))
  }

  lemma PlainIsPlaceholder(k: CharClasses, source: string, name: string)
    requires IsPlaceholder(k, source, name)
    ensures IsPlaceholder(k, Plain(name), name)
    ensures OPEN <= source && OPEN <= Plain(name)
  {
    assert IsPlaceholderAt(k, Plain(name), name, 2, 2 + |name|);
  }

  /** How many text characters come before the first hole. */
  function TextLength(tokens: seq<Token>): nat {
    if tokens == [] || tokens[0].Hole? then 0 else 1 + TextLength(tokens[1..])
  }

  /** Two lists that agree up to the first hole unparse alike up to there, and
      there both have an opening brace pair. */
  lemma {:induction false} TextPrefix(k: CharClasses, tokens: seq<Token>)
    requires IsSplit(k, tokens)
    ensures var (u, v, p) := (Unparse(tokens), Unparse(Normalised(tokens)), TextLength(tokens));
            && p <= |u| && p <= |v| && u[..p] == v[..p]
            && (u == v || (OPEN <= u[p..] && OPEN <= v[p..]))
  {
    hide IsPlaceholder;
    if tokens != [] {
      assert Normalised(tokens)[1..] == Normalised(tokens[1..]);
      if tokens[0].Text? {
        TextPrefix(k, tokens[1..]);
        assert Unparse(tokens)[1..] == Unparse(tokens[1..]);
        assert Unparse(Normalised(tokens))[1..] == Unparse(Normalised(tokens[1..]));
        var p := TextLength(tokens);
        assert Unparse(tokens)[p..] == Unparse(tokens[1..])[p - 1..];
        assert Unparse(Normalised(tokens))[p..] == Unparse(Normalised(tokens[1..]))[p - 1..];
        assert Unparse(tokens)[..p] == [tokens[0].c] + Unparse(tokens[1..])[..p - 1];
        assert Unparse(Normalised(tokens))[..p] == [tokens[0].c] + Unparse(Normalised(tokens[1..]))[..p - 1];
      } else {
        PlainIsPlaceholder(k, tokens[0].source, tokens[0].name);
      }
    }
  }

  /** Past its opening pair, a placeholder holds no opening brace. */
  lemma NoInnerBrace(k: CharClasses, source: string, name: string, i: int)
    requires k.Valid() && IsPlaceholder(k, source, name) && 2 <= i < |source|
    ensures source[i] != '{'
  {
  }

  /** Normalising the holes creates no new placeholder at a text character. */
  lemma {:induction false} NormalisedIsSplit(k: CharClasses, tokens: seq<Token>)
    requires k.Valid() && IsSplit(k, tokens)
    ensures IsSplit(k, Normalised(tokens))
  {
    if tokens != [] {
      NormalisedIsSplit(k, tokens[1..]);
      assert Normalised(tokens)[1..] == Normalised(tokens[1..]);
      if tokens[0].Hole? {
        PlainIsPlaceholder(k, tokens[0].source, tokens[0].name);
      } else {
        var u, v, p := Unparse(tokens), Unparse(Normalised(tokens)), TextLength(tokens);
        TextPrefix(k, tokens);
        forall n, name | 0 <= n <= |v|
          ensures !IsPlaceholder(k, v[..n], name)
        {
          if n <= p {
            assert v[..n] == v[..p][..n] == u[..p][..n] == u[..n];
          } else if IsPlaceholder(k, v[..n], name) {
            MatchPrefixDecidesGrammar(k, v, n, name);
            if u != v {
              assert v[p] == v[p..][0] && v[p + 1] == v[p..][1];
              NoInnerBrace(k, v[..n], name, if p == 1 then 2 else p);
            }
          }
        }
      }
    }
  }

  /** Rendering with every name mapped to its own placeholder only tidies the
      template: rendering that with a context gives what rendering the original
      with the context gives. */
  lemma RenderInTwoStages(k: CharClasses, t: string, names: map<string, string>, context: map<string, string>)
    requires k.Valid()
    requires forall x :: x in Tokenize(k, t) && x.Hole? ==> x.name in names && names[x.name] == Plain(x.name)
    ensures Render(k, Render(k, t, names), context) == Render(k, t, context)
  {
    var tokens := Tokenize(k, t);
    TokenizeSplits(k, t);
    RenderIsTokenwise(k, t, names);
    RenderIsTokenwise(k, t, context);
    NormalisedIsSplit(k, tokens);
    SplitIsTokenize(k, Normalised(tokens));
    NormalisedUnparses(tokens, names);
    NormalisedRendersAlike(tokens, context);
    RenderIsTokenwise(k, Unparse(Normalised(tokens)), context);
  }

  lemma {:induction false} NormalisedUnparses(tokens: seq<Token>, names: map<string, string>)
    requires forall x :: x in tokens && x.Hole? ==> x.name in names && names[x.name] == Plain(x.name)
    ensures Unparse(Normalised(tokens)) == RenderTokens(tokens, names)
  {
    if tokens != [] {
      NormalisedUnparses(tokens[1..], names);
      assert Normalised(tokens)[1..] == Normalised(tokens[1..]);
      assert tokens[0] in tokens;
    }
  }

  lemma {:induction false} NormalisedRendersAlike(tokens: seq<Token>, context: map<string, string>)
    ensures RenderTokens(Normalised(tokens), context) == RenderTokens(tokens, context)
  {
    if tokens != [] {
      NormalisedRendersAlike(tokens[1..], context);
      assert Normalised(tokens)[1..] == Normalised(tokens[1..]);
    }
  }

  // ----- What rendering puts in -----

  /** A placeholder gives its value, or nothing where the context has none; what
      follows is rendered on its own. */
  lemma RenderOfPlaceholder(k: CharClasses, source: string, name: string, rest: string, context: map<string, string>)
    requires k.Valid() && IsPlaceholder(k, source, name)
    ensures name in context ==> Render(k, source + rest, context) == context[name] + Render(k, rest, context)
    ensures name !in context ==> Render(k, source + rest, context) == Render(k, rest, context)
  {
    hide MatchPrefix;
    HoleIsMatched(k, Hole(source, name), rest);
    PlaceholderIsLong(k, source, name);
    assert Render(k, source + rest, context) == ValueOf(context, name) + Render(k, rest, context);
    assert "" + Render(k, rest, context) == Render(k, rest, context);
  }

  lemma PlaceholderIsLong(k: CharClasses, source: string, name: string)
    requires IsPlaceholder(k, source, name)
    ensures source != ""
  {
  }

  /** Any other character stands. */
  lemma RenderOfText(k: CharClasses, t: string, context: map<string, string>)
    requires k.Valid() && t != "" && forall n, name :: 0 <= n <= |t| ==> !IsPlaceholder(k, t[..n], name)
    ensures Render(k, t, context) == [t[0]] + Render(k, t[1..], context)
  {
    TextIsNotMatched(k, t);
  }
}
