/**
 * The topic patterns of `MqttHandlerRegistry`: an MQTT filter is turned
 * into a Java regular expression by replacing every `+` with `[^/]+` and
 * every `#` with `.*`, and a topic is accepted when that expression matches
 * the whole topic.
 *
 * Only the regular expressions this rewrite produces from a filter without
 * other regex metacharacters are modelled. Such an expression is a sequence
 * of three kinds of token: a literal character, "one or more characters
 * other than `/`" (`[^/]+`) and "any run of characters" (`.*`, where Java's
 * `.` does not match a line terminator).
 */
module TopicPattern {
  import opened Wrappers

  datatype Token = Lit(c: char) | OneLevel | AnyRun

  /** The characters Java's regex syntax gives a meaning to, apart from `+`. */
  predicate IsRegexMeta(c: char)
  {
    || c == '\\' || c == '^' || c == '$' || c == '.' || c == '|' || c == '?' || c == '*'
    || c == '(' || c == ')' || c == '[' || c == ']' || c == '{' || c == '}'
  }

  /** A filter whose only special characters are the wildcards `+` and `#`. */
  predicate PlainFilter(p: string)
  {
    forall i :: 0 <= i < |p| ==> !IsRegexMeta(p[i])
  }

  /** A filter with no wildcard and no regex metacharacter: it stands for itself. */
  predicate LiteralFilter(p: string)
  {
    PlainFilter(p) && '+' !in p && '#' !in p
  }

  /** The characters Java's `.` refuses (the line terminators of `java.util.regex.Pattern`). */
  predicate IsLineTerminator(c: char)
  {
    c == '\n' || c == '\r' || c == '\U{0085}' || c == '\U{2028}' || c == '\U{2029}'
  }

  // ---------------------------------------------------------------------
  // The rewrite
  // ---------------------------------------------------------------------

  /** `String.replace` of a one-character target: one left-to-right pass. */
  function ReplaceChar(s: string, target: char, replacement: string): string
    decreases |s|
  {
    if s == [] then []
    else (if s[0] == target then replacement else [s[0]]) + ReplaceChar(s[1..], target, replacement)
  }

  /** The expression `registerHandler` compiles: `+` replaced first, then `#`. */
  function RegexOf(filter: string): string
  {
    ReplaceChar(ReplaceChar(filter, '+', "[^/]+"), '#', ".*")
  }

  /** What one wildcard or ordinary character of a filter becomes. */
  function Expand(c: char): string
  {
    if c == '+' then "[^/]+" else if c == '#' then ".*" else [c]
  }

  /** The rewrite as a single pass over the filter. */
  function Rewrite(filter: string): string
    decreases |filter|
  {
    if filter == [] then [] else Expand(filter[0]) + Rewrite(filter[1..])
  }

  lemma {:induction false} ReplaceCharAppend(a: string, b: string, target: char, replacement: string)
    ensures ReplaceChar(a + b, target, replacement) == ReplaceChar(a, target, replacement) + ReplaceChar(b, target, replacement)
    decreases |a|
  {
    if a == [] {
      assert a + b == b;
    } else {
      var h := if a[0] == target then replacement else [a[0]];
      var ra, rb := ReplaceChar(a[1..], target, replacement), ReplaceChar(b, target, replacement);
      calc {
        ReplaceChar(a + b, target, replacement);
        { assert (a + b)[0] == a[0] && (a + b)[1..] == a[1..] + b; }
        h + ReplaceChar(a[1..] + b, target, replacement);
        { ReplaceCharAppend(a[1..], b, target, replacement); }
        h + (ra + rb);
        (h + ra) + rb;
      }
    }
  }

  /**
   * The two chained `replace` calls do the same as one pass: the text the
   * first one inserts holds no `#`, so the second one cannot touch it, and
   * every other character is left in place.
   */
  lemma {:induction false} RewriteInOnePass(filter: string)
    ensures RegexOf(filter) == Rewrite(filter)
    decreases |filter|
  {
    if filter != [] {
      var c := filter[0];
      var first := if c == '+' then "[^/]+" else [c];
      assert ReplaceChar(filter, '+', "[^/]+") == first + ReplaceChar(filter[1..], '+', "[^/]+");
      ReplaceCharAppend(first, ReplaceChar(filter[1..], '+', "[^/]+"), '#', ".*");
      assert ReplaceChar(first, '#', ".*") == Expand(c) by {
        if c == '+' {
          assert ReplaceChar("[^/]+", '#', ".*") == "[^/]+" by {
            var s := "[^/]+";
            assert s[1..] == "^/]+" && s[2..] == "/]+" && s[3..] == "]+" && s[4..] == "+" && s[5..] == [];
          }
        } else {
          assert [c][1..] == [];
        }
      }
      RewriteInOnePass(filter[1..]);
    }
  }

  // ---------------------------------------------------------------------
  // From the expression to tokens
  // ---------------------------------------------------------------------

  /** The token a filter character stands for. */
  function TokenOf(c: char): Token
  {
    if c == '+' then OneLevel else if c == '#' then AnyRun else Lit(c)
  }

  /** The meaning of a filter, character by character. */
  function WildcardTokens(filter: string): (r: seq<Token>)
    ensures |r| == |filter|
  {
    seq(|filter|, i requires 0 <= i < |filter| => TokenOf(filter[i]))
  }

  function Prepend(t: Token, r: Option<seq<Token>>): Option<seq<Token>>
  {
    if r.Some? then Some([t] + r.value) else None
  }

  /**
   * `Pattern.compile` on the modelled subset: `[^/]+` and `.*` become the
   * wildcard tokens, any other character that is not a metacharacter a
   * literal; anything else is outside the subset (None).
   */
  function Compile(regex: string): Option<seq<Token>>
    decreases |regex|
  {
    if regex == [] then Some([])
    else if |regex| >= 5 && regex[..5] == "[^/]+" then Prepend(OneLevel, Compile(regex[5..]))
    else if |regex| >= 2 && regex[..2] == ".*" then Prepend(AnyRun, Compile(regex[2..]))
    else if IsRegexMeta(regex[0]) || regex[0] == '+' then None
    else Prepend(Lit(regex[0]), Compile(regex[1..]))
  }

  /**
   * Compiling the rewritten filter gives back exactly the filter's
   * wildcard reading: `+` one level, `#` any run, every other character
   * itself.
   */
  lemma {:induction false} CompileRewrite(filter: string)
    requires PlainFilter(filter)
    ensures Compile(Rewrite(filter)) == Some(WildcardTokens(filter))
    decreases |filter|
  {
    if filter != [] {
      var c, rest := filter[0], filter[1..];
      assert Rewrite(filter) == Expand(c) + Rewrite(rest);
      CompileRewrite(rest);
      CompileExpand(c, Rewrite(rest));
      assert WildcardTokens(filter) == [TokenOf(c)] + WildcardTokens(rest);
    }
  }

  /** One expanded filter character compiles back to its token, whatever follows it. */
  lemma CompileExpand(c: char, tail: string)
    requires !IsRegexMeta(c)
    ensures Compile(Expand(c) + tail) == Prepend(TokenOf(c), Compile(tail))
  {
    if c == '+' {
      CompileOneLevel(tail);
    } else if c == '#' {
      CompileAnyRun(tail);
    } else {
      CompileLiteral(c, tail);
    }
  }

  lemma CompileOneLevel(tail: string)
    ensures Compile("[^/]+" + tail) == Prepend(OneLevel, Compile(tail))
  {
    var r := "[^/]+" + tail;
    assert r[..5] == "[^/]+" && r[5..] == tail;
  }

  lemma CompileAnyRun(tail: string)
    ensures Compile(".*" + tail) == Prepend(AnyRun, Compile(tail))
  {
    var r := ".*" + tail;
    assert r[0] == '.';
    assert |r| >= 5 ==> r[..5][0] == '.';
    assert r[..2] == ".*" && r[2..] == tail;
  }

  lemma CompileLiteral(c: char, tail: string)
    requires !IsRegexMeta(c) && c != '+' && c != '#'
    ensures Compile([c] + tail) == Prepend(Lit(c), Compile(tail))
  {
    var r := [c] + tail;
    assert r[0] == c && r[1..] == tail;
    assert |r| >= 5 ==> r[..5][0] == c;
    assert |r| >= 2 ==> r[..2][0] == c;
  }

  /** The tokens `registerHandler` ends up matching with. */
  lemma CompiledFilter(filter: string)
    requires PlainFilter(filter)
    ensures Compile(RegexOf(filter)) == Some(WildcardTokens(filter))
  {
    RewriteInOnePass(filter);
    CompileRewrite(filter);
  }

  // ---------------------------------------------------------------------
  // Matching
  // ---------------------------------------------------------------------

  /** Whether a character may be consumed by token `t`. */
  predicate InClass(t: Token, x: char)
  {
    match t
    case Lit(c) => x == c
    case OneLevel => x != '/'
    case AnyRun => !IsLineTerminator(x)
  }

  predicate AllInClass(t: Token, w: string)
  {
    forall i :: 0 <= i < |w| ==> InClass(t, w[i])
  }

  /** The stretch of text one token accepts on its own. */
  predicate Piece(t: Token, w: string)
  {
    match t
    case Lit(c) => w == [c]
    case OneLevel => |w| >= 1 && AllInClass(t, w)
    case AnyRun => AllInClass(t, w)
  }

  /**
   * The reference meaning of a whole-topic match (`Matcher.matches`): the
   * topic splits into consecutive pieces, one accepted by each token.
   */
  ghost predicate SpecMatch(toks: seq<Token>, s: string)
    decreases |toks|
  {
    if toks == [] then s == []
    else exists k :: 0 <= k <= |s| && Piece(toks[0], s[..k]) && SpecMatch(toks[1..], s[k..])
  }

  /** The executable matcher: whole topic against the token sequence. */
  function Matches(toks: seq<Token>, s: string): bool
    decreases |toks|, 0, |s|
  {
    if toks == [] then s == []
    else match toks[0]
      case Lit(c) => s != [] && s[0] == c && Matches(toks[1..], s[1..])
      case OneLevel => s != [] && s[0] != '/' && MatchesAfterRun(OneLevel, toks[1..], s[1..])
      case AnyRun => MatchesAfterRun(AnyRun, toks[1..], s)
  }

  /** A possibly empty run of characters of `t`'s class, then `rest`. */
  function MatchesAfterRun(t: Token, rest: seq<Token>, s: string): bool
    decreases |rest|, 1, |s|
  {
    Matches(rest, s) || (s != [] && InClass(t, s[0]) && MatchesAfterRun(t, rest, s[1..]))
  }

  /** A run of characters of `t`'s class, then a match of `rest` (the reference meaning of `MatchesAfterRun`). */
  ghost predicate RunThen(t: Token, rest: seq<Token>, s: string)
  {
    exists j :: 0 <= j <= |s| && AllInClass(t, s[..j]) && SpecMatch(rest, s[j..])
  }

  lemma SpecMatchIntro(toks: seq<Token>, s: string, k: nat)
    requires toks != [] && k <= |s| && Piece(toks[0], s[..k]) && SpecMatch(toks[1..], s[k..])
    ensures SpecMatch(toks, s)
  {
  }

  lemma AllInClassCons(t: Token, s: string, j: nat)
    requires s != [] && j < |s|
    ensures AllInClass(t, s[..j + 1]) <==> InClass(t, s[0]) && AllInClass(t, s[1..][..j])
  {
    assert s[..j + 1] == [s[0]] + s[1..][..j];
  }

  /** A literal token consumes exactly its own character. */
  lemma LitUnfold(toks: seq<Token>, s: string)
    requires toks != [] && toks[0].Lit?
    ensures SpecMatch(toks, s) <==> s != [] && s[0] == toks[0].c && SpecMatch(toks[1..], s[1..])
  {
    if SpecMatch(toks, s) {
      var k :| 0 <= k <= |s| && Piece(toks[0], s[..k]) && SpecMatch(toks[1..], s[k..]);
      assert |s[..k]| == 1;
      assert s[0] == s[..k][0];
    }
    if s != [] && s[0] == toks[0].c && SpecMatch(toks[1..], s[1..]) {
      assert s[..1] == [toks[0].c];
      SpecMatchIntro(toks, s, 1);
    }
  }

  lemma OneLevelStep(toks: seq<Token>, s: string)
    requires toks != [] && toks[0] == OneLevel
    requires s != [] ==> (MatchesAfterRun(OneLevel, toks[1..], s[1..]) <==> RunThen(OneLevel, toks[1..], s[1..]))
    ensures Matches(toks, s) == SpecMatch(toks, s)
  {
    if Matches(toks, s) {
      OneLevelSound(toks, s);
    }
    if SpecMatch(toks, s) {
      OneLevelComplete(toks, s);
    }
  }

  lemma OneLevelSound(toks: seq<Token>, s: string)
    requires toks != [] && toks[0] == OneLevel && s != []
    requires s[0] != '/' && RunThen(OneLevel, toks[1..], s[1..])
    ensures SpecMatch(toks, s)
  {
    var u := s[1..];
    var j :| 0 <= j <= |u| && AllInClass(OneLevel, u[..j]) && SpecMatch(toks[1..], u[j..]);
    AllInClassCons(OneLevel, s, j);
    assert InClass(OneLevel, s[0]);
    var w := s[..j + 1];
    assert |w| >= 1 && AllInClass(OneLevel, w);
    assert Piece(OneLevel, w);
    assert s[j + 1..] == u[j..];
    SpecMatchIntro(toks, s, j + 1);
  }

  lemma OneLevelComplete(toks: seq<Token>, s: string)
    requires toks != [] && toks[0] == OneLevel && SpecMatch(toks, s)
    ensures s != [] && s[0] != '/' && RunThen(OneLevel, toks[1..], s[1..])
  {
    var k :| 0 <= k <= |s| && Piece(toks[0], s[..k]) && SpecMatch(toks[1..], s[k..]);
    assert 0 < k && AllInClass(OneLevel, s[..k]);
    RunThenTail(OneLevel, toks[1..], s, k);
  }

  lemma AnyRunStep(toks: seq<Token>, s: string)
    requires toks != [] && toks[0] == AnyRun
    requires MatchesAfterRun(AnyRun, toks[1..], s) <==> RunThen(AnyRun, toks[1..], s)
    ensures Matches(toks, s) == SpecMatch(toks, s)
  {
    if RunThen(AnyRun, toks[1..], s) {
      var j :| 0 <= j <= |s| && AllInClass(AnyRun, s[..j]) && SpecMatch(toks[1..], s[j..]);
      SpecMatchIntro(toks, s, j);
    }
    if SpecMatch(toks, s) {
      var k :| 0 <= k <= |s| && Piece(toks[0], s[..k]) && SpecMatch(toks[1..], s[k..]);
      assert 0 <= k <= |s| && AllInClass(AnyRun, s[..k]) && SpecMatch(toks[1..], s[k..]);
    }
  }

  lemma RunStep(t: Token, rest: seq<Token>, s: string)
    requires Matches(rest, s) == SpecMatch(rest, s)
    requires s != [] ==> (MatchesAfterRun(t, rest, s[1..]) <==> RunThen(t, rest, s[1..]))
    ensures MatchesAfterRun(t, rest, s) <==> RunThen(t, rest, s)
  {
    if MatchesAfterRun(t, rest, s) {
      RunStepSound(t, rest, s);
    }
    if RunThen(t, rest, s) {
      RunStepComplete(t, rest, s);
    }
  }

  lemma RunStepSound(t: Token, rest: seq<Token>, s: string)
    requires Matches(rest, s) ==> SpecMatch(rest, s)
    requires s != [] ==> (MatchesAfterRun(t, rest, s[1..]) ==> RunThen(t, rest, s[1..]))
    requires MatchesAfterRun(t, rest, s)
    ensures RunThen(t, rest, s)
  {
    if Matches(rest, s) {
      assert s[0..] == s;
      assert AllInClass(t, s[..0]) && SpecMatch(rest, s[0..]);
    } else {
      var u := s[1..];
      var j :| 0 <= j <= |u| && AllInClass(t, u[..j]) && SpecMatch(rest, u[j..]);
      AllInClassCons(t, s, j);
      assert s[j + 1..] == u[j..];
      assert 0 <= j + 1 <= |s| && AllInClass(t, s[..j + 1]) && SpecMatch(rest, s[j + 1..]);
    }
  }

  lemma RunStepComplete(t: Token, rest: seq<Token>, s: string)
    requires SpecMatch(rest, s) ==> Matches(rest, s)
    requires s != [] ==> (RunThen(t, rest, s[1..]) ==> MatchesAfterRun(t, rest, s[1..]))
    requires RunThen(t, rest, s)
    ensures MatchesAfterRun(t, rest, s)
  {
    var j :| 0 <= j <= |s| && AllInClass(t, s[..j]) && SpecMatch(rest, s[j..]);
    if j == 0 {
      assert s[0..] == s;
    } else {
      RunThenTail(t, rest, s, j);
    }
  }

  /** A run of length `j > 0` starts with a character of the class and leaves a run of `j - 1` after it. */
  lemma RunThenTail(t: Token, rest: seq<Token>, s: string, j: nat)
    requires 0 < j <= |s| && AllInClass(t, s[..j]) && SpecMatch(rest, s[j..])
    ensures InClass(t, s[0]) && RunThen(t, rest, s[1..])
  {
    var u := s[1..];
    AllInClassCons(t, s, j - 1);
    assert s[..j - 1 + 1] == s[..j];
    assert u[j - 1..] == s[j..];
    RunThenIntro(t, rest, u, j - 1);
  }

  lemma RunThenIntro(t: Token, rest: seq<Token>, s: string, j: nat)
    requires j <= |s| && AllInClass(t, s[..j]) && SpecMatch(rest, s[j..])
    ensures RunThen(t, rest, s)
  {
  }

  /** The executable matcher agrees with the reference on every token sequence and topic. */
  lemma {:induction false} MatchesIsSpec(toks: seq<Token>, s: string)
    ensures Matches(toks, s) == SpecMatch(toks, s)
    decreases |toks|, 0, |s|
  {
    if toks != [] {
      var rest := toks[1..];
      match toks[0]
      case Lit(c) =>
        if s != [] {
          MatchesIsSpec(rest, s[1..]);
        }
        LitUnfold(toks, s);
      case OneLevel =>
        if s != [] {
          RunIsSpec(OneLevel, rest, s[1..]);
        }
        OneLevelStep(toks, s);
      case AnyRun =>
        RunIsSpec(AnyRun, rest, s);
        AnyRunStep(toks, s);
    }
  }

  lemma {:induction false} RunIsSpec(t: Token, rest: seq<Token>, s: string)
    ensures MatchesAfterRun(t, rest, s) <==> RunThen(t, rest, s)
    decreases |rest|, 1, |s|
  {
    MatchesIsSpec(rest, s);
    if s != [] {
      RunIsSpec(t, rest, s[1..]);
    }
    RunStep(t, rest, s);
  }

  /** Whether a topic is accepted by a registered filter. */
  function TopicMatches(filter: string, topic: string): bool
  {
    Matches(WildcardTokens(filter), topic)
  }

  // ---------------------------------------------------------------------
  // What the two wildcards accept
  // ---------------------------------------------------------------------

  lemma WildcardTokensAppend(x: string, y: string)
    ensures WildcardTokens(x + y) == WildcardTokens(x) + WildcardTokens(y)
  {
    var l, r := WildcardTokens(x + y), WildcardTokens(x) + WildcardTokens(y);
    forall i | 0 <= i < |l| ensures l[i] == r[i] {
      if i < |x| {
        assert (x + y)[i] == x[i];
      } else {
        assert (x + y)[i] == y[i - |x|];
      }
    }
  }

  lemma LiteralFilterTail(a: string)
    requires a != [] && LiteralFilter(a)
    ensures LiteralFilter(a[1..]) && a[0] != '+' && a[0] != '#'
  {
    forall i | 0 <= i < |a[1..]| ensures !IsRegexMeta(a[1..][i]) {
      assert a[1..][i] == a[i + 1];
    }
    assert forall x :: x in a[1..] ==> x in a;
  }

  /** A literal prefix of tokens must be spelled out, character for character, at the start of the topic. */
  lemma {:induction false} LiteralPrefix(a: string, rest: seq<Token>, s: string)
    requires LiteralFilter(a)
    ensures SpecMatch(WildcardTokens(a) + rest, s) <==>
      |a| <= |s| && s[..|a|] == a && SpecMatch(rest, s[|a|..])
    decreases |a|
  {
    if a == [] {
      assert WildcardTokens(a) + rest == rest;
      assert s[..0] == [] && s[0..] == s;
    } else {
      var toks := WildcardTokens(a) + rest;
      LiteralFilterTail(a);
      assert toks[0] == Lit(a[0]);
      assert toks[1..] == WildcardTokens(a[1..]) + rest;
      LitUnfold(toks, s);
      if s != [] {
        LiteralPrefix(a[1..], rest, s[1..]);
        if |a| <= |s| {
          assert s[..|a|] == [s[0]] + s[1..][..|a| - 1];
          assert s[|a|..] == s[1..][|a| - 1..];
          assert a == [a[0]] + a[1..];
        }
      }
    }
  }

  /** A literal filter accepts exactly itself. */
  lemma LiteralWhole(b: string, s: string)
    requires LiteralFilter(b)
    ensures SpecMatch(WildcardTokens(b), s) <==> s == b
  {
    assert WildcardTokens(b) + [] == WildcardTokens(b);
    LiteralPrefix(b, [], s);
    assert |b| <= |s| && s[..|b|] == b && s[|b|..] == [] ==> s == b;
  }

  lemma NoSlash(w: string)
    ensures AllInClass(OneLevel, w) <==> '/' !in w
  {
    if '/' in w {
      var i :| 0 <= i < |w| && w[i] == '/';
    }
  }

  lemma OneLevelThenLiteral(b: string, u: string)
    requires LiteralFilter(b)
    ensures SpecMatch([OneLevel] + WildcardTokens(b), u) <==>
      |b| < |u| && u[|u| - |b|..] == b && AllInClass(OneLevel, u[..|u| - |b|])
  {
    if SpecMatch([OneLevel] + WildcardTokens(b), u) {
      OneLevelThenLiteralSound(b, u);
    }
    if |b| < |u| && u[|u| - |b|..] == b && AllInClass(OneLevel, u[..|u| - |b|]) {
      OneLevelThenLiteralComplete(b, u);
    }
  }

  lemma OneLevelThenLiteralSound(b: string, u: string)
    requires LiteralFilter(b) && SpecMatch([OneLevel] + WildcardTokens(b), u)
    ensures |b| < |u| && u[|u| - |b|..] == b && AllInClass(OneLevel, u[..|u| - |b|])
  {
    var tail := [OneLevel] + WildcardTokens(b);
    assert tail[0] == OneLevel && tail[1..] == WildcardTokens(b);
    var k :| 0 <= k <= |u| && Piece(OneLevel, u[..k]) && SpecMatch(WildcardTokens(b), u[k..]);
    LiteralWhole(b, u[k..]);
    assert |u[k..]| == |b|;
    assert k == |u| - |b|;
  }

  lemma OneLevelThenLiteralComplete(b: string, u: string)
    requires LiteralFilter(b) && |b| < |u| && u[|u| - |b|..] == b && AllInClass(OneLevel, u[..|u| - |b|])
    ensures SpecMatch([OneLevel] + WildcardTokens(b), u)
  {
    var tail := [OneLevel] + WildcardTokens(b);
    assert tail[0] == OneLevel && tail[1..] == WildcardTokens(b);
    var k := |u| - |b|;
    LiteralWhole(b, u[k..]);
    assert Piece(OneLevel, u[..k]);
    SpecMatchIntro(tail, u, k);
  }

  lemma AnyRunWhole(u: string)
    ensures SpecMatch([AnyRun], u) <==> AllInClass(AnyRun, u)
  {
    var toks := [AnyRun];
    assert toks[0] == AnyRun && toks[1..] == [];
    if SpecMatch(toks, u) {
      var k :| 0 <= k <= |u| && Piece(AnyRun, u[..k]) && SpecMatch([], u[k..]);
      AnyRunWholeSound(u, k);
    }
    if AllInClass(AnyRun, u) {
      assert u[..|u|] == u && u[|u|..] == [];
      SpecMatchIntro(toks, u, |u|);
    }
  }

  lemma AnyRunWholeSound(u: string, k: nat)
    requires k <= |u| && Piece(AnyRun, u[..k]) && SpecMatch([], u[k..])
    ensures AllInClass(AnyRun, u)
  {
    assert |u[k..]| == 0;
    assert u[..k] == u;
  }

  /**
   * `a+b` with literal `a` and `b` accepts exactly the topics `a w b` where
   * `w` is one or more characters none of which is `/`: `+` stands for one
   * whole, non-empty level.
   */
  lemma SingleLevelWildcard(a: string, b: string, topic: string)
    requires LiteralFilter(a) && LiteralFilter(b)
    ensures TopicMatches(a + "+" + b, topic) <==>
      && |a| + |b| < |topic|
      && topic[..|a|] == a
      && topic[|topic| - |b|..] == b
      && '/' !in topic[|a|..|topic| - |b|]
  {
    var tail := [OneLevel] + WildcardTokens(b);
    var toks := WildcardTokens(a + "+" + b);
    WildcardTokensAppend(a + "+", b);
    WildcardTokensAppend(a, "+");
    assert WildcardTokens("+") == [OneLevel];
    assert toks == WildcardTokens(a) + tail;
    MatchesIsSpec(toks, topic);
    LiteralPrefix(a, tail, topic);
    if |a| <= |topic| {
      var u := topic[|a|..];
      OneLevelThenLiteral(b, u);
      if |b| < |u| {
        assert u[|u| - |b|..] == topic[|topic| - |b|..];
        assert u[..|u| - |b|] == topic[|a|..|topic| - |b|];
        NoSlash(topic[|a|..|topic| - |b|]);
      }
    }
  }

  /**
   * `a#` with literal `a` accepts exactly the topics that start with `a`
   * and continue with no line terminator: when `a` ends in `/`, the parent
   * level itself (the topic without that `/`) is not accepted.
   */
  lemma MultiLevelWildcard(a: string, topic: string)
    requires LiteralFilter(a)
    ensures TopicMatches(a + "#", topic) <==>
      |a| <= |topic| && topic[..|a|] == a && AllInClass(AnyRun, topic[|a|..])
  {
    var toks := WildcardTokens(a + "#");
    WildcardTokensAppend(a, "#");
    assert WildcardTokens("#") == [AnyRun];
    MatchesIsSpec(toks, topic);
    LiteralPrefix(a, [AnyRun], topic);
    if |a| <= |topic| {
      AnyRunWhole(topic[|a|..]);
    }
  }

  lemma SensorsPrefixes()
    ensures LiteralFilter("sensors/") && LiteralFilter("/temp")
    ensures "sensors/" + "+" + "/temp" == "sensors/+/temp"
    ensures "sensors/" + "#" == "sensors/#"
  {
  }

  /** `a+b` accepts `a w b` for a non-empty level `w`. */
  lemma SingleLevelInstance(a: string, w: string, b: string)
    requires LiteralFilter(a) && LiteralFilter(b) && w != [] && '/' !in w
    ensures TopicMatches(a + "+" + b, a + w + b)
  {
    var topic := a + w + b;
    SingleLevelWildcard(a, b, topic);
    assert topic[..|a|] == a;
    assert topic[|topic| - |b|..] == b;
    assert topic[|a|..|topic| - |b|] == w;
  }

  /** `sensors/+/temp` accepts one level in place of the `+`. */
  lemma SingleLevelAcceptsOneLevel()
    ensures TopicMatches("sensors/+/temp", "sensors/room1/temp")
    ensures TopicMatches("sensors/+/temp", "sensors/room2/temp")
  {
    SensorsPrefixes();
    SingleLevelInstance("sensors/", "room1", "/temp");
    assert "sensors/" + "room1" + "/temp" == "sensors/room1/temp";
    SingleLevelInstance("sensors/", "room2", "/temp");
    assert "sensors/" + "room2" + "/temp" == "sensors/room2/temp";
  }

  /** `sensors/+/temp` refuses two levels and an empty level in place of the `+`. */
  lemma SingleLevelRefusesOthers()
    ensures !TopicMatches("sensors/+/temp", "sensors/room1/hall/temp")
    ensures !TopicMatches("sensors/+/temp", "sensors//temp")
  {
    SensorsPrefixes();
    SingleLevelWildcard("sensors/", "/temp", "sensors/room1/hall/temp");
    assert "sensors/room1/hall/temp"[8..18][5] == '/';
    SingleLevelWildcard("sensors/", "/temp", "sensors//temp");
  }

  /** `a#` accepts `a w` whenever `w` holds no line terminator. */
  lemma MultiLevelInstance(a: string, w: string)
    requires LiteralFilter(a) && forall i :: 0 <= i < |w| ==> !IsLineTerminator(w[i])
    ensures TopicMatches(a + "#", a + w)
  {
    var topic := a + w;
    MultiLevelWildcard(a, topic);
    assert topic[..|a|] == a;
    assert topic[|a|..] == w;
  }

  /** `sensors/#` accepts deeper topics. */
  lemma MultiLevelAcceptsDeeper()
    ensures TopicMatches("sensors/#", "sensors/room1")
    ensures TopicMatches("sensors/#", "sensors/room1/temp")
  {
    SensorsPrefixes();
    MultiLevelInstance("sensors/", "room1");
    assert "sensors/" + "room1" == "sensors/room1";
    MultiLevelInstance("sensors/", "room1/temp");
    assert "sensors/" + "room1/temp" == "sensors/room1/temp";
  }

  /** `sensors/#` does not accept its parent level `sensors`. */
  lemma MultiLevelRefusesParent()
    ensures !TopicMatches("sensors/#", "sensors")
  {
    SensorsPrefixes();
    MultiLevelWildcard("sensors/", "sensors");
  }
}
