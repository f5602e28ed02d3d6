/**
 * GitHub's path filters: a glob is compiled to a regular expression, and a list of globs is evaluated
 * in order with `!` undoing an earlier hit.
 */
module PathGlobs {
  // -------------------------------------------------------------------------
  // Regular expressions
  // -------------------------------------------------------------------------

  /** The expressions the compiler writes. `Dot` is `.`, which does not match a newline; `NotSlash`
      is `[^/]`, which does. */
  datatype Regex =
    | Literal(c: char)
    | Dot
    | NotSlash
    | Star(r: Regex)
    | Optional(r: Regex)
    | Then(first: Regex, second: Regex)

  /** Whether an expression matches the whole of `s`. */
  predicate Matches(r: Regex, s: string)
    decreases r, |s|
  {
    match r
    case Literal(c) => s == [c]
    case Dot => |s| == 1 && s[0] != '\n'
    case NotSlash => |s| == 1 && s[0] != '/'
    case Star(q) => s == "" || exists k | 0 < k <= |s| :: Matches(q, s[..k]) && Matches(r, s[k..])
    case Optional(q) => s == "" || Matches(q, s)
    case Then(p, q) => exists k | 0 <= k <= |s| :: Matches(p, s[..k]) && Matches(q, s[k..])
  }

  /** Whether the pieces, one after another, match the whole of `s`. */
  predicate MatchesAll(pieces: seq<Regex>, s: string)
    decreases |pieces|
  {
    if pieces == [] then s == ""
    else exists k | 0 <= k <= |s| :: Matches(pieces[0], s[..k]) && MatchesAll(pieces[1..], s[k..])
  }

  // -------------------------------------------------------------------------
  // What a pattern means
  // -------------------------------------------------------------------------

  predicate NoSlash(s: string) { forall i | 0 <= i < |s| :: s[i] != '/' }

  predicate OneLine(s: string) { forall i | 0 <= i < |s| :: s[i] != '\n' }

  /** `*` and `?` stop at a slash, `**` crosses them, `**` and a slash are any number of leading
      directories, and anything else is itself. */
  ghost predicate Glob(pattern: string, path: string)
    decreases |pattern|
  {
    if pattern == "" then path == ""
    else if "**/" <= pattern then
      exists i | 0 <= i <= |path| :: (i == 0 || path[i - 1] == '/') && Glob(pattern[3..], path[i..])
    else if "**" <= pattern then exists i | 0 <= i <= |path| :: Glob(pattern[2..], path[i..])
    else if pattern[0] == '*' then exists i | 0 <= i <= |path| :: NoSlash(path[..i]) && Glob(pattern[1..], path[i..])
    else
      path != "" && (if pattern[0] == '?' then path[0] != '/' else path[0] == pattern[0]) &&
      Glob(pattern[1..], path[1..])
  }

  // -------------------------------------------------------------------------
  // The compiler
  // -------------------------------------------------------------------------

  const LEADING_DIRECTORIES := Optional(Then(Star(Dot), Literal('/')))

  /** The pieces a pattern is compiled to. */
  function Pieces(pattern: string): seq<Regex>
    decreases |pattern|
  {
    if pattern == "" then []
    else if "**/" <= pattern then [LEADING_DIRECTORIES] + Pieces(pattern[3..])
    else if "**" <= pattern then [Star(Dot)] + Pieces(pattern[2..])
    else if pattern[0] == '*' then [Star(NotSlash)] + Pieces(pattern[1..])
    else if pattern[0] == '?' then [NotSlash] + Pieces(pattern[1..])
    else [Literal(pattern[0])] + Pieces(pattern[1..])
  }

  predicate StartsWith(text: string, prefix: string, at: nat)
    requires at <= |text|
  {
    prefix <= text[at..]
  }

  /** The pieces match only what the pattern means, and all of it that is one line. */
  ghost predicate Means(pieces: seq<Regex>, pattern: string) {
    (forall path :: MatchesAll(pieces, path) ==> Glob(pattern, path)) &&
    forall path | OneLine(path) :: MatchesAll(pieces, path) <==> Glob(pattern, path)
  }

  /** One turn of the loop: the piece written for the `k` characters read at `i`. */
  lemma OnePieceMore(pattern: string, i: nat, k: nat, piece: Regex, out: seq<Regex>)
    requires i + k <= |pattern| && out + Pieces(pattern[i..]) == Pieces(pattern)
    requires Pieces(pattern[i..]) == [piece] + Pieces(pattern[i..][k..])
    ensures (out + [piece]) + Pieces(pattern[i + k..]) == Pieces(pattern)
  {
    assert pattern[i + k..] == pattern[i..][k..];
    assert (out + [piece]) + Pieces(pattern[i + k..]) == out + ([piece] + Pieces(pattern[i + k..]));
  }

  method PatternToRegex(pattern: string) returns (out: seq<Regex>)
    ensures out == Pieces(pattern) && Means(out, pattern)
  {
    out := [];
    var i := 0;
    while i < |pattern|
      invariant 0 <= i <= |pattern| && out + Pieces(pattern[i..]) == Pieces(pattern)
    {
      var ch := pattern[i];
      if ch == '*' {
        if StartsWith(pattern, "**", i) {
          if StartsWith(pattern, "**/", i) {
            OnePieceMore(pattern, i, 3, LEADING_DIRECTORIES, out);
            out := out + [LEADING_DIRECTORIES];
            i := i + 3;
            continue;
          }
          OnePieceMore(pattern, i, 2, Star(Dot), out);
          out := out + [Star(Dot)];
          i := i + 2;
          continue;
        }
        OnePieceMore(pattern, i, 1, Star(NotSlash), out);
        out := out + [Star(NotSlash)];
      } else if ch == '?' {
        OnePieceMore(pattern, i, 1, NotSlash, out);
        out := out + [NotSlash];
      } else {
        OnePieceMore(pattern, i, 1, Literal(ch), out);
        out := out + [Literal(ch)];
      }
      i := i + 1;
    }
    PiecesMeanThePattern(pattern);
  }

  lemma PiecesMeanThePattern(pattern: string)
    ensures Means(Pieces(pattern), pattern)
  {
    forall path ensures MatchesAll(Pieces(pattern), path) ==> Glob(pattern, path) { CompiledMeansGlob(pattern, path); }
    forall path | OneLine(path) ensures MatchesAll(Pieces(pattern), path) <==> Glob(pattern, path) {
      CompiledMeansGlob(pattern, path);
    }
  }

  lemma {:induction false} StarDot(s: string)
    ensures Matches(Star(Dot), s) <==> OneLine(s)
    decreases |s|
  {
    if s != "" {
      forall k | 0 < k <= |s| ensures Matches(Dot, s[..k]) <==> k == 1 && s[0] != '\n' {}
      StarDot(s[1..]);
      assert s == [s[0]] + s[1..];
      if OneLine(s) {
        assert OneLine(s[1..]);
        assert Matches(Dot, s[..1]) && Matches(Star(Dot), s[1..]);
      }
    }
  }

  lemma {:induction false} StarNotSlash(s: string)
    ensures Matches(Star(NotSlash), s) <==> NoSlash(s)
    decreases |s|
  {
    if s != "" {
      forall k | 0 < k <= |s| ensures Matches(NotSlash, s[..k]) <==> k == 1 && s[0] != '/' {}
      StarNotSlash(s[1..]);
      assert s == [s[0]] + s[1..];
      if NoSlash(s) {
        assert NoSlash(s[1..]);
        assert Matches(NotSlash, s[..1]) && Matches(Star(NotSlash), s[1..]);
      }
    }
  }

  lemma LeadingDirectories(s: string)
    ensures Matches(LEADING_DIRECTORIES, s) <==> s == "" || (s[|s| - 1] == '/' && OneLine(s[..|s| - 1]))
  {
    var q := Then(Star(Dot), Literal('/'));
    forall k | 0 <= k <= |s|
      ensures Matches(Star(Dot), s[..k]) && Matches(Literal('/'), s[k..]) <==>
              k == |s| - 1 && s[k] == '/' && OneLine(s[..k])
    {
      StarDot(s[..k]);
    }
    if s != "" && s[|s| - 1] == '/' && OneLine(s[..|s| - 1]) {
      assert Matches(Star(Dot), s[..|s| - 1]) && Matches(Literal('/'), s[|s| - 1..]);
    }
    assert Matches(LEADING_DIRECTORIES, s) <==> s == "" || Matches(q, s);
  }

  /** The compiled expression matches only what the pattern means, and all of it that is one line. */
  lemma {:induction false} CompiledMeansGlob(pattern: string, path: string)
    ensures MatchesAll(Pieces(pattern), path) ==> Glob(pattern, path)
    ensures OneLine(path) && Glob(pattern, path) ==> MatchesAll(Pieces(pattern), path)
    decreases |pattern|
  {
    if pattern != "" {
      var pieces := Pieces(pattern);
      var skip := if "**/" <= pattern then 3 else if "**" <= pattern then 2 else 1;
      assert pieces[1..] == Pieces(pattern[skip..]);
      forall k | 0 <= k <= |path|
        ensures MatchesAll(pieces[1..], path[k..]) ==> Glob(pattern[skip..], path[k..])
        ensures OneLine(path) && Glob(pattern[skip..], path[k..]) ==> MatchesAll(pieces[1..], path[k..])
      {
        CompiledMeansGlob(pattern[skip..], path[k..]);
      }
      if "**/" <= pattern {
        forall k | 0 <= k <= |path|
          ensures Matches(pieces[0], path[..k]) ==> k == 0 || path[k - 1] == '/'
          ensures OneLine(path) && (k == 0 || path[k - 1] == '/') ==> Matches(pieces[0], path[..k])
        {
          DirectoriesEndAtSlash(path, k);
        }
      } else if "**" <= pattern {
        forall k | 0 <= k <= |path| ensures Matches(pieces[0], path[..k]) <==> OneLine(path[..k]) {
          StarDot(path[..k]);
        }
      } else if pattern[0] == '*' {
        forall k | 0 <= k <= |path| ensures Matches(pieces[0], path[..k]) <==> NoSlash(path[..k]) {
          StarNotSlash(path[..k]);
        }
      } else {
        assert forall k | 0 <= k <= |path| && Matches(pieces[0], path[..k]) :: k == 1;
        assert path != "" ==> path[..1] == [path[0]];
      }
    }
  }

  lemma DirectoriesEndAtSlash(path: string, k: nat)
    requires k <= |path|
    ensures Matches(LEADING_DIRECTORIES, path[..k]) ==> k == 0 || path[k - 1] == '/'
    ensures OneLine(path) && (k == 0 || path[k - 1] == '/') ==> Matches(LEADING_DIRECTORIES, path[..k])
  {
    var s := path[..k];
    LeadingDirectories(s);
    if k > 0 { assert s[k - 1] == path[k - 1]; }
  }

  /** `**` means every path, and is compiled to what misses a path of several lines. */
  lemma StarsMissOtherLines(path: string)
    requires !OneLine(path)
    ensures Glob("**", path) && !MatchesAll(Pieces("**"), path)
  {
    var stars := "**";
    assert Pieces(stars[2..]) == [] && Pieces(stars) == [Star(Dot)];
    assert path[|path|..] == "" && Glob(stars[2..], path[|path|..]) && Glob(stars, path);
    forall k | 0 <= k <= |path| && Matches(Star(Dot), path[..k]) ensures !MatchesAll([], path[k..]) {
      StarDot(path[..k]);
    }
    assert [Star(Dot)][1..] == [];
  }

  /** A path is safe from every pattern exactly when it is one line: `**` is written `.*`, and `.` stops
      at a newline. */
  lemma CompilationIsExactOnOneLine(path: string)
    ensures (forall pattern :: MatchesAll(Pieces(pattern), path) <==> Glob(pattern, path)) <==> OneLine(path)
  {
    if OneLine(path) {
      forall pattern ensures MatchesAll(Pieces(pattern), path) <==> Glob(pattern, path) {
        CompiledMeansGlob(pattern, path);
      }
    } else {
      StarsMissOtherLines(path);
    }
  }

  // -------------------------------------------------------------------------
  // Which patterns are compiled with their meaning
  // -------------------------------------------------------------------------

  predicate StarsAt(pattern: string, i: nat) { i + 1 < |pattern| && pattern[i] == '*' && pattern[i + 1] == '*' }

  predicate HasStars(pattern: string) { exists i: nat | i < |pattern| :: StarsAt(pattern, i) }

  /** A pattern without two stars together is compiled to exactly what it means, newlines or not. */
  lemma {:induction false} StarlessMeansGlob(pattern: string, path: string)
    requires !HasStars(pattern)
    ensures MatchesAll(Pieces(pattern), path) <==> Glob(pattern, path)
    decreases |pattern|
  {
    if pattern != "" {
      var pieces := Pieces(pattern);
      assert !StarsAt(pattern, 0);
      assert !("**" <= pattern) && pieces[1..] == Pieces(pattern[1..]);
      forall i: nat | i < |pattern[1..]| ensures !StarsAt(pattern[1..], i) { assert !StarsAt(pattern, i + 1); }
      forall k | 0 <= k <= |path| ensures MatchesAll(pieces[1..], path[k..]) <==> Glob(pattern[1..], path[k..]) {
        StarlessMeansGlob(pattern[1..], path[k..]);
      }
      if pattern[0] == '*' {
        forall k | 0 <= k <= |path| ensures Matches(pieces[0], path[..k]) <==> NoSlash(path[..k]) {
          StarNotSlash(path[..k]);
        }
      } else {
        assert forall k | 0 <= k <= |path| && Matches(pieces[0], path[..k]) :: k == 1;
        assert path != "" ==> path[..1] == [path[0]];
      }
    }
  }

  /** How many lines of the path end just before a slash. */
  function Breaks(path: string): nat {
    if |path| < 2 then 0 else (if path[0] == '\n' && path[1] == '/' then 1 else 0) + Breaks(path[1..])
  }

  /** A cut breaks up at most one of them. */
  lemma {:induction false} BreaksOfParts(path: string, k: nat)
    requires k <= |path|
    ensures Breaks(path) <= Breaks(path[..k]) + 1 + Breaks(path[k..])
    ensures k == |path| ==> Breaks(path[..k]) == Breaks(path)
  {
    if k == |path| {
      assert path[..k] == path;
    } else if k == 0 {
      assert path[k..] == path;
    } else if |path| >= 2 {
      BreaksOfParts(path[1..], k - 1);
      assert path[1..][..k - 1] == path[..k][1..] && path[1..][k - 1..] == path[k..];
    }
  }

  lemma {:induction false} NoBreaks(part: string)
    requires NoSlash(part) || OneLine(part) || (part != "" && OneLine(part[..|part| - 1]) && part[|part| - 1] != '\n')
    ensures Breaks(part) == 0
  {
    if |part| >= 2 {
      assert part[1..][..|part[1..]| - 1] == part[..|part| - 1][1..];
      NoBreaks(part[1..]);
    }
  }

  /** No piece a pattern is compiled to matches across a newline and a slash after it. */
  lemma PieceHasNoBreaks(pattern: string, part: string)
    requires pattern != "" && Matches(Pieces(pattern)[0], part)
    ensures Breaks(part) == 0
  {
    if "**/" <= pattern {
      LeadingDirectories(part);
      NoBreaks(part);
    } else if "**" <= pattern {
      StarDot(part);
      NoBreaks(part);
    } else if pattern[0] == '*' {
      StarNotSlash(part);
      NoBreaks(part);
    }
  }

  /** So a path that is matched has fewer of them than there are pieces. */
  lemma {:induction false} MatchedBreaks(pattern: string, path: string)
    requires MatchesAll(Pieces(pattern), path)
    ensures Breaks(path) <= |Pieces(pattern)|
    decreases |pattern|
  {
    if pattern != "" {
      var pieces := Pieces(pattern);
      var skip := if "**/" <= pattern then 3 else if "**" <= pattern then 2 else 1;
      assert pieces[1..] == Pieces(pattern[skip..]);
      var k :| 0 <= k <= |path| && Matches(pieces[0], path[..k]) && MatchesAll(pieces[1..], path[k..]);
      PieceHasNoBreaks(pattern, path[..k]);
      MatchedBreaks(pattern[skip..], path[k..]);
      BreaksOfParts(path, k);
    }
  }

  /** `n` directories whose names are a newline, in front of a path. */
  function Broken(n: nat, rest: string): (path: string)
    ensures |path| == 2 * n + |rest| && path[2 * n..] == rest && (n > 0 ==> path[2 * n - 1] == '/')
    ensures Breaks(path) >= n
  {
    if n == 0 then rest
    else
      var path := "\n/" + Broken(n - 1, rest);
      assert path[1..][1..] == Broken(n - 1, rest);
      path
  }

  /** A path that the pattern means. The first two stars together stand for `n` broken directories,
      and every other star for nothing. */
  function Example(pattern: string, n: nat): (path: string)
    decreases |pattern|
  {
    if pattern == "" then ""
    else if "**/" <= pattern then Broken(n, Example(pattern[3..], 0))
    else if "**" <= pattern then Broken(n, Example(pattern[2..], 0))
    else if pattern[0] == '*' then Example(pattern[1..], n)
    else if pattern[0] == '?' then "x" + Example(pattern[1..], n)
    else [pattern[0]] + Example(pattern[1..], n)
  }

  lemma {:induction false} ExampleIsMeant(pattern: string, n: nat)
    ensures Glob(pattern, Example(pattern, n))
    ensures HasStars(pattern) ==> Breaks(Example(pattern, n)) >= n
    decreases |pattern|
  {
    if pattern != "" {
      var path := Example(pattern, n);
      if "**" <= pattern {
        var skip := if "**/" <= pattern then 3 else 2;
        ExampleIsMeant(pattern[skip..], 0);
        assert path[2 * n..] == Example(pattern[skip..], 0);
      } else {
        ExampleIsMeant(pattern[1..], n);
        if HasStars(pattern) { StarsLater(pattern); }
        if pattern[0] == '*' {
          assert path[0..] == path && NoSlash(path[..0]);
        } else {
          assert path[1..] == Example(pattern[1..], n);
        }
      }
    }
  }

  lemma StarsLater(pattern: string)
    requires pattern != "" && !("**" <= pattern) && HasStars(pattern)
    ensures HasStars(pattern[1..])
  {
    var i: nat :| i < |pattern| && StarsAt(pattern, i);
    var later: nat := i - 1;
    assert pattern[1..][later] == pattern[i] && pattern[1..][later + 1] == pattern[i + 1];
    assert StarsAt(pattern[1..], later);
  }

  /** A pattern is compiled with its meaning on every path exactly when it has no two stars together:
      otherwise some path of several lines is meant and missed. */
  lemma CompilationIsExactWithoutStars(pattern: string)
    ensures (forall path :: MatchesAll(Pieces(pattern), path) <==> Glob(pattern, path)) <==> !HasStars(pattern)
  {
    if HasStars(pattern) {
      var n := |Pieces(pattern)| + 1;
      var path := Example(pattern, n);
      ExampleIsMeant(pattern, n);
      if MatchesAll(Pieces(pattern), path) { MatchedBreaks(pattern, path); }
      assert Glob(pattern, path) && !MatchesAll(Pieces(pattern), path);
    } else {
      forall path ensures MatchesAll(Pieces(pattern), path) <==> Glob(pattern, path) {
        StarlessMeansGlob(pattern, path);
      }
    }
  }

  // -------------------------------------------------------------------------
  // Lists of patterns
  // -------------------------------------------------------------------------

  predicate Negated(pattern: string) { "!" <= pattern }

  function Unsigned(pattern: string): string { if Negated(pattern) then pattern[1..] else pattern }

  /** The pattern, its `!` aside, matches the path. */
  predicate Hits(pattern: string, path: string) { MatchesAll(Pieces(Unsigned(pattern)), path) }

  /** The last pattern that hits the path is not a negated one. */
  ghost predicate LastHitIsPositive(path: string, patterns: seq<string>) {
    exists k: nat :: IsLastHit(path, patterns, k) && !Negated(patterns[k])
  }

  /** What `path_matches` computes. */
  predicate PathMatches(path: string, patterns: seq<string>) {
    patterns != [] &&
    var last := patterns[|patterns| - 1];
    if Hits(last, path) then !Negated(last) else PathMatches(path, patterns[..|patterns| - 1])
  }

  /** Hit number `k` is the last. */
  ghost predicate IsLastHit(path: string, patterns: seq<string>, k: nat) {
    k < |patterns| && Hits(patterns[k], path) && forall j | k < j < |patterns| :: !Hits(patterns[j], path)
  }

  lemma {:induction false} LastHitDecides(path: string, patterns: seq<string>)
    ensures PathMatches(path, patterns) <==> LastHitIsPositive(path, patterns)
  {
    if patterns != [] {
      var n := |patterns| - 1;
      var front := patterns[..n];
      LastHitDecides(path, front);
      if Hits(patterns[n], path) {
        assert forall k: nat :: IsLastHit(path, patterns, k) <==> k == n;
      } else {
        forall k: nat ensures IsLastHit(path, patterns, k) <==> IsLastHit(path, front, k) {
          MissesLast(path, patterns, k);
        }
        assert forall k: nat | k < n :: front[k] == patterns[k];
      }
    }
  }

  /** A last pattern that does not hit changes nothing. */
  lemma MissesLast(path: string, patterns: seq<string>, k: nat)
    requires patterns != [] && !Hits(patterns[|patterns| - 1], path)
    ensures IsLastHit(path, patterns, k) <==> IsLastHit(path, patterns[..|patterns| - 1], k)
  {
    var front := patterns[..|patterns| - 1];
    assert forall j | 0 <= j < |front| :: front[j] == patterns[j];
  }

  /** The ordered evaluation. */
  method EvaluatePatterns(path: string, patterns: seq<string>) returns (matched: bool)
    ensures matched <==> LastHitIsPositive(path, patterns)
    ensures OneLine(path) || NoStars(patterns) ==> (matched <==> LastMeantIsPositive(path, patterns))
  {
    matched := false;
    for i := 0 to |patterns|
      invariant matched <==> PathMatches(path, patterns[..i])
    {
      assert patterns[..i + 1][..i] == patterns[..i];
      if Negated(patterns[i]) {
        var compiled := PatternToRegex(patterns[i][1..]);
        if MatchesAll(compiled, path) {
          matched := false;
        }
      } else {
        var compiled := PatternToRegex(patterns[i]);
        if MatchesAll(compiled, path) {
          matched := true;
        }
      }
    }
    assert patterns[..|patterns|] == patterns;
    LastHitDecides(path, patterns);
    if OneLine(path) || NoStars(patterns) { ListMeansItsGlobs(path, patterns); }
  }

  /** What the pattern means, its `!` aside, holds of the path, and of no later pattern. */
  ghost predicate IsLastMeant(path: string, patterns: seq<string>, k: nat) {
    k < |patterns| && Glob(Unsigned(patterns[k]), path) &&
    forall j | k < j < |patterns| :: !Glob(Unsigned(patterns[j]), path)
  }

  /** What a list of patterns means: the last that means the path is not a negated one. */
  ghost predicate LastMeantIsPositive(path: string, patterns: seq<string>) {
    exists k: nat :: IsLastMeant(path, patterns, k) && !Negated(patterns[k])
  }

  /** No pattern of the list has two stars together. */
  predicate NoStars(patterns: seq<string>) { forall k | 0 <= k < |patterns| :: !HasStars(patterns[k]) }

  /** A list is evaluated with its meaning on every path of one line, and on every path at all if none
      of its patterns has two stars together. */
  lemma ListMeansItsGlobs(path: string, patterns: seq<string>)
    requires OneLine(path) || NoStars(patterns)
    ensures LastHitIsPositive(path, patterns) <==> LastMeantIsPositive(path, patterns)
  {
    forall k | 0 <= k < |patterns| ensures Hits(patterns[k], path) <==> Glob(Unsigned(patterns[k]), path) {
      var pattern := Unsigned(patterns[k]);
      CompiledMeansGlob(pattern, path);
      if HasStars(pattern) {
        var i: nat :| i < |pattern| && StarsAt(pattern, i);
        var j := if Negated(patterns[k]) then i + 1 else i;
        assert pattern[i] == patterns[k][j] && pattern[i + 1] == patterns[k][j + 1];
        assert StarsAt(patterns[k], j);
      } else {
        StarlessMeansGlob(pattern, path);
      }
    }
    assert forall k: nat :: IsLastHit(path, patterns, k) <==> IsLastMeant(path, patterns, k);
  }

  /** Lists of patterns are evaluated with their meaning exactly for the paths that are one line. */
  lemma ListsAreExactOnOneLine(path: string)
    ensures (forall patterns :: LastHitIsPositive(path, patterns) <==> LastMeantIsPositive(path, patterns)) <==>
            OneLine(path)
  {
    if OneLine(path) {
      forall patterns ensures LastHitIsPositive(path, patterns) <==> LastMeantIsPositive(path, patterns) {
        ListMeansItsGlobs(path, patterns);
      }
    } else {
      var stars := "**";
      var patterns := [stars];
      StarsMissOtherLines(path);
      assert stars[0] == '*' && !Negated(stars) && Unsigned(stars) == stars;
      assert patterns[0] == stars;
      assert IsLastMeant(path, patterns, 0);
      assert forall k: nat :: !IsLastHit(path, patterns, k);
      assert LastMeantIsPositive(path, patterns) && !LastHitIsPositive(path, patterns);
    }
  }

  // -------------------------------------------------------------------------
  // One pattern more
  // -------------------------------------------------------------------------

  /** No list lets anything in; a pattern that matches lets a path in, one with a `!` before what
      matches keeps it out, and one that does not match changes nothing. */
  lemma {:induction false} OnePatternMore(path: string, patterns: seq<string>, pattern: string)
    ensures !LastHitIsPositive(path, [])
    ensures !("!" <= pattern) && MatchesAll(Pieces(pattern), path) ==> LastHitIsPositive(path, patterns + [pattern])
    ensures MatchesAll(Pieces(pattern), path) ==> !LastHitIsPositive(path, patterns + ["!" + pattern])
    ensures !MatchesAll(Pieces(pattern), path) ==>
      (LastHitIsPositive(path, patterns + ["!" + pattern]) <==> LastHitIsPositive(path, patterns)) &&
      (!("!" <= pattern) ==> (LastHitIsPositive(path, patterns + [pattern]) <==> LastHitIsPositive(path, patterns)))
  {
    LastHitDecides(path, patterns);
    OneMoreDecides(path, patterns, pattern);
    var undo := "!" + pattern;
    assert undo[1..] == pattern && Negated(undo);
    OneMoreDecides(path, patterns, undo);
  }

  lemma {:induction false} OneMoreDecides(path: string, patterns: seq<string>, pattern: string)
    ensures LastHitIsPositive(path, patterns + [pattern]) <==>
            if Hits(pattern, path) then !Negated(pattern) else PathMatches(path, patterns)
  {
    var more := patterns + [pattern];
    LastHitDecides(path, more);
    assert more[..|more| - 1] == patterns;
  }
}
