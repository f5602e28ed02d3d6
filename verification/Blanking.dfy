/**
 * `blank_noise`: comments and literals of a Rust file are overwritten with spaces, in place.
 */
module Blanking {
  import opened Options
  import opened RustTokens

  // -------------------------------------------------------------------------
  // Where a comment or a literal ends
  // -------------------------------------------------------------------------

  /** The first occurrence of `part` at or after `i`. */
  function Find(text: string, part: string, i: nat): (r: Option<nat>)
    ensures r.Some? ==> FirstAt(text, part, i, r.value)
    ensures r.None? ==> NowhereFrom(text, part, i)
    decreases |text| - i
  {
    if i > |text| then None
    else if At(text, part, i) then Some(i)
    else if i == |text| then None
    else Find(text, part, i + 1)
  }

  /** A block comment nests: it ends where the depth returns to zero. */
  function CommentEnd(text: string, i: nat, depth: nat): (stop: nat)
    ensures stop >= i
    decreases |text| - i
  {
    if depth == 0 || i >= |text| then i
    else if At(text, "/*", i) then CommentEnd(text, i + 2, depth + 1)
    else if At(text, "*/", i) then CommentEnd(text, i + 2, depth - 1)
    else CommentEnd(text, i + 1, depth)
  }

  /** A string ends at the first quote that is not escaped. */
  function StringEnd(text: string, i: nat): (stop: nat)
    ensures stop >= i
    decreases |text| - i
  {
    if i >= |text| then i
    else if text[i] == '\\' then StringEnd(text, i + 2)
    else if text[i] == '"' then i + 1
    else StringEnd(text, i + 1)
  }

  function HashRun(text: string, i: nat): (k: nat)
    ensures i <= |text| ==> i + k <= |text|
    decreases |text| - i
  {
    if i < |text| && text[i] == '#' then 1 + HashRun(text, i + 1) else 0
  }

  const RAW_WINDOW := 260

  /** How many hashes open a raw string at `i`, and where its contents start; the pattern is tried
      on no more than a window of the text. */
  function RawOpen(text: string, i: nat): Option<(nat, nat)>
    requires i < |text|
  {
    var r := if text[i] == 'b' then i + 1 else i;
    if r < |text| && text[r] == 'r' then
      var k := HashRun(text, r + 1);
      if r + 1 + k < |text| && text[r + 1 + k] == '"' && r + 2 + k - i <= RAW_WINDOW then Some((k, r + 2 + k)) else None
    else None
  }

  function Capped(text: string, stop: nat): nat { if stop < |text| then stop else |text| }

  /** Where the comment or literal that starts at `i` ends, if one does. `wordy` is `isalnum`. */
  function NoiseEnd(text: string, i: nat, wordy: char -> bool): (stop: Option<nat>)
    requires i < |text|
    ensures stop.Some? ==> i < stop.value <= |text|
  {
    if At(text, "//", i) then
      AtTwo(text, "//", i);
      AtOne(text, "\n", i);
      var newline := Find(text, "\n", i);
      Some(if newline.Some? then newline.value else |text|)
    else if At(text, "/*", i) then Some(Capped(text, CommentEnd(text, i + 2, 1)))
    else
      var raw := RawOpen(text, i);
      if raw.Some? && Fresh(text, i, wordy) then
        var stop := Find(text, Closing(raw.value.0), raw.value.1);
        Some(if stop.Some? then stop.value + |Closing(raw.value.0)| else |text|)
      else if text[i] == '"' then Some(Capped(text, StringEnd(text, i + 1)))
      else if text[i] == '\'' then
        if At(text, "'\\", i) then
          var stop := Find(text, "'", i + 2);
          Some(if stop.Some? then stop.value + 1 else i + 1)
        else if i + 2 < |text| && text[i + 2] == '\'' then Some(i + 3)
        else Some(i + 1)
      else None
  }

  // -------------------------------------------------------------------------
  // What each end is
  // -------------------------------------------------------------------------

  lemma {:induction false} DepthOfOneMore(text: string, c: seq<nat>, p: nat)
    requires c != []
    ensures Depth(text, c + [p]) == Depth(text, c) + Turn(text, c[|c| - 1])
  {
    var d := c + [p];
    assert d[..|d| - 1] == c && d[|d| - 2] == c[|c| - 1];
  }

  lemma {:induction false} ChainOneMore(text: string, i: nat, c: seq<nat>)
    requires Chain(text, i, c) && c[|c| - 1] < |text|
    ensures Chain(text, i, c + [c[|c| - 1] + Stride(text, c[|c| - 1])])
  {
    var p := c[|c| - 1];
    var d := c + [p + Stride(text, p)];
    forall k, l | 0 <= k < |d| && l == k + 1 < |d| ensures Follows(text, d[k], d[l]) {
      if l < |c| { assert Follows(text, c[k], c[l]); }
    }
  }

  /** Two chains from one place: the shorter is the start of the longer. */
  lemma {:induction false} ChainsAgree(text: string, i: nat, c: seq<nat>, d: seq<nat>, n: nat)
    requires Chain(text, i, c) && Chain(text, i, d) && 0 < n <= |c| && n <= |d|
    ensures c[..n] == d[..n]
  {
    if n == 1 {
      assert c[..1] == [c[0]] && d[..1] == [d[0]];
    } else {
      ChainsAgree(text, i, c, d, n - 1);
      assert c[n - 2] == c[..n - 1][n - 2] && d[n - 2] == d[..n - 1][n - 2];
      assert Follows(text, c[n - 2], c[n - 1]) && Follows(text, d[n - 2], d[n - 1]);
      assert c[..n] == c[..n - 1] + [c[n - 1]] && d[..n] == d[..n - 1] + [d[n - 1]];
    }
  }

  lemma {:induction false} SameStart(text: string, i: nat, c: seq<nat>, d: seq<nat>) returns (n: nat)
    requires Chain(text, i, c) && Chain(text, i, d)
    ensures n == (if |c| <= |d| then |c| else |d|) && c[..n] == d[..n] && c[n - 1] == d[n - 1]
    ensures c[..|c|] == c && d[..|d|] == d && (n < |d| ==> d[n - 1] < |text|)
  {
    n := if |c| <= |d| then |c| else |d|;
    ChainsAgree(text, i, c, d, n);
    assert c[n - 1] == c[..n][n - 1] && d[n - 1] == d[..n][n - 1];
    assert n < |d| ==> Follows(text, d[n - 1], d[n]);
  }

  /** A comment closes once. */
  lemma {:induction false} ClosesOnce(text: string, i: nat, c: seq<nat>, d: seq<nat>)
    requires Closes(text, i, c) && Closes(text, i, d)
    ensures c == d
  {
    var n := SameStart(text, i, c, d);
  }

  /** A comment still open where the text ends is never closed. */
  lemma {:induction false} OpenToTheEnd(text: string, i: nat, c: seq<nat>, d: seq<nat>)
    requires |c| > 1 && StaysOpen(text, i, c) && c[|c| - 1] >= |text|
    ensures !Closes(text, i, d)
  {
    if Closes(text, i, d) {
      var n := SameStart(text, i, c, d);
    }
  }

  /** One place further: still open, or just closed. */
  lemma {:induction false} OnePlaceMore(text: string, i: nat, c: seq<nat>) returns (d: seq<nat>)
    requires |c| > 1 && StaysOpen(text, i, c) && c[|c| - 1] < |text|
    ensures |d| == |c| + 1 && d[|c|] == c[|c| - 1] + Stride(text, c[|c| - 1])
    ensures Depth(text, c) > 0 && Depth(text, d) == Depth(text, c) + Turn(text, c[|c| - 1])
    ensures if Depth(text, d) == 0 then Closes(text, i, d) else StaysOpen(text, i, d)
  {
    var p := c[|c| - 1];
    d := c + [p + Stride(text, p)];
    assert c[..|c|] == c && d[..|d|] == d;
    ChainOneMore(text, i, c);
    DepthOfOneMore(text, c, p + Stride(text, p));
    forall n | 1 < n < |d| ensures Depth(text, d[..n]) > 0 { assert d[..n] == c[..n]; }
  }

  /** From a place reached with comments open, the loop goes to the first return to depth zero. */
  lemma {:induction false} CommentEndCloses(text: string, i: nat, c: seq<nat>, stop: nat)
    requires At(text, "/*", i) && |c| > 1 && StaysOpen(text, i, c)
    ensures Depth(text, c) > 0
    ensures BlockComment(text, i, stop) <==> stop == Capped(text, CommentEnd(text, c[|c| - 1], Depth(text, c)))
    decreases |text| - c[|c| - 1]
  {
    assert c[..|c|] == c;
    var p := c[|c| - 1];
    if p >= |text| {
      forall d ensures !Closes(text, i, d) { OpenToTheEnd(text, i, c, d); }
    } else {
      var d := OnePlaceMore(text, i, c);
      CommentEndSteps(text, p, Depth(text, c));
      if Depth(text, d) == 0 {
        ClosedComment(text, i, d, stop);
      } else {
        CommentEndCloses(text, i, d, stop);
      }
    }
  }

  lemma {:induction false} CommentEndSteps(text: string, p: nat, depth: nat)
    requires p < |text| && depth > 0
    ensures p + Stride(text, p) <= |text| && depth + Turn(text, p) >= 0
    ensures CommentEnd(text, p, depth) == CommentEnd(text, p + Stride(text, p), depth + Turn(text, p))
  {
    MarksApart(text, p);
  }

  lemma {:induction false} ClosedComment(text: string, i: nat, c: seq<nat>, stop: nat)
    requires At(text, "/*", i) && Closes(text, i, c)
    ensures BlockComment(text, i, stop) <==> stop == c[|c| - 1]
  {
    forall d | Closes(text, i, d) ensures d == c { ClosesOnce(text, i, c, d); }
  }

  lemma {:induction false} MarksApart(text: string, p: nat)
    ensures !(At(text, "/*", p) && At(text, "*/", p))
    ensures Turn(text, p) != 0 ==> p + 2 <= |text|
  {
    AtTwo(text, "/*", p);
    AtTwo(text, "*/", p);
  }

  lemma {:induction false} BlockCommentEnd(text: string, i: nat, stop: nat)
    requires At(text, "/*", i)
    ensures BlockComment(text, i, stop) <==> stop == Capped(text, CommentEnd(text, i + 2, 1))
  {
    var c := [i, i + 2];
    assert Follows(text, i, i + 2);
    assert c[..1] == [i] && c[..2] == c;
    assert Depth(text, [i]) == 0 && Depth(text, c) == Depth(text, c[..1]) + Turn(text, c[0]);
    CommentEndCloses(text, i, c, stop);
  }

  /** The loop over a string goes past the first quote that is not escaped. */
  lemma {:induction false} StringEndIsFirst(text: string, from: nat, i: nat, stop: nat)
    requires from <= i <= |text| + 1 && (i <= |text| ==> !Escaped(text, from, i))
    requires forall q: nat | q < i && q < |text| :: !BareQuote(text, from, q)
    ensures StringEnds(text, from, stop) <==> stop == Capped(text, StringEnd(text, i))
    decreases |text| + 1 - i
  {
    if i < |text| {
      if text[i] == '\\' {
        assert Escaped(text, from, i + 1);
        if i + 2 <= |text| { assert !Escaped(text, from, i + 2); }
        StringEndIsFirst(text, from, i + 2, stop);
      } else if text[i] == '"' {
        assert BareQuote(text, from, i);
      } else {
        assert !Escaped(text, from, i + 1);
        StringEndIsFirst(text, from, i + 1, stop);
      }
    }
  }

  lemma {:induction false} AtStarts(text: string, part: string, i: nat)
    requires part != "" && At(text, part, i)
    ensures i < |text| && text[i] == part[0]
  {
    assert text[i..i + |part|][0] == text[i];
  }

  lemma {:induction false} HashRunIs(text: string, i: nat, k: nat)
    requires i + k < |text| && text[i + k] != '#' && forall p | i <= p < i + k :: text[p] == '#'
    ensures HashRun(text, i) == k
    decreases k
  {
    if k > 0 { HashRunIs(text, i + 1, k - 1); }
  }

  lemma {:induction false} HashRunIsHashes(text: string, i: nat)
    ensures forall p | i <= p < i + HashRun(text, i) :: p < |text| && text[p] == '#'
    decreases |text| - i
  {
    if i < |text| && text[i] == '#' { HashRunIsHashes(text, i + 1); }
  }

  /** Where a raw string opens, by the run of hashes that stands there. */
  lemma {:induction false} RawOpensIff(text: string, i: nat, prefix: string, k: nat, open: nat)
    requires prefix in RAW_PREFIXES
    ensures RawOpens(text, i, prefix, k, open) <==>
            At(text, prefix, i) && k == HashRun(text, i + |prefix|) && open == i + |prefix| + k + 1 <= |text| &&
            text[open - 1] == '"'
  {
    var part, j := prefix + Hashes(k) + "\"", i + |prefix|;
    if At(text, part, i) {
      var here := text[i..i + |part|];
      assert here[..|prefix|] == prefix && text[i..j] == here[..|prefix|];
      forall p | j <= p < j + k ensures text[p] == '#' { assert text[p] == here[p - i] == part[p - i]; }
      assert text[j + k] == here[|part| - 1] == '"';
      HashRunIs(text, j, k);
    }
    if At(text, prefix, i) && k == HashRun(text, j) && j + k < |text| && text[j + k] == '"' {
      HashRunIsHashes(text, j);
      var here := text[i..i + |part|];
      forall p | 0 <= p < |part| ensures here[p] == part[p] {
        if p < |prefix| { assert text[i..j][p] == prefix[p]; }
      }
      assert here == part;
    }
  }

  // -------------------------------------------------------------------------
  // Where the scan reads Rust
  // -------------------------------------------------------------------------

  /** What the scan takes for something else: a char literal that is an escaped quote, a raw string
      with a `c` before its `r`, and one whose opening is wider than the window. */
  ghost predicate Misread(text: string, i: nat, wordy: char -> bool)
    requires i < |text|
  {
    At(text, "'\\'", i) ||
    (Fresh(text, i, wordy) &&
     exists prefix, k: nat, open: nat ::
       RawOpens(text, i, prefix, k, open) && (prefix == "cr" || open - i > RAW_WINDOW))
  }

  /** A token begins with a character of its kind. */
  lemma {:induction false} TokenStarts(text: string, i: nat, stop: nat, wordy: char -> bool)
    requires Token(text, i, stop, wordy)
    ensures i < |text| && (text[i] == '/' <==> LineComment(text, i, stop) || BlockComment(text, i, stop))
    ensures text[i] == '"' <==> StringLiteral(text, i, stop)
    ensures text[i] == '\'' <==> CharLiteral(text, i, stop) || LoneQuote(text, i, stop)
    ensures text[i] == 'b' || text[i] == 'c' || text[i] == 'r' <==> RawString(text, i, stop, wordy)
  {
    AtTwo(text, "//", i);
    AtTwo(text, "/*", i);
    if RawString(text, i, stop, wordy) {
      var prefix, k: nat, open: nat :| RawOpens(text, i, prefix, k, open) && RawEnds(text, k, open, stop);
      AtStarts(text, prefix + Hashes(k) + "\"", i);
    }
  }

  lemma {:induction false} SlashIsRead(text: string, i: nat, stop: nat, wordy: char -> bool)
    requires i < |text| && text[i] == '/'
    ensures Token(text, i, stop, wordy) <==> NoiseEnd(text, i, wordy) == Some(stop)
  {
    AtTwo(text, "//", i);
    AtTwo(text, "/*", i);
    if Token(text, i, stop, wordy) { TokenStarts(text, i, stop, wordy); }
    if At(text, "/*", i) { BlockCommentEnd(text, i, stop); }
    if At(text, "//", i) { LineCommentEnd(text, i, stop, wordy); }
  }

  lemma {:induction false} LineCommentEnd(text: string, i: nat, stop: nat, wordy: char -> bool)
    requires At(text, "//", i)
    ensures LineComment(text, i, stop) <==> NoiseEnd(text, i, wordy) == Some(stop)
  {
    var newline := Find(text, "\n", i);
    if newline.Some? && LineComment(text, i, stop) {
      assert newline.value <= |text|;
      FirstIsOne(text, "\n", i, newline.value);
    }
  }

  lemma {:induction false} NoneIsFirst(text: string, part: string, i: nat, stop: nat)
    requires NowhereFrom(text, part, i)
    ensures !(0 < stop && FirstAt(text, part, i, stop - 1))
  {
  }

  /** Only one place is the first. */
  lemma {:induction false} FirstIsOne(text: string, part: string, i: nat, q: nat)
    requires FirstAt(text, part, i, q)
    ensures q <= |text| && !NowhereFrom(text, part, i)
    ensures forall p: nat :: FirstAt(text, part, i, p) <==> p == q
  {
    assert At(text, part, q);
    forall p: nat | FirstAt(text, part, i, p) ensures p == q { assert At(text, part, p); }
  }

  lemma {:induction false} StringIsRead(text: string, i: nat, stop: nat, wordy: char -> bool)
    requires i < |text| && text[i] == '"'
    ensures Token(text, i, stop, wordy) <==> NoiseEnd(text, i, wordy) == Some(stop)
  {
    AtTwo(text, "//", i);
    AtTwo(text, "/*", i);
    if Token(text, i, stop, wordy) { TokenStarts(text, i, stop, wordy); }
    StringEndIsFirst(text, i + 1, i + 1, stop);
  }

  lemma {:induction false} QuoteIsRead(text: string, i: nat, stop: nat, wordy: char -> bool)
    requires i < |text| && text[i] == '\'' && !At(text, "'\\'", i)
    ensures Token(text, i, stop, wordy) <==> NoiseEnd(text, i, wordy) == Some(stop)
  {
    AtTwo(text, "//", i);
    AtTwo(text, "/*", i);
    AtTwo(text, "'\\", i);
    if Token(text, i, stop, wordy) { TokenStarts(text, i, stop, wordy); }
    if i + 1 < |text| && text[i + 1] == '\\' {
      if i + 2 < |text| {
        EscapeIsRead(text, i, stop);
      } else {
        AtOne(text, "'", i + 2);
      }
    } else if i + 2 < |text| && text[i + 2] == '\'' {
      assert CharLiteral(text, i, i + 3);
    }
  }

  lemma {:induction false} EscapeIsRead(text: string, i: nat, stop: nat)
    requires i + 2 < |text| && text[i] == '\'' && text[i + 1] == '\\' && !At(text, "'\\'", i)
    ensures var found := Find(text, "'", i + 2);
      CharLiteral(text, i, stop) || LoneQuote(text, i, stop) <==>
      stop == if found.Some? then found.value + 1 else i + 1
  {
    assert text[i..i + 3] == [text[i], text[i + 1], text[i + 2]];
    AtOne(text, "'", i + 2);
    var found := Find(text, "'", i + 2);
    if found.Some? {
      assert FirstAt(text, "'", i + 3, found.value);
      FirstIsOne(text, "'", i + 3, found.value);
      assert CharLiteral(text, i, found.value + 1);
    } else {
      assert NowhereFrom(text, "'", i + 3);
      forall other: nat ensures !CharLiteral(text, i, other) { NoneIsFirst(text, "'", i + 3, other); }
    }
  }

  /** Where no token starts and none is seen. */
  lemma {:induction false} CodeIsRead(text: string, i: nat, stop: nat, wordy: char -> bool)
    requires i < |text| && text[i] !in {'/', '"', '\'', 'b', 'c', 'r'}
    ensures !Token(text, i, stop, wordy) && NoiseEnd(text, i, wordy).None?
  {
    AtTwo(text, "//", i);
    AtTwo(text, "/*", i);
    if Token(text, i, stop, wordy) { TokenStarts(text, i, stop, wordy); }
  }

  /** The prefix the first character allows. */
  function PrefixAt(text: string, i: nat): string
    requires i < |text|
  {
    if text[i] == 'b' then "br" else if text[i] == 'c' then "cr" else "r"
  }

  lemma {:induction false} PrefixIsOne(text: string, i: nat, prefix: string, k: nat, open: nat)
    requires i < |text| && RawOpens(text, i, prefix, k, open)
    ensures prefix == PrefixAt(text, i) && k == HashRun(text, i + |prefix|)
  {
    AtStarts(text, prefix + Hashes(k) + "\"", i);
    RawOpensIff(text, i, prefix, k, open);
  }

  /** What the scan's pattern finds is what opens a raw string, the prefix `cr` and the window aside. */
  lemma {:induction false} RawOpenIff(text: string, i: nat, k: nat, open: nat)
    requires i < |text| && (text[i] == 'b' || text[i] == 'r')
    ensures RawOpen(text, i) == Some((k, open)) <==>
            RawOpens(text, i, PrefixAt(text, i), k, open) && open - i <= RAW_WINDOW
  {
    var prefix := PrefixAt(text, i);
    AtOne(text, "r", i);
    AtTwo(text, "br", i);
    RawOpensIff(text, i, prefix, k, open);
  }

  lemma {:induction false} RawEndIsOne(text: string, k: nat, open: nat, stop: nat)
    ensures var found := Find(text, Closing(k), open);
      RawEnds(text, k, open, stop) <==> stop == if found.Some? then found.value + k + 1 else |text|
  {
    var found := Find(text, Closing(k), open);
    if found.Some? { FirstIsOne(text, Closing(k), open, found.value); }
    if k < stop && FirstAt(text, Closing(k), open, stop - k - 1) { FirstIsOne(text, Closing(k), open, stop - k - 1); }
  }

  /** A raw string from `i` to `stop`, in the one way it can be. */
  ghost predicate RawHere(text: string, i: nat, stop: nat, wordy: char -> bool)
    requires i < |text|
  {
    var prefix := PrefixAt(text, i);
    var k := HashRun(text, i + |prefix|);
    var open := i + |prefix| + k + 1;
    Fresh(text, i, wordy) && RawOpens(text, i, prefix, k, open) && RawEnds(text, k, open, stop)
  }

  lemma {:induction false} OpeningIsHere(text: string, i: nat, prefix: string, k: nat, open: nat)
    requires i < |text| && RawOpens(text, i, prefix, k, open)
    ensures prefix == PrefixAt(text, i) && k == HashRun(text, i + |prefix|) && open == i + |prefix| + k + 1
  {
    PrefixIsOne(text, i, prefix, k, open);
  }

  lemma {:induction false} RawStringIff(text: string, i: nat, stop: nat, wordy: char -> bool)
    requires i < |text|
    ensures RawString(text, i, stop, wordy) <==> RawHere(text, i, stop, wordy)
  {
    forall prefix, k: nat, open: nat | RawOpens(text, i, prefix, k, open)
      ensures prefix == PrefixAt(text, i) && k == HashRun(text, i + |prefix|) && open == i + |prefix| + k + 1
    {
      OpeningIsHere(text, i, prefix, k, open);
    }
  }

  lemma {:induction false} RawTokenIff(text: string, i: nat, stop: nat, wordy: char -> bool)
    requires i < |text| && text[i] in {'b', 'c', 'r'}
    ensures Token(text, i, stop, wordy) <==> RawHere(text, i, stop, wordy)
  {
    RawStringIff(text, i, stop, wordy);
    if Token(text, i, stop, wordy) { TokenStarts(text, i, stop, wordy); }
  }

  /** What the scan makes of a place where a raw string may open. */
  lemma {:induction false} RawNoise(text: string, i: nat, wordy: char -> bool)
    requires i < |text| && text[i] in {'b', 'c', 'r'}
    ensures NoiseEnd(text, i, wordy) ==
      if RawOpen(text, i).Some? && Fresh(text, i, wordy) then
        var (k, open) := RawOpen(text, i).value;
        var found := Find(text, Closing(k), open);
        Some(if found.Some? then found.value + k + 1 else |text|)
      else None
  {
    AtTwo(text, "//", i);
    AtTwo(text, "/*", i);
  }

  lemma {:induction false} RawNoiseEnds(text: string, i: nat, stop: nat, wordy: char -> bool)
    requires i < |text| && text[i] in {'b', 'c', 'r'} && RawOpen(text, i).Some? && Fresh(text, i, wordy)
    ensures NoiseEnd(text, i, wordy) == Some(stop) <==>
            RawEnds(text, RawOpen(text, i).value.0, RawOpen(text, i).value.1, stop)
  {
    RawNoise(text, i, wordy);
    RawEndIsOne(text, RawOpen(text, i).value.0, RawOpen(text, i).value.1, stop);
  }

  /** Where nothing is misread, what opens is what the pattern finds. */
  lemma {:induction false} OpeningIsSeen(text: string, i: nat, wordy: char -> bool)
    requires i < |text| && text[i] in {'b', 'c', 'r'} && !Misread(text, i, wordy) && Fresh(text, i, wordy)
    ensures var prefix := PrefixAt(text, i); var k := HashRun(text, i + |prefix|); var open := i + |prefix| + k + 1;
      RawOpens(text, i, prefix, k, open) <==> RawOpen(text, i) == Some((k, open))
  {
    var prefix := PrefixAt(text, i);
    var k := HashRun(text, i + |prefix|);
    var open := i + |prefix| + k + 1;
    if text[i] != 'c' { RawOpenIff(text, i, k, open); }
  }

  /** A place where a raw string may open, read by the pattern or not at all. */
  lemma {:induction false} RawNoiseIff(text: string, i: nat, stop: nat, wordy: char -> bool)
    requires i < |text| && text[i] in {'b', 'c', 'r'} && !Misread(text, i, wordy)
    ensures NoiseEnd(text, i, wordy) == Some(stop) <==> RawHere(text, i, stop, wordy)
  {
    if Fresh(text, i, wordy) { OpeningIsSeen(text, i, wordy); }
    if RawOpen(text, i).Some? && Fresh(text, i, wordy) {
      OpenIsOne(text, i);
      RawNoiseEnds(text, i, stop, wordy);
    } else {
      RawNoise(text, i, wordy);
    }
  }

  lemma {:induction false} OpenIsOne(text: string, i: nat)
    requires i < |text| && RawOpen(text, i).Some?
    ensures var prefix := PrefixAt(text, i); var k := HashRun(text, i + |prefix|);
      RawOpen(text, i) == Some((k, i + |prefix| + k + 1))
  {
    var (k, open) := RawOpen(text, i).value;
    RawOpenIff(text, i, k, open);
    PrefixIsOne(text, i, PrefixAt(text, i), k, open);
  }

  /** At most one token starts at a place. */
  lemma {:induction false} TokenIsOne(text: string, i: nat, a: nat, b: nat, wordy: char -> bool)
    requires Token(text, i, a, wordy) && Token(text, i, b, wordy)
    ensures a == b && i < a <= |text|
  {
    TokenStarts(text, i, a, wordy);
    if text[i] == '/' {
      SlashIsRead(text, i, a, wordy);
      SlashIsRead(text, i, b, wordy);
    } else if text[i] == '"' {
      StringIsRead(text, i, a, wordy);
      StringIsRead(text, i, b, wordy);
    } else if text[i] == '\'' {
      QuotesAreOne(text, i, a, b, wordy);
    } else {
      RawsAreOne(text, i, a, b, wordy);
    }
  }

  lemma {:induction false} QuotesAreOne(text: string, i: nat, a: nat, b: nat, wordy: char -> bool)
    requires Token(text, i, a, wordy) && Token(text, i, b, wordy) && i < |text| && text[i] == '\''
    ensures a == b && i < a <= |text|
  {
    TokenStarts(text, i, a, wordy);
    TokenStarts(text, i, b, wordy);
    if i + 2 < |text| && text[i + 1] == '\\' && CharLiteral(text, i, a) {
      FirstIsOne(text, "'", i + 3, a - 1);
      AtOne(text, "'", a - 1);
    }
  }

  lemma {:induction false} RawsAreOne(text: string, i: nat, a: nat, b: nat, wordy: char -> bool)
    requires Token(text, i, a, wordy) && Token(text, i, b, wordy) && i < |text| && text[i] in {'b', 'c', 'r'}
    ensures a == b && i < a <= |text|
  {
    var prefix := PrefixAt(text, i);
    var k := HashRun(text, i + |prefix|);
    var open := i + |prefix| + k + 1;
    RawTokenIff(text, i, a, wordy);
    RawTokenIff(text, i, b, wordy);
    RawOpensIff(text, i, prefix, k, open);
    RawEndIsOne(text, k, open, a);
    RawEndIsOne(text, k, open, b);
  }

  /** The scan sees what Rust has at a place. */
  ghost predicate ReadsPlace(text: string, i: nat, wordy: char -> bool)
    requires i < |text|
  {
    forall stop: nat :: Token(text, i, stop, wordy) <==> NoiseEnd(text, i, wordy) == Some(stop)
  }

  lemma {:induction false} EscapedQuoteIsMisread(text: string, i: nat, wordy: char -> bool)
    requires i < |text| && At(text, "'\\'", i)
    ensures NoiseEnd(text, i, wordy) == Some(i + 3) && !Token(text, i, i + 3, wordy)
  {
    assert text[i..i + 3] == ['\'', '\\', '\''];
    assert text[i] == '\'' && text[i + 1] == '\\' && text[i + 2] == '\'';
    AtTwo(text, "//", i);
    AtTwo(text, "/*", i);
    AtTwo(text, "'\\", i);
    AtOne(text, "'", i + 2);
    if Token(text, i, i + 3, wordy) { TokenStarts(text, i, i + 3, wordy); }
  }

  lemma {:induction false} RawIsToken(text: string, i: nat, prefix: string, k: nat, open: nat, wordy: char -> bool)
    returns (stop: nat)
    requires i < |text| && Fresh(text, i, wordy) && RawOpens(text, i, prefix, k, open)
    ensures Token(text, i, stop, wordy)
  {
    var found := Find(text, Closing(k), open);
    stop := if found.Some? then found.value + k + 1 else |text|;
    RawEndIsOne(text, k, open, stop);
    assert RawString(text, i, stop, wordy);
  }

  lemma {:induction false} RawIsMissed(text: string, i: nat, prefix: string, k: nat, open: nat, wordy: char -> bool)
    requires i < |text| && Fresh(text, i, wordy) && RawOpens(text, i, prefix, k, open)
    requires prefix == "cr" || open - i > RAW_WINDOW
    ensures NoiseEnd(text, i, wordy).None? && exists stop: nat :: Token(text, i, stop, wordy)
  {
    var stop := RawIsToken(text, i, prefix, k, open, wordy);
    AtStarts(text, prefix + Hashes(k) + "\"", i);
    OpeningIsHere(text, i, prefix, k, open);
    RawNoise(text, i, wordy);
    if text[i] != 'c' && RawOpen(text, i).Some? { OpenIsOne(text, i); }
  }

  /** The scan ends something where no token ends, or passes over a token. */
  ghost predicate Differs(text: string, i: nat, wordy: char -> bool)
    requires i < |text|
  {
    var end := NoiseEnd(text, i, wordy);
    if end.Some? then !Token(text, i, end.value, wordy) else exists stop: nat :: Token(text, i, stop, wordy)
  }

  lemma {:induction false} MisreadDiffers(text: string, i: nat, wordy: char -> bool)
    requires i < |text| && Misread(text, i, wordy)
    ensures Differs(text, i, wordy)
  {
    if At(text, "'\\'", i) {
      EscapedQuoteIsMisread(text, i, wordy);
    } else {
      var prefix, k: nat, open: nat :|
        RawOpens(text, i, prefix, k, open) && (prefix == "cr" || open - i > RAW_WINDOW);
      RawIsMissed(text, i, prefix, k, open, wordy);
    }
  }

  /** At every place of every text: the scan sees exactly the comment, the literal or the lone quote
      that Rust has there, unless the place is one of the three it misreads; and at those it does not. */
  lemma {:induction false} PlaceIsReadUnlessMisread(text: string, i: nat, wordy: char -> bool)
    requires i < |text|
    ensures ReadsPlace(text, i, wordy) <==> !Misread(text, i, wordy)
  {
    if Misread(text, i, wordy) {
      MisreadDiffers(text, i, wordy);
    } else {
      forall stop: nat ensures Token(text, i, stop, wordy) <==> NoiseEnd(text, i, wordy) == Some(stop) {
        if text[i] == '/' {
          SlashIsRead(text, i, stop, wordy);
        } else if text[i] == '"' {
          StringIsRead(text, i, stop, wordy);
        } else if text[i] == '\'' {
          QuoteIsRead(text, i, stop, wordy);
        } else if text[i] in {'b', 'c', 'r'} {
          RawTokenIff(text, i, stop, wordy);
          RawNoiseIff(text, i, stop, wordy);
        } else {
          CodeIsRead(text, i, stop, wordy);
        }
      }
    }
  }

  /** The window is wide enough for Rust, which takes at most 255 hashes. */
  lemma {:induction false} RustRawStringsFit(text: string, i: nat, prefix: string, k: nat, open: nat,
                                             wordy: char -> bool)
    requires i < |text| && RawOpens(text, i, prefix, k, open) && (prefix == "r" || prefix == "br") && k <= 255
    ensures !Misread(text, i, wordy)
  {
    AtStarts(text, prefix + Hashes(k) + "\"", i);
    assert text[i] != '\'';
    if At(text, "'\\'", i) { AtStarts(text, "'\\'", i); }
    forall p, n: nat, o: nat | RawOpens(text, i, p, n, o) ensures p == prefix && n == k && o == open {
      OpeningIsHere(text, i, p, n, o);
      OpeningIsHere(text, i, prefix, k, open);
    }
  }

  lemma {:induction false} TokensAreProper(text: string, wordy: char -> bool)
    ensures Proper(text, Tokens(text, wordy))
  {
    forall i: nat, a: nat, b: nat | Token(text, i, a, wordy) && Token(text, i, b, wordy)
      ensures a == b && i < a <= |text|
    {
      TokenIsOne(text, i, a, b, wordy);
    }
  }

  // -------------------------------------------------------------------------
  // Blanking
  // -------------------------------------------------------------------------

  function Spaces(part: string): (r: string)
    ensures |r| == |part|
  {
    seq(|part|, i requires 0 <= i < |part| => if part[i] == '\n' then '\n' else ' ')
  }

  /** The text from `i` on, with every comment and literal overwritten. */
  function Blanked(text: string, i: nat, wordy: char -> bool): (r: string)
    requires i <= |text|
    ensures |r| == |text| - i
    decreases |text| - i
  {
    if i == |text| then ""
    else
      var stop := NoiseEnd(text, i, wordy);
      if stop.None? then [text[i]] + Blanked(text, i + 1, wordy)
      else Spaces(text[i..stop.value]) + Blanked(text, stop.value, wordy)
  }

  /** Only noise is overwritten, and only with spaces; every newline stays where it is. */
  predicate OnlyBlanks(text: string, r: string) {
    |r| == |text| && forall j | 0 <= j < |r| :: r[j] == text[j] || (r[j] == ' ' && text[j] != '\n')
  }

  /** No quote and no comment opener. */
  predicate Clean(r: string) {
    forall j | 0 <= j < |r| ::
      r[j] != '"' && r[j] != '\'' && (r[j] == '/' && j + 1 < |r| ==> r[j + 1] != '/' && r[j + 1] != '*')
  }

  lemma BlanksAppend(text: string, r: string, text': string, r': string)
    requires OnlyBlanks(text, r) && OnlyBlanks(text', r')
    ensures OnlyBlanks(text + text', r + r')
  {
  }

  /** A kept character in front of a clean text: no quote, and no opener with the next one. */
  lemma CleanCons(c: char, rest: string)
    requires Clean(rest) && c != '"' && c != '\''
    requires c == '/' && rest != "" ==> rest[0] != '/' && rest[0] != '*'
    ensures Clean([c] + rest)
  {
    var r := [c] + rest;
    assert forall j | 1 <= j < |r| :: r[j] == rest[j - 1];
  }

  lemma CleanAfterBlanks(part: string, rest: string)
    requires Clean(rest)
    ensures Clean(Spaces(part) + rest) && OnlyBlanks(part, Spaces(part))
  {
    var r, n := Spaces(part) + rest, |part|;
    assert forall j | n <= j < |r| :: r[j] == rest[j - n];
  }

  /** A character that starts no noise, before a text that is one or a blank. */
  lemma KeptIsHarmless(text: string, i: nat, wordy: char -> bool)
    requires i < |text| && NoiseEnd(text, i, wordy).None?
    ensures text[i] != '"' && text[i] != '\''
    ensures text[i] == '/' && i + 1 < |text| ==> text[i + 1] != '/' && text[i + 1] != '*'
  {
    AtTwo(text, "//", i);
    AtTwo(text, "/*", i);
  }

  lemma {:induction false} BlankedIsClean(text: string, i: nat, wordy: char -> bool)
    requires i <= |text|
    ensures OnlyBlanks(text[i..], Blanked(text, i, wordy)) && Clean(Blanked(text, i, wordy))
    decreases |text| - i
  {
    if i < |text| {
      var stop := NoiseEnd(text, i, wordy);
      if stop.None? {
        var rest := Blanked(text, i + 1, wordy);
        BlankedIsClean(text, i + 1, wordy);
        KeptIsHarmless(text, i, wordy);
        assert rest != "" ==> text[i + 1..][0] == text[i + 1];
        CleanCons(text[i], rest);
        BlanksAppend([text[i]], [text[i]], text[i + 1..], rest);
        assert text[i..] == [text[i]] + text[i + 1..];
      } else {
        var part, rest := text[i..stop.value], Blanked(text, stop.value, wordy);
        BlankedIsClean(text, stop.value, wordy);
        CleanAfterBlanks(part, rest);
        BlanksAppend(part, Spaces(part), text[stop.value..], rest);
        assert text[i..] == part + text[stop.value..];
      }
    }
  }

  /** In a clean text nothing starts a comment or a literal. */
  lemma CleanHasNoNoise(text: string, i: nat, wordy: char -> bool)
    requires Clean(text) && i < |text|
    ensures NoiseEnd(text, i, wordy).None?
  {
    AtTwo(text, "//", i);
    AtTwo(text, "/*", i);
  }

  lemma {:induction false} CleanIsLeftAlone(text: string, i: nat, wordy: char -> bool)
    requires Clean(text) && i <= |text|
    ensures Blanked(text, i, wordy) == text[i..]
    decreases |text| - i
  {
    if i < |text| {
      CleanHasNoNoise(text, i, wordy);
      CleanIsLeftAlone(text, i + 1, wordy);
      assert text[i..] == [text[i]] + text[i + 1..];
    }
  }

  /** Blanking keeps the length and every newline, changes other characters only to spaces, leaves
      no quote and no comment opener, and does nothing to its own result. */
  lemma BlankingIsIdempotent(text: string, wordy: char -> bool)
    ensures var r := Blanked(text, 0, wordy);
      OnlyBlanks(text, r) && Clean(r) && Blanked(r, 0, wordy) == r &&
      forall j | 0 <= j < |text| :: r[j] == '\n' <==> text[j] == '\n'
  {
    BlankedIsClean(text, 0, wordy);
    assert text[0..] == text;
    CleanIsLeftAlone(Blanked(text, 0, wordy), 0, wordy);
  }

  // -------------------------------------------------------------------------
  // The text as a whole
  // -------------------------------------------------------------------------

  /** The stretches that the scan overwrites, from `i` on. */
  function Stretches(text: string, i: nat, wordy: char -> bool): seq<(nat, nat)>
    decreases |text| - i
  {
    if i >= |text| then []
    else
      var stop := NoiseEnd(text, i, wordy);
      if stop.None? then Stretches(text, i + 1, wordy)
      else [(i, stop.value)] + Stretches(text, stop.value, wordy)
  }

  function Space(c: char): char { if c == '\n' then '\n' else ' ' }

  /** From `from` on, the stretches are spaces and the rest is kept. */
  ghost predicate BlanksExactly(text: string, from: nat, r: string, spans: seq<(nat, nat)>) {
    from <= |text| && |r| == |text| - from &&
    forall j | from <= j < |text| :: r[j - from] == if InSpan(spans, j) then Space(text[j]) else text[j]
  }

  /** Place `i` is past the start of a stretch and before its end. */
  ghost predicate Inside(spans: seq<(nat, nat)>, i: nat) {
    exists k | 0 <= k < |spans| :: spans[k].0 < i < spans[k].1
  }

  lemma {:induction false} InsideSplit(span: (nat, nat), rest: seq<(nat, nat)>, i: nat)
    ensures Inside([span] + rest, i) <==> span.0 < i < span.1 || Inside(rest, i)
  {
    var spans := [span] + rest;
    assert spans[0] == span;
    assert forall k | 1 <= k < |spans| :: spans[k] == rest[k - 1];
    if k :| 0 <= k < |rest| && rest[k].0 < i < rest[k].1 { assert spans[k + 1] == rest[k]; }
  }

  lemma {:induction false} StretchesAreInOrder(text: string, i: nat, wordy: char -> bool)
    ensures InOrder(text, i, Stretches(text, i, wordy))
    decreases |text| - i
  {
    if i < |text| {
      var stop := NoiseEnd(text, i, wordy);
      if stop.None? {
        StretchesAreInOrder(text, i + 1, wordy);
      } else {
        StretchesAreInOrder(text, stop.value, wordy);
        InOrderSplit(text, i, stop.value, Stretches(text, stop.value, wordy));
      }
    }
  }

  lemma {:induction false} NotBefore(text: string, from: nat, spans: seq<(nat, nat)>, i: nat)
    requires InOrder(text, from, spans) && i <= from
    ensures !Inside(spans, i) && (i < from ==> !InSpan(spans, i))
  {
  }

  /** What is written: the stretches as spaces, and all the code as it was. */
  lemma {:induction false} StretchesAreBlanked(text: string, i: nat, wordy: char -> bool)
    requires i <= |text|
    ensures BlanksExactly(text, i, Blanked(text, i, wordy), Stretches(text, i, wordy))
    decreases |text| - i
  {
    if i < |text| {
      var stop := NoiseEnd(text, i, wordy);
      var next := if stop.None? then i + 1 else stop.value;
      StretchesAreBlanked(text, next, wordy);
      StretchesAreInOrder(text, next, wordy);
      if stop.None? {
        OneKept(text, i, Blanked(text, next, wordy), Stretches(text, next, wordy));
      } else {
        OneBlanked(text, i, next, Blanked(text, next, wordy), Stretches(text, next, wordy));
      }
    }
  }

  lemma {:induction false} OneKept(text: string, i: nat, r: string, rest: seq<(nat, nat)>)
    requires i < |text| && InOrder(text, i + 1, rest) && BlanksExactly(text, i + 1, r, rest)
    ensures BlanksExactly(text, i, [text[i]] + r, rest)
  {
    NotBefore(text, i + 1, rest, i);
  }

  lemma {:induction false} OneBlanked(text: string, i: nat, stop: nat, r: string, rest: seq<(nat, nat)>)
    requires i < stop <= |text| && InOrder(text, stop, rest) && BlanksExactly(text, stop, r, rest)
    ensures BlanksExactly(text, i, Spaces(text[i..stop]) + r, [(i, stop)] + rest)
  {
    forall j | i <= j < |text|
      ensures InSpan([(i, stop)] + rest, j) <==> j < stop || InSpan(rest, j)
    {
      InSpanSplit((i, stop), rest, j);
    }
  }

  /** No place outside the tokens' insides is misread. */
  ghost predicate NothingMisread(text: string, from: nat, spans: seq<(nat, nat)>, wordy: char -> bool) {
    forall i: nat | from <= i < |text| && !Inside(spans, i) :: !Misread(text, i, wordy)
  }

  lemma {:induction false} StillNotMisread(text: string, i: nat, stop: nat, rest: seq<(nat, nat)>, wordy: char -> bool)
    requires i < stop <= |text| && NothingMisread(text, i, [(i, stop)] + rest, wordy)
    ensures NothingMisread(text, stop, rest, wordy)
  {
    forall j: nat | stop <= j < |text| && !Inside(rest, j) ensures !Misread(text, j, wordy) {
      InsideSplit((i, stop), rest, j);
    }
  }

  /** Where nothing is misread, the scan overwrites exactly the tokens. */
  lemma {:induction false} TokensAreStretches(text: string, i: nat, spans: seq<(nat, nat)>, wordy: char -> bool)
    requires Reads(text, i, spans, Tokens(text, wordy)) && NothingMisread(text, i, spans, wordy)
    ensures Stretches(text, i, wordy) == spans
    decreases |text| - i
  {
    if i < |text| {
      NotBefore(text, i, spans, i);
      PlaceIsReadUnlessMisread(text, i, wordy);
      TokensAreProper(text, wordy);
      var stop := NoiseEnd(text, i, wordy);
      if stop.Some? {
        ReadingAfterToken(text, i, stop.value, spans, Tokens(text, wordy));
        StillNotMisread(text, i, stop.value, spans[1..], wordy);
        TokensAreStretches(text, stop.value, spans[1..], wordy);
      } else {
        ReadingAfterCode(text, i, spans, Tokens(text, wordy));
        TokensAreStretches(text, i + 1, spans, wordy);
      }
    } else {
      NoneAtTheEnd(text, i, spans);
    }
  }

  /** Every place the scan comes to is the start of a stretch or of none. */
  lemma {:induction false} StretchStarts(text: string, i: nat, j: nat, wordy: char -> bool)
    requires i <= j < |text| && !Inside(Stretches(text, i, wordy), j)
    ensures if NoiseEnd(text, j, wordy).Some? then (j, NoiseEnd(text, j, wordy).value) in Stretches(text, i, wordy)
            else !InSpan(Stretches(text, i, wordy), j)
    decreases |text| - i
  {
    var stop := NoiseEnd(text, i, wordy);
    var next := if stop.None? then i + 1 else stop.value;
    var rest := Stretches(text, next, wordy);
    if stop.Some? {
      InSpanSplit((i, next), rest, j);
      InsideSplit((i, next), rest, j);
    }
    if j == i {
      StretchesAreInOrder(text, next, wordy);
      NotBefore(text, next, rest, i);
    } else {
      StretchStarts(text, next, j, wordy);
    }
  }

  lemma {:induction false} SpanIsToken(text: string, spans: seq<(nat, nat)>, span: (nat, nat),
                                       token: (nat, nat) -> bool)
    requires Reads(text, 0, spans, token) && span in spans
    ensures token(span.0, span.1)
  {
  }

  /** A place that is misread makes the stretches others than the tokens. */
  lemma {:induction false} MisreadPlaceShows(text: string, spans: seq<(nat, nat)>, j: nat, wordy: char -> bool)
    requires ReadAs(text, spans, wordy) && j < |text| && !Inside(spans, j) && Misread(text, j, wordy)
    ensures Stretches(text, 0, wordy) != spans
  {
    MisreadDiffers(text, j, wordy);
    if Stretches(text, 0, wordy) == spans {
      StretchStarts(text, 0, j, wordy);
      if NoiseEnd(text, j, wordy).Some? {
        SpanIsToken(text, spans, (j, NoiseEnd(text, j, wordy).value), Tokens(text, wordy));
      } else {
        var stop: nat :| Token(text, j, stop, wordy);
        TokenIsInSpan(text, spans, j, stop, Tokens(text, wordy));
      }
    }
  }

  lemma {:induction false} TokenIsInSpan(text: string, spans: seq<(nat, nat)>, j: nat, stop: nat,
                                         token: (nat, nat) -> bool)
    requires Reads(text, 0, spans, token) && j < |text| && token(j, stop)
    ensures InSpan(spans, j)
  {
  }

  /** Every text, with whatever comments and literals it has: the scan overwrites exactly those, and
      each to its end, if and only if it comes to none of the places it misreads. */
  lemma {:induction false} ScanIsRightUnlessMisread(text: string, spans: seq<(nat, nat)>, wordy: char -> bool)
    requires ReadAs(text, spans, wordy)
    ensures Stretches(text, 0, wordy) == spans <==> NothingMisread(text, 0, spans, wordy)
    ensures NothingMisread(text, 0, spans, wordy) ==> BlanksExactly(text, 0, Blanked(text, 0, wordy), spans)
  {
    StretchesAreBlanked(text, 0, wordy);
    if NothingMisread(text, 0, spans, wordy) {
      TokensAreStretches(text, 0, spans, wordy);
    } else {
      var j: nat :| 0 <= j < |text| && !Inside(spans, j) && Misread(text, j, wordy);
      MisreadPlaceShows(text, spans, j, wordy);
    }
  }

  /** And every text can be read, in one way. */
  lemma {:induction false} TextIsReadInOneWay(text: string, wordy: char -> bool) returns (spans: seq<(nat, nat)>)
    ensures forall other :: ReadAs(text, other, wordy) <==> other == spans
  {
    TokensAreProper(text, wordy);
    spans := ReadingExists(text, 0, Tokens(text, wordy));
    forall other | ReadAs(text, other, wordy) ensures other == spans {
      ReadingsAgree(text, 0, other, spans, Tokens(text, wordy));
    }
  }

  /** Two char literals and a comma, of which the first is an escaped quote: the scan takes the comma
      for the second, and keeps the brace that is in it. */
  lemma {:induction false} BraceSurvivesEscapedQuote(wordy: char -> bool)
    ensures var text := "'\\'','{'";
      |text| == 8 && ReadAs(text, [(0, 4), (5, 8)], wordy) && Misread(text, 0, wordy) &&
      Blanked(text, 0, wordy)[6] == text[6] == '{'
  {
    var text := "'\\'','{'";
    assert text[0..3] == "'\\'";
    EscapedQuoteIsMisread(text, 0, wordy);
    BraceIsKept(text, wordy);
    EscapedQuoteIsRead(text, wordy);
  }

  lemma {:induction false} EscapedQuoteIsRead(text: string, wordy: char -> bool)
    requires text == "'\\'','{'"
    ensures ReadAs(text, [(0, 4), (5, 8)], wordy)
  {
    AtOne(text, "'", 3);
    assert FirstAt(text, "'", 3, 3) && CharLiteral(text, 0, 4) && CharLiteral(text, 5, 8);
    assert Token(text, 0, 4, wordy) && Token(text, 5, 8, wordy);
    forall stop: nat ensures !Token(text, 4, stop, wordy) { CodeIsRead(text, 4, stop, wordy); }
    TwoSpans(text, Tokens(text, wordy));
  }

  lemma {:induction false} TwoSpans(text: string, token: (nat, nat) -> bool)
    requires |text| == 8 && token(0, 4) && token(5, 8) && forall stop: nat :: !token(4, stop)
    ensures Reads(text, 0, [(0, 4), (5, 8)], token)
  {
    var spans := [(0, 4), (5, 8)];
    forall i: nat | i < |text| && i != 4 ensures InSpan(spans, i) {
      var k := if i < 4 then 0 else 1;
      assert spans[k].0 <= i < spans[k].1;
    }
  }

  lemma {:induction false} BraceIsKept(text: string, wordy: char -> bool)
    requires text == "'\\'','{'" && NoiseEnd(text, 0, wordy) == Some(3)
    ensures Blanked(text, 0, wordy)[6] == '{'
  {
    AtTwo(text, "//", 3);
    AtTwo(text, "/*", 3);
    AtTwo(text, "'\\", 3);
    assert NoiseEnd(text, 3, wordy) == Some(6);
    CodeIsRead(text, 6, 0, wordy);
    assert Blanked(text, 6, wordy)[0] == '{';
    assert Blanked(text, 3, wordy)[3] == '{';
  }

  /** A C string written raw: its `r` stands behind a `c`, its first quote is taken for a whole string,
      and the brace in it is kept. */
  lemma {:induction false} BraceSurvivesRawCString(wordy: char -> bool)
    requires wordy('c')
    ensures var text := "cr#\"\"{\"#";
      |text| == 8 && ReadAs(text, [(0, 8)], wordy) && Misread(text, 0, wordy) &&
      Blanked(text, 0, wordy)[5] == text[5] == '{'
  {
    var text := "cr#\"\"{\"#";
    RawCStringIsOne(text, wordy);
    RawIsMissed(text, 0, "cr", 1, 4, wordy);
    BraceInCStringIsKept(text, wordy);
  }

  lemma {:induction false} BraceInCStringIsKept(text: string, wordy: char -> bool)
    requires text == "cr#\"\"{\"#" && wordy('c') && NoiseEnd(text, 0, wordy).None?
    ensures Blanked(text, 0, wordy)[5] == '{'
  {
    RBehindWordOpensNothing(text, wordy);
    CodeIsRead(text, 2, 0, wordy);
    StringOpensAndCloses(text, wordy);
    CodeIsRead(text, 5, 0, wordy);
    assert Blanked(text, 5, wordy)[0] == '{';
    assert Blanked(text, 3, wordy)[2] == '{';
    assert Blanked(text, 2, wordy)[3] == '{';
    assert Blanked(text, 1, wordy)[4] == '{';
  }

  lemma {:induction false} RawCStringIsOne(text: string, wordy: char -> bool)
    requires text == "cr#\"\"{\"#"
    ensures RawOpens(text, 0, "cr", 1, 4) && ReadAs(text, [(0, 8)], wordy)
  {
    var opening := "cr" + Hashes(1) + "\"";
    assert |opening| == 4 && text[0..4] == opening;
    assert RawOpens(text, 0, "cr", 1, 4);
    var closing := Closing(1);
    assert closing == "\"#" && |closing| == 2;
    forall p: nat | 4 <= p < 6 ensures !At(text, closing, p) { AtTwo(text, closing, p); }
    AtTwo(text, closing, 6);
    assert FirstAt(text, closing, 4, 6) && RawEnds(text, 1, 4, 8);
    assert RawString(text, 0, 8, wordy);
    var spans := [(0, 8)];
    forall i: nat | i < |text| ensures InSpan(spans, i) { assert spans[0].0 <= i < spans[0].1; }
  }

  lemma {:induction false} RBehindWordOpensNothing(text: string, wordy: char -> bool)
    requires text == "cr#\"\"{\"#" && wordy('c')
    ensures NoiseEnd(text, 1, wordy).None?
  {
    RawNoise(text, 1, wordy);
  }

  lemma {:induction false} StringOpensAndCloses(text: string, wordy: char -> bool)
    requires text == "cr#\"\"{\"#"
    ensures NoiseEnd(text, 3, wordy) == Some(5)
  {
    AtTwo(text, "//", 3);
    AtTwo(text, "/*", 3);
    assert StringEnd(text, 4) == 5;
  }

  // -------------------------------------------------------------------------
  // The loop
  // -------------------------------------------------------------------------

  /** Overwrite `out[start..stop]`, newlines aside. */
  method Blank(out: array<char>, start: nat, stop: nat)
    requires start <= stop <= out.Length
    modifies out
    ensures out[..start] == old(out[..start]) && out[stop..] == old(out[stop..])
    ensures out[start..stop] == Spaces(old(out[start..stop]))
  {
    for position := start to stop
      invariant out[..start] == old(out[..start]) && out[stop..] == old(out[stop..])
      invariant forall j | start <= j < position :: out[j] == if old(out[j]) == '\n' then '\n' else ' '
      invariant forall j | position <= j < stop :: out[j] == old(out[j])
    {
      if out[position] != '\n' {
        out[position] := ' ';
      }
    }
  }

  method SkipComment(text: string, from: nat) returns (cursor: nat)
    ensures cursor == CommentEnd(text, from, 1)
  {
    var depth := 1;
    cursor := from;
    while cursor < |text| && depth > 0
      invariant depth >= 0 && CommentEnd(text, cursor, depth) == CommentEnd(text, from, 1)
      decreases |text| - cursor
    {
      if At(text, "/*", cursor) {
        depth := depth + 1;
        cursor := cursor + 2;
      } else if At(text, "*/", cursor) {
        depth := depth - 1;
        cursor := cursor + 2;
      } else {
        cursor := cursor + 1;
      }
    }
  }

  method SkipString(text: string, from: nat) returns (cursor: nat)
    ensures cursor == StringEnd(text, from)
  {
    cursor := from;
    while cursor < |text|
      invariant StringEnd(text, cursor) == StringEnd(text, from)
      decreases |text| - cursor
    {
      if text[cursor] == '\\' {
        cursor := cursor + 2;
        continue;
      }
      if text[cursor] == '"' {
        return cursor + 1;
      }
      cursor := cursor + 1;
    }
  }

  /** Where the comment or literal at `index` ends, or `index` itself if none starts there. */
  method SkipNoise(text: string, index: nat, wordy: char -> bool) returns (stop: nat)
    requires index < |text|
    ensures NoiseEnd(text, index, wordy) == if stop == index then None else Some(Capped(text, stop))
  {
    if At(text, "//", index) {
      var newline := Find(text, "\n", index);
      AtTwo(text, "//", index);
      AtOne(text, "\n", index);
      return if newline.Some? then newline.value else |text|;
    }
    if At(text, "/*", index) {
      stop := SkipComment(text, index + 2);
      return;
    }
    var raw := RawOpen(text, index);
    if raw.Some? && (index == 0 || !(wordy(text[index - 1]) || text[index - 1] == '_')) {
      var closing := Closing(raw.value.0);
      var found := Find(text, closing, raw.value.1);
      return if found.Some? then found.value + |closing| else |text|;
    }
    if text[index] == '"' {
      stop := SkipString(text, index + 1);
      return;
    }
    if text[index] == '\'' {
      if At(text, "'\\", index) {
        var found := Find(text, "'", index + 2);
        return if found.Some? then found.value + 1 else index + 1;
      }
      return if index + 2 < |text| && text[index + 2] == '\'' then index + 3 else index + 1;
    }
    stop := index;
  }

  /** Rust has a token from `i` to `stop`, or none at `i` if that is `stop`. */
  ghost predicate RustHas(text: string, i: nat, stop: nat, wordy: char -> bool) {
    if stop == i then forall end: nat :: !Token(text, i, end, wordy) else Token(text, i, Capped(text, stop), wordy)
  }

  /** The same, and what it comes to: what is found is what Rust has there, exactly where the place is
      not misread. */
  method NoiseAt(text: string, index: nat, wordy: char -> bool) returns (stop: nat)
    requires index < |text|
    ensures NoiseEnd(text, index, wordy) == if stop == index then None else Some(Capped(text, stop))
    ensures RustHas(text, index, stop, wordy) <==> !Misread(text, index, wordy)
  {
    stop := SkipNoise(text, index, wordy);
    NoiseIsRust(text, index, stop, wordy);
  }

  lemma {:induction false} NoiseIsRust(text: string, i: nat, stop: nat, wordy: char -> bool)
    requires i < |text| && NoiseEnd(text, i, wordy) == if stop == i then None else Some(Capped(text, stop))
    ensures RustHas(text, i, stop, wordy) <==> !Misread(text, i, wordy)
  {
    PlaceIsReadUnlessMisread(text, i, wordy);
    if Misread(text, i, wordy) { MisreadDiffers(text, i, wordy); }
  }

  /** The part of `out` before `index` is done, the rest is still the text. */
  ghost predicate DoneUpTo(text: string, out: seq<char>, index: nat, wordy: char -> bool) {
    index <= |text| == |out| && out[index..] == text[index..] &&
    out[..index] + Blanked(text, index, wordy) == Blanked(text, 0, wordy)
  }

  lemma TailsAgree(text: string, out: seq<char>, index: nat, stop: nat)
    requires index <= stop <= |text| == |out| && out[index..] == text[index..]
    ensures out[index..stop] == text[index..stop] && out[stop..] == text[stop..]
  {
    assert out[index..stop] == out[index..][..stop - index];
    assert text[index..stop] == text[index..][..stop - index];
    assert out[stop..] == out[index..][stop - index..];
    assert text[stop..] == text[index..][stop - index..];
  }

  lemma Regroup(out: seq<char>, index: nat, stop: nat, blanks: seq<char>, rest: seq<char>)
    requires index <= stop <= |out| && out[index..stop] == blanks
    ensures out[..stop] + rest == out[..index] + (blanks + rest)
  {
    assert out[..stop] == out[..index] + out[index..stop];
  }

  lemma KeptOne(text: string, out: seq<char>, index: nat, wordy: char -> bool)
    requires DoneUpTo(text, out, index, wordy) && index < |text| && NoiseEnd(text, index, wordy).None?
    ensures DoneUpTo(text, out, index + 1, wordy)
  {
    TailsAgree(text, out, index, index + 1);
    var rest := Blanked(text, index + 1, wordy);
    assert Blanked(text, index, wordy) == [text[index]] + rest;
    assert out[index..index + 1] == text[index..index + 1] == [text[index]];
    Regroup(out, index, index + 1, [text[index]], rest);
  }

  lemma BlankedOne(text: string, before: seq<char>, out: seq<char>, index: nat, stop: nat, wordy: char -> bool)
    requires DoneUpTo(text, before, index, wordy) && index < stop <= |text| == |out|
    requires NoiseEnd(text, index, wordy) == Some(stop)
    requires out[..index] == before[..index] && out[stop..] == before[stop..]
    requires out[index..stop] == Spaces(before[index..stop])
    ensures DoneUpTo(text, out, stop, wordy)
  {
    TailsAgree(text, before, index, stop);
    var part := text[index..stop];
    var blanks, rest := Spaces(part), Blanked(text, stop, wordy);
    assert Blanked(text, index, wordy) == blanks + rest;
    Regroup(out, index, stop, blanks, rest);
  }

  /** Every comment and literal becomes spaces and everything else is kept, however the text is read
      as Rust, unless the scan comes to a place it misreads. */
  method BlankNoise(text: string, wordy: char -> bool) returns (clean: string)
    ensures clean == Blanked(text, 0, wordy)
    ensures OnlyBlanks(text, clean) && Clean(clean)
    ensures BlanksExactly(text, 0, clean, Stretches(text, 0, wordy))
    ensures forall spans | ReadAs(text, spans, wordy) && NothingMisread(text, 0, spans, wordy) ::
      BlanksExactly(text, 0, clean, spans)
  {
    var out := new char[|text|](i requires 0 <= i < |text| => text[i]);
    assert out[..] == text;
    var index := 0;
    while index < |text|
      invariant DoneUpTo(text, out[..], index, wordy)
    {
      var end := NoiseAt(text, index, wordy);
      if end == index {
        KeptOne(text, out[..], index, wordy);
        index := index + 1;
      } else {
        var stop := Capped(text, end);
        ghost var before := out[..];
        Blank(out, index, stop);
        BlankedOne(text, before, out[..], index, stop, wordy);
        index := stop;
      }
    }
    BlankingIsIdempotent(text, wordy);
    StretchesAreBlanked(text, 0, wordy);
    forall spans | ReadAs(text, spans, wordy) && NothingMisread(text, 0, spans, wordy)
      ensures BlanksExactly(text, 0, Blanked(text, 0, wordy), spans)
    {
      ScanIsRightUnlessMisread(text, spans, wordy);
    }
    clean := out[..];
  }
}
