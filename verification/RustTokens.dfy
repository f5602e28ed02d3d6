/**
 * The comments and literals of Rust, as its reference describes them: what is one, and how a text
 * falls into them and the code between. Nothing here scans; each end is said by what holds there.
 */
module RustTokens {
  // -------------------------------------------------------------------------
  // Places in a text
  // -------------------------------------------------------------------------

  predicate At(text: string, part: string, i: nat) {
    i + |part| <= |text| && text[i..i + |part|] == part
  }

  lemma AtTwo(text: string, part: string, i: nat)
    requires |part| == 2
    ensures At(text, part, i) <==> i + 2 <= |text| && text[i] == part[0] && text[i + 1] == part[1]
  {
    if i + 2 <= |text| { assert text[i..i + 2] == [text[i], text[i + 1]] && part == [part[0], part[1]]; }
  }

  lemma AtOne(text: string, part: string, i: nat)
    requires |part| == 1
    ensures At(text, part, i) <==> i < |text| && text[i] == part[0]
  {
    if i < |text| { assert text[i..i + 1] == [text[i]] && part == [part[0]]; }
  }

  /** The first place from `i` on where `part` stands is `q`. */
  predicate FirstAt(text: string, part: string, i: nat, q: nat) {
    i <= q && At(text, part, q) && forall p: nat | i <= p < q :: !At(text, part, p)
  }

  predicate NowhereFrom(text: string, part: string, i: nat) {
    forall p: nat | i <= p <= |text| :: !At(text, part, p)
  }

  // -------------------------------------------------------------------------
  // Comments
  // -------------------------------------------------------------------------

  /** A line comment ends before the first newline, or with the text. */
  predicate LineComment(text: string, i: nat, stop: nat) {
    At(text, "//", i) && (FirstAt(text, "\n", i, stop) || (stop == |text| && NowhereFrom(text, "\n", i)))
  }

  /** One comment more is open after a slash and a star, and one fewer after a star and a slash. */
  function Turn(text: string, i: nat): int { if At(text, "/*", i) then 1 else if At(text, "*/", i) then -1 else 0 }

  function Stride(text: string, i: nat): nat { if Turn(text, i) == 0 then 1 else 2 }

  predicate Follows(text: string, p: nat, q: nat) { p < |text| && q == p + Stride(text, p) }

  /** Places read one after another, each of the two marks as a whole. */
  predicate Chain(text: string, i: nat, c: seq<nat>) {
    c != [] && c[0] == i && forall k, l | 0 <= k < |c| && l == k + 1 < |c| :: Follows(text, c[k], c[l])
  }

  /** How many comments are open at the last place. */
  function Depth(text: string, c: seq<nat>): int {
    if |c| <= 1 then 0 else Depth(text, c[..|c| - 1]) + Turn(text, c[|c| - 2])
  }

  /** Some comment is open at every place after the first. */
  predicate StaysOpen(text: string, i: nat, c: seq<nat>) {
    Chain(text, i, c) && forall n | 1 < n <= |c| :: Depth(text, c[..n]) > 0
  }

  /** At the last place, and at none before it, as many are closed as were opened. */
  predicate Closes(text: string, i: nat, c: seq<nat>) {
    |c| > 1 && Chain(text, i, c) && Depth(text, c) == 0 && forall n | 1 < n < |c| :: Depth(text, c[..n]) > 0
  }

  /** A block comment ends at the first return to depth zero, or with the text. */
  ghost predicate BlockComment(text: string, i: nat, stop: nat) {
    At(text, "/*", i) &&
    ((exists c :: Closes(text, i, c) && c[|c| - 1] == stop) || (stop == |text| && forall c :: !Closes(text, i, c)))
  }

  // -------------------------------------------------------------------------
  // Literals
  // -------------------------------------------------------------------------

  /** The length of the run of backslashes just before `q`, none of them before `from`. */
  function Backslashes(text: string, from: nat, q: nat): nat
    requires q <= |text|
  {
    if from < q && text[q - 1] == '\\' then 1 + Backslashes(text, from, q - 1) else 0
  }

  predicate Escaped(text: string, from: nat, q: nat)
    requires q <= |text|
  {
    Backslashes(text, from, q) % 2 == 1
  }

  /** A quote that is not escaped, in a string that opens before `from`. */
  predicate BareQuote(text: string, from: nat, q: nat) {
    from <= q < |text| && text[q] == '"' && !Escaped(text, from, q)
  }

  predicate StringEnds(text: string, from: nat, stop: nat) {
    (0 < stop && BareQuote(text, from, stop - 1) && forall q: nat | q < stop - 1 :: !BareQuote(text, from, q)) ||
    (stop == |text| && forall q: nat | q < |text| :: !BareQuote(text, from, q))
  }

  /** A string ends with the first quote that is not escaped, or with the text. */
  predicate StringLiteral(text: string, i: nat, stop: nat) {
    i < |text| && text[i] == '"' && StringEnds(text, i + 1, stop)
  }

  function Hashes(k: nat): string { seq(k, _ => '#') }

  const RAW_PREFIXES: set<string> := {"r", "br", "cr"}

  /** A raw string opens at `i`: a prefix, `k` hashes and a quote, and its contents from `open` on. */
  predicate RawOpens(text: string, i: nat, prefix: string, k: nat, open: nat) {
    prefix in RAW_PREFIXES && open == i + |prefix| + k + 1 && At(text, prefix + Hashes(k) + "\"", i)
  }

  /** A quote and as many hashes as opened the string. */
  function Closing(k: nat): string { "\"" + Hashes(k) }

  predicate RawEnds(text: string, k: nat, open: nat, stop: nat) {
    (k < stop && FirstAt(text, Closing(k), open, stop - k - 1)) ||
    (stop == |text| && NowhereFrom(text, Closing(k), open))
  }

  /** An identifier does not go on at `i`. `wordy` says what letters and digits are. */
  predicate Fresh(text: string, i: nat, wordy: char -> bool)
    requires i <= |text|
  {
    i == 0 || !(wordy(text[i - 1]) || text[i - 1] == '_')
  }

  /** A raw string ends with the first quote that as many hashes follow as opened it. */
  ghost predicate RawString(text: string, i: nat, stop: nat, wordy: char -> bool) {
    i < |text| && Fresh(text, i, wordy) &&
    exists prefix, k: nat, open: nat :: RawOpens(text, i, prefix, k, open) && RawEnds(text, k, open, stop)
  }

  /** A character between quotes; or a backslash, the character after it whatever it is, and what
      follows up to the next quote. */
  predicate CharLiteral(text: string, i: nat, stop: nat) {
    i + 2 < |text| && text[i] == '\'' &&
    if text[i + 1] == '\\' then 0 < stop && FirstAt(text, "'", i + 3, stop - 1)
    else text[i + 2] == '\'' && stop == i + 3
  }

  /** A quote that opens no literal, as in a lifetime. */
  ghost predicate LoneQuote(text: string, i: nat, stop: nat) {
    i < |text| && text[i] == '\'' && stop == i + 1 && forall other: nat :: !CharLiteral(text, i, other)
  }

  /** A comment, a literal or a lone quote stands from `i` to `stop`. */
  ghost predicate Token(text: string, i: nat, stop: nat, wordy: char -> bool) {
    LineComment(text, i, stop) || BlockComment(text, i, stop) || RawString(text, i, stop, wordy) ||
    StringLiteral(text, i, stop) || CharLiteral(text, i, stop) || LoneQuote(text, i, stop)
  }

  // -------------------------------------------------------------------------
  // The text as a whole
  // -------------------------------------------------------------------------

  ghost predicate InSpan(spans: seq<(nat, nat)>, i: nat) {
    exists k | 0 <= k < |spans| :: spans[k].0 <= i < spans[k].1
  }

  /** Stretches from `from` on, in order and apart. */
  predicate InOrder(text: string, from: nat, spans: seq<(nat, nat)>) {
    (forall k | 0 <= k < |spans| :: from <= spans[k].0 < spans[k].1 <= |text|) &&
    (forall k, l | 0 <= k < l < |spans| :: spans[k].1 <= spans[l].0)
  }

  /** The text from `from` on is read: every stretch is a token, and between them none starts. `token`
      says where one starts and where it stops. */
  ghost predicate Reads(text: string, from: nat, spans: seq<(nat, nat)>, token: (nat, nat) -> bool) {
    InOrder(text, from, spans) && (forall k | 0 <= k < |spans| :: token(spans[k].0, spans[k].1)) &&
    (forall i: nat, stop: nat | from <= i < |text| && token(i, stop) :: InSpan(spans, i))
  }

  /** The text is read as Rust. */
  ghost predicate ReadAs(text: string, spans: seq<(nat, nat)>, wordy: char -> bool) {
    Reads(text, 0, spans, Tokens(text, wordy))
  }

  ghost function Tokens(text: string, wordy: char -> bool): (nat, nat) -> bool {
    (i: nat, stop: nat) => Token(text, i, stop, wordy)
  }

  // -------------------------------------------------------------------------
  // A text is read in one way
  // -------------------------------------------------------------------------

  /** Tokens lie in the text, and no two start at one place. */
  ghost predicate Proper(text: string, token: (nat, nat) -> bool) {
    forall i: nat, a: nat | token(i, a) :: i < a <= |text| && forall b: nat | token(i, b) :: a == b
  }

  /** A first stretch, and the rest. */
  lemma {:induction false} InSpanSplit(span: (nat, nat), rest: seq<(nat, nat)>, i: nat)
    ensures InSpan([span] + rest, i) <==> span.0 <= i < span.1 || InSpan(rest, i)
  {
    var spans := [span] + rest;
    assert spans[0] == span;
    assert forall k | 1 <= k < |spans| :: spans[k] == rest[k - 1];
    if k :| 0 <= k < |rest| && rest[k].0 <= i < rest[k].1 { assert spans[k + 1] == rest[k]; }
  }

  lemma {:induction false} InOrderSplit(text: string, i: nat, stop: nat, rest: seq<(nat, nat)>)
    requires InOrder(text, stop, rest) && i < stop <= |text|
    ensures InOrder(text, i, [(i, stop)] + rest)
  {
    var spans := [(i, stop)] + rest;
    assert forall k | 1 <= k < |spans| :: spans[k] == rest[k - 1];
  }

  lemma {:induction false} StartsInText(text: string, from: nat, spans: seq<(nat, nat)>, k: nat)
    requires InOrder(text, from, spans) && k < |spans|
    ensures from < |text| && (k > 0 ==> from < spans[k].0)
  {
    assert from <= spans[k].0 < spans[k].1 <= |text|;
    if k > 0 { assert spans[0].1 <= spans[k].0; }
  }

  lemma {:induction false} NoneAtTheEnd(text: string, from: nat, spans: seq<(nat, nat)>)
    requires InOrder(text, from, spans) && from >= |text|
    ensures spans == []
  {
    if |spans| > 0 { StartsInText(text, from, spans, 0); }
  }

  /** A reading that starts with a token at its first place, and the reading after it. */
  lemma {:induction false} ReadingAfterToken(text: string, i: nat, stop: nat, spans: seq<(nat, nat)>,
                                             token: (nat, nat) -> bool)
    requires i < |text| && Proper(text, token) && Reads(text, i, spans, token) && token(i, stop)
    ensures spans != [] && spans[0] == (i, stop) && i < stop <= |text|
    ensures Reads(text, stop, spans[1..], token) && spans == [(i, stop)] + spans[1..]
  {
    assert InSpan(spans, i);
    var k :| 0 <= k < |spans| && spans[k].0 <= i < spans[k].1;
    StartsInText(text, i, spans, k);
    assert token(spans[0].0, spans[0].1);
    var rest := spans[1..];
    assert spans == [(i, stop)] + rest;
    forall j: nat, end: nat | stop <= j < |text| && token(j, end) ensures InSpan(rest, j) {
      InSpanSplit((i, stop), rest, j);
    }
  }

  lemma {:induction false} ReadingAfterCode(text: string, i: nat, spans: seq<(nat, nat)>, token: (nat, nat) -> bool)
    requires i < |text| && Reads(text, i, spans, token) && forall stop: nat :: !token(i, stop)
    ensures Reads(text, i + 1, spans, token)
  {
    forall k | 0 <= k < |spans| ensures i + 1 <= spans[k].0 {
      assert token(spans[k].0, spans[k].1);
    }
  }

  lemma {:induction false} ReadingFromToken(text: string, i: nat, stop: nat, rest: seq<(nat, nat)>,
                                            token: (nat, nat) -> bool)
    requires token(i, stop) && i < stop <= |text| && Reads(text, stop, rest, token)
    ensures Reads(text, i, [(i, stop)] + rest, token)
  {
    var spans := [(i, stop)] + rest;
    InOrderSplit(text, i, stop, rest);
    forall k | 0 <= k < |spans| ensures token(spans[k].0, spans[k].1) {
      if k > 0 { assert spans[k] == rest[k - 1]; }
    }
    forall j: nat, end: nat | i <= j < |text| && token(j, end) ensures InSpan(spans, j) {
      InSpanSplit((i, stop), rest, j);
    }
  }

  lemma {:induction false} ReadingsAgree(text: string, i: nat, a: seq<(nat, nat)>, b: seq<(nat, nat)>,
                                         token: (nat, nat) -> bool)
    requires Proper(text, token) && Reads(text, i, a, token) && Reads(text, i, b, token)
    ensures a == b
    decreases |text| - i
  {
    if i >= |text| {
      NoneAtTheEnd(text, i, a);
      NoneAtTheEnd(text, i, b);
    } else if stop: nat :| token(i, stop) {
      ReadingAfterToken(text, i, stop, a, token);
      ReadingAfterToken(text, i, stop, b, token);
      ReadingsAgree(text, stop, a[1..], b[1..], token);
    } else {
      ReadingAfterCode(text, i, a, token);
      ReadingAfterCode(text, i, b, token);
      ReadingsAgree(text, i + 1, a, b, token);
    }
  }

  lemma {:induction false} ReadingExists(text: string, i: nat, token: (nat, nat) -> bool)
    returns (spans: seq<(nat, nat)>)
    requires Proper(text, token)
    ensures Reads(text, i, spans, token)
    decreases |text| - i
  {
    if i >= |text| {
      spans := [];
    } else if stop: nat :| token(i, stop) {
      var rest := ReadingExists(text, stop, token);
      spans := [(i, stop)] + rest;
      ReadingFromToken(text, i, stop, rest, token);
    } else {
      spans := ReadingExists(text, i + 1, token);
    }
  }
}
