/**
 * `span_of`: a quote is searched for in a text byte by byte, and where it stands is answered in
 * characters. Text is held as UTF-8 (section 3 of RFC 3629).
 */
module QuoteSpans {
  import opened Options

  type Byte = b: int | 0 <= b < 256

  // -------------------------------------------------------------------------
  // UTF-8
  // -------------------------------------------------------------------------

  function Utf8(c: char): (bytes: seq<Byte>) {
    var n := c as int;
    if n < 0x80 then [n]
    else if n < 0x800 then [0xC0 + n / 0x40, 0x80 + n % 0x40]
    else if n < 0x1_0000 then [0xE0 + n / 0x1000, 0x80 + n / 0x40 % 0x40, 0x80 + n % 0x40]
    else [0xF0 + n / 0x4_0000, 0x80 + n / 0x1000 % 0x40, 0x80 + n / 0x40 % 0x40, 0x80 + n % 0x40]
  }

  function Encode(text: string): seq<Byte> {
    if text == "" then [] else Utf8(text[0]) + Encode(text[1..])
  }

  predicate IsContinuation(b: Byte) { 0x80 <= b < 0xC0 }

  /** The length a first byte announces. */
  function Announced(b: Byte): nat {
    if b < 0x80 then 1 else if b < 0xE0 then 2 else if b < 0xF0 then 3 else 4
  }

  lemma Utf8Shape(c: char)
    ensures |Utf8(c)| == Announced(Utf8(c)[0]) >= 1 && !IsContinuation(Utf8(c)[0])
    ensures forall i | 1 <= i < |Utf8(c)| :: IsContinuation(Utf8(c)[i])
  {
  }

  /** Two characters with the same bytes are the same: the payload bits of the bytes are its number. */
  lemma Utf8IsInjective(c: char, d: char)
    requires Utf8(c) == Utf8(d)
    ensures c == d
  {
    Utf8Payload(c);
    Utf8Payload(d);
    Utf8Shape(c);
    Utf8Shape(d);
  }

  lemma Utf8Payload(c: char)
    ensures var u := Utf8(c); var n := c as int;
      match |u|
      case 1 => n == u[0]
      case 2 => n == 0x40 * (u[0] - 0xC0) as int + (u[1] - 0x80) as int
      case 3 => n == 0x1000 * (u[0] - 0xE0) as int + 0x40 * (u[1] - 0x80) as int + (u[2] - 0x80) as int
      case _ => |u| == 4 && n == 0x4_0000 * (u[0] - 0xF0) as int + 0x1000 * (u[1] - 0x80) as int +
                                 0x40 * (u[2] - 0x80) as int + (u[3] - 0x80) as int
  {
    var n := c as int;
    assert n / 0x40 / 0x40 == n / 0x1000 && n / 0x1000 / 0x40 == n / 0x4_0000;
  }

  lemma {:induction false} EncodeAppends(a: string, b: string)
    ensures Encode(a + b) == Encode(a) + Encode(b)
  {
    if a == "" {
      assert a + b == b;
    } else {
      assert (a + b)[1..] == a[1..] + b;
      EncodeAppends(a[1..], b);
    }
  }

  lemma EncodeSplits(text: string, i: nat)
    requires i <= |text|
    ensures Encode(text) == Encode(text[..i]) + Encode(text[i..])
  {
    assert text == text[..i] + text[i..];
    EncodeAppends(text[..i], text[i..]);
  }

  // -------------------------------------------------------------------------
  // Bytes and characters
  // -------------------------------------------------------------------------

  predicate BytesAt(hay: seq<Byte>, needle: seq<Byte>, at: nat) {
    at + |needle| <= |hay| && hay[at..at + |needle|] == needle
  }

  predicate CharsAt(text: string, quote: string, i: nat) {
    i + |quote| <= |text| && text[i..i + |quote|] == quote
  }

  /** Only a character's first byte is no continuation, so such a byte is at a boundary. */
  lemma {:induction false} FirstBytesAreBoundaries(text: string, at: nat) returns (i: nat)
    requires at < |Encode(text)| && !IsContinuation(Encode(text)[at])
    ensures i < |text| && at == |Encode(text[..i])|
  {
    var first := Utf8(text[0]);
    Utf8Shape(text[0]);
    if at < |first| {
      assert Encode(text)[at] == first[at];
      i := 0;
      assert text[..0] == "";
    } else {
      assert Encode(text)[at] == Encode(text[1..])[at - |first|];
      var j := FirstBytesAreBoundaries(text[1..], at - |first|);
      i := j + 1;
      assert text[..i][0] == text[0] && text[..i][1..] == text[1..][..j];
    }
  }

  /** Where bytes agree from a boundary on, characters agree. */
  lemma {:induction false} BytePrefixIsCharPrefix(quote: string, text: string)
    requires Encode(quote) <= Encode(text)
    ensures quote <= text
  {
    if quote != "" {
      var q, t := Utf8(quote[0]), if text == "" then [] else Utf8(text[0]);
      Utf8Shape(quote[0]);
      assert Encode(quote)[0] == q[0];
      if text != "" {
        Utf8Shape(text[0]);
        assert Encode(text)[0] == t[0] == q[0];
        assert Encode(text)[..|q|] == t && Encode(quote)[..|q|] == q;
        assert Encode(text)[..|q|] == Encode(quote)[..|q|];
        Utf8IsInjective(quote[0], text[0]);
        assert Encode(quote)[|q|..] == Encode(quote[1..]) && Encode(text)[|q|..] == Encode(text[1..]);
        BytePrefixIsCharPrefix(quote[1..], text[1..]);
      }
    }
  }

  /** A byte match of a quote in a text starts and ends on character boundaries, and is a match of
      characters. */
  lemma ByteMatchIsCharMatch(text: string, quote: string, at: nat) returns (i: nat)
    requires quote != "" && BytesAt(Encode(text), Encode(quote), at)
    ensures CharsAt(text, quote, i) && at == |Encode(text[..i])|
    ensures at + |Encode(quote)| == |Encode(text[..i + |quote|])|
  {
    Utf8Shape(quote[0]);
    var hay, needle := Encode(text), Encode(quote);
    assert needle[0] == Utf8(quote[0])[0];
    assert hay[at] == hay[at..at + |needle|][0];
    i := FirstBytesAreBoundaries(text, at);
    EncodeSplits(text, i);
    assert Encode(text[i..]) == hay[at..];
    assert hay[at..][..|needle|] == needle;
    BytePrefixIsCharPrefix(quote, text[i..]);
    assert text[i..][..|quote|] == text[i..i + |quote|];
    EncodeSplits(text[..i + |quote|], i);
    assert text[..i + |quote|][..i] == text[..i] && text[..i + |quote|][i..] == quote;
  }

  lemma CharMatchIsByteMatch(text: string, quote: string, i: nat)
    requires CharsAt(text, quote, i)
    ensures BytesAt(Encode(text), Encode(quote), |Encode(text[..i])|)
  {
    EncodeSplits(text, i);
    EncodeSplits(text[i..], |quote|);
    assert text[i..][..|quote|] == quote;
    var at := |Encode(text[..i])|;
    assert Encode(text)[at..] == Encode(quote) + Encode(text[i..][|quote|..]);
    assert Encode(text)[at..at + |Encode(quote)|] == Encode(text)[at..][..|Encode(quote)|];
  }

  lemma BoundariesInOrder(text: string, i: nat, j: nat)
    requires i < j <= |text|
    ensures |Encode(text[..i])| < |Encode(text[..j])|
  {
    EncodeSplits(text[..j], i);
    assert text[..j][..i] == text[..i];
    Utf8Shape(text[..j][i..][0]);
  }

  // -------------------------------------------------------------------------
  // The span of a quote
  // -------------------------------------------------------------------------

  /** The first byte match at or after `at`. */
  function FindBytes(hay: seq<Byte>, needle: seq<Byte>, at: nat): (r: Option<nat>)
    ensures r.Some? ==> at <= r.value && BytesAt(hay, needle, r.value) &&
                        forall k | at <= k < r.value :: !BytesAt(hay, needle, k)
    ensures r.None? ==> forall k | at <= k :: !BytesAt(hay, needle, k)
    decreases |hay| - at
  {
    if BytesAt(hay, needle, at) then Some(at)
    else if at >= |hay| then None
    else FindBytes(hay, needle, at + 1)
  }

  /** How many characters valid bytes hold: one for each byte that starts one. */
  function CharCount(bytes: seq<Byte>): nat {
    if bytes == [] then 0 else (if IsContinuation(bytes[0]) then 0 else 1) + CharCount(bytes[1..])
  }

  lemma {:induction false} CharCountAppends(a: seq<Byte>, b: seq<Byte>)
    ensures CharCount(a + b) == CharCount(a) + CharCount(b)
  {
    if a == [] {
      assert a + b == b;
    } else {
      assert (a + b)[1..] == a[1..] + b;
      CharCountAppends(a[1..], b);
    }
  }

  lemma {:induction false} OneCharOneCount(bytes: seq<Byte>)
    requires forall i | 0 <= i < |bytes| :: IsContinuation(bytes[i])
    ensures CharCount(bytes) == 0
  {
    if bytes != [] { OneCharOneCount(bytes[1..]); }
  }

  lemma {:induction false} CharCountIsLength(text: string)
    ensures CharCount(Encode(text)) == |text|
  {
    if text != "" {
      var first := Utf8(text[0]);
      Utf8Shape(text[0]);
      OneCharOneCount(first[1..]);
      CharCountAppends(first, Encode(text[1..]));
      CharCountIsLength(text[1..]);
    }
  }

  /** The quote without the white space around it. */
  function TrimStart(text: string, white: char -> bool): string {
    if text != "" && white(text[0]) then TrimStart(text[1..], white) else text
  }

  function Trim(text: string, white: char -> bool): string
    decreases |text|, 1
  {
    TrimEnd(TrimStart(text, white), white)
  }

  function TrimEnd(text: string, white: char -> bool): string {
    if text != "" && white(text[|text| - 1]) then TrimEnd(text[..|text| - 1], white) else text
  }

  function Alphanumerics(text: string, alphanumeric: char -> bool): nat {
    if text == "" then 0 else (if alphanumeric(text[0]) then 1 else 0) + Alphanumerics(text[1..], alphanumeric)
  }

  /** The places of letters and digits. */
  function Letters(text: string, alphanumeric: char -> bool): set<nat> {
    set i: nat | i < |text| && alphanumeric(text[i])
  }

  lemma {:induction false} LastAlphanumeric(text: string, alphanumeric: char -> bool)
    requires text != ""
    ensures var n := |text| - 1;
      Alphanumerics(text, alphanumeric) ==
      Alphanumerics(text[..n], alphanumeric) + if alphanumeric(text[n]) then 1 else 0
  {
    if |text| > 1 {
      LastAlphanumeric(text[1..], alphanumeric);
      assert text[1..][..|text| - 2] == text[..|text| - 1][1..];
    }
  }

  lemma {:induction false} AlphanumericsAreLetters(text: string, alphanumeric: char -> bool)
    ensures Alphanumerics(text, alphanumeric) == |Letters(text, alphanumeric)|
  {
    if text == "" {
      assert Letters(text, alphanumeric) == {};
    } else {
      var n := |text| - 1;
      var front := text[..n];
      AlphanumericsAreLetters(front, alphanumeric);
      LastAlphanumeric(text, alphanumeric);
      assert forall i | 0 <= i < n :: front[i] == text[i];
      assert Letters(text, alphanumeric) == if alphanumeric(text[n]) then Letters(front, alphanumeric) + {n}
                                            else Letters(front, alphanumeric);
    }
  }

  /** Where the quote is in the text, in characters. `white` and `alphanumeric` are the standard
      library's classes. */
  function SpanOf(quote: string, text: string, white: char -> bool, alphanumeric: char -> bool): Option<(nat, nat)> {
    var trimmed := Trim(quote, white);
    if Alphanumerics(trimmed, alphanumeric) < 3 then None
    else
      var at := FindBytes(Encode(text), Encode(trimmed), 0);
      if at.None? then None
      else
        var start := CharCount(Encode(text)[..at.value]);
        Some((start, start + CharCount(Encode(trimmed))))
  }

  /** A span is in bounds, cuts exactly the trimmed quote out of the text, and is its first place
      there; and there is one whenever a quote of three letters or digits occurs at all. */
  lemma {:induction false} SpansAreExact(quote: string, text: string, white: char -> bool, alphanumeric: char -> bool)
    ensures var q := Trim(quote, white); var span := SpanOf(quote, text, white, alphanumeric);
      (span.Some? <==> |Letters(q, alphanumeric)| >= 3 && exists i: nat :: CharsAt(text, q, i)) &&
      (span.Some? ==>
         span.value.0 < span.value.1 <= |text| && text[span.value.0..span.value.1] == q &&
         forall i: nat | i < span.value.0 :: !CharsAt(text, q, i))
  {
    var q := Trim(quote, white);
    AlphanumericsAreLetters(q, alphanumeric);
    if Alphanumerics(q, alphanumeric) >= 3 {
      var at := FindBytes(Encode(text), Encode(q), 0);
      if at.Some? {
        var i := ByteMatchIsCharMatch(text, q, at.value);
        EncodeSplits(text, i);
        assert Encode(text)[..at.value] == Encode(text[..i]);
        CharCountIsLength(text[..i]);
        CharCountIsLength(q);
        forall j: nat | j < i ensures !CharsAt(text, q, j) {
          if CharsAt(text, q, j) {
            CharMatchIsByteMatch(text, q, j);
            BoundariesInOrder(text, j, i);
          }
        }
      } else {
        forall j: nat ensures !CharsAt(text, q, j) {
          if CharsAt(text, q, j) { CharMatchIsByteMatch(text, q, j); }
        }
      }
    }
  }

  lemma {:induction false} TrimmedEnd(text: string, white: char -> bool)
    ensures TrimEnd(text, white) <= text
    ensures TrimEnd(text, white) != "" ==> !white(TrimEnd(text, white)[|TrimEnd(text, white)| - 1])
    ensures forall i | |TrimEnd(text, white)| <= i < |text| :: white(text[i])
  {
    if text != "" && white(text[|text| - 1]) { TrimmedEnd(text[..|text| - 1], white); }
  }

  lemma {:induction false} TrimmedStart(text: string, white: char -> bool) returns (from: nat)
    ensures from <= |text| && TrimStart(text, white) == text[from..]
    ensures from < |text| ==> !white(text[from])
    ensures forall i | 0 <= i < from :: white(text[i])
  {
    if text != "" && white(text[0]) {
      var rest := TrimmedStart(text[1..], white);
      from := rest + 1;
      assert forall i | 1 <= i < from :: text[i] == text[1..][i - 1];
    } else {
      from := 0;
    }
  }

  /** Trimming takes away white space only, and all of it at either end. */
  lemma TrimIsExact(text: string, white: char -> bool) returns (from: nat, to: nat)
    ensures from <= to <= |text| && Trim(text, white) == text[from..to]
    ensures forall i | 0 <= i < |text| && !(from <= i < to) :: white(text[i])
    ensures from < to ==> !white(text[from]) && !white(text[to - 1])
  {
    from := TrimmedStart(text, white);
    var rest := text[from..];
    TrimmedEnd(rest, white);
    to := from + |TrimEnd(rest, white)|;
    assert forall i | from <= i < |text| :: text[i] == rest[i - from];
  }
}
