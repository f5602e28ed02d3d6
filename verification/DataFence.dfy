/**
 * `fence`: data between an opening and a closing line whose number appears nowhere in it.
 */
module DataFence {
  import opened Options

  // -------------------------------------------------------------------------
  // Decimal numbers
  // -------------------------------------------------------------------------

  predicate IsDigit(c: char) { '0' <= c <= '9' }

  function Digit(d: nat): char
    requires d < 10
  {
    '0' + d as char
  }

  function Decimal(n: nat): string {
    if n < 10 then [Digit(n)] else Decimal(n / 10) + [Digit(n % 10)]
  }

  function Value(text: string): nat {
    if text == "" then 0
    else 10 * Value(text[..|text| - 1]) + (if IsDigit(text[|text| - 1]) then (text[|text| - 1] - '0') as nat else 0)
  }

  lemma {:induction false} DecimalIsRead(n: nat)
    ensures Value(Decimal(n)) == n && Decimal(n) != "" && forall i | 0 <= i < |Decimal(n)| :: IsDigit(Decimal(n)[i])
    ensures |Decimal(n)| == 1 || Decimal(n)[0] != '0'
  {
    if n >= 10 {
      DecimalIsRead(n / 10);
      assert Decimal(n)[..|Decimal(n)| - 1] == Decimal(n / 10);
    } else {
      assert Decimal(n)[..0] == "";
    }
  }

  // -------------------------------------------------------------------------
  // The fence
  // -------------------------------------------------------------------------

  const U32_LIMIT := 0x1_0000_0000

  function Marker(n: nat): string { "DATA-" + Decimal(n) }

  predicate OccursAt(text: string, part: string, at: int) {
    0 <= at <= |text| - |part| && text[at..at + |part|] == part
  }

  predicate Contains(text: string, part: string) {
    exists at | 0 <= at <= |text| :: OccursAt(text, part, at)
  }

  function Open(n: nat): string { "<<<" + Marker(n) + "\n" }

  function Close(n: nat): string { "\n" + Marker(n) + ">>>" }

  function Fenced(n: nat, data: string): string { Open(n) + data + Close(n) }

  /** `number` is the least whose marker is not in the data. */
  predicate LeastUnused(data: string, number: nat) {
    !Contains(data, Marker(number)) && forall k | 0 <= k < number :: Contains(data, Marker(k))
  }

  /** The search for a number: the first of the `u32`s that is not in the data, unless they all are. */
  method FreshNumber(data: string) returns (number: Option<nat>)
    ensures number.Some? ==> number.value < U32_LIMIT && LeastUnused(data, number.value)
    ensures number.Some? ==> number.value <= if |data| > 5 then |data| - 5 else 0
    ensures number.None? ==> |data| >= U32_LIMIT + 5 && forall k | 0 <= k < 0x1_0000_0000 :: Contains(data, Marker(k))
  {
    var k: nat := 0;
    while k < U32_LIMIT
      invariant k <= U32_LIMIT && forall j | 0 <= j < k :: Contains(data, Marker(j))
      decreases U32_LIMIT - k
    {
      if !Contains(data, Marker(k)) {
        UsedNumbersNeedRoom(data, k);
        return Some(k);
      }
      k := k + 1;
    }
    UsedNumbersNeedRoom(data, k);
    number := None;
  }

  /** The data between its lines, and nothing at all only for data that names every `u32`. */
  method Fence(data: string) returns (fenced: Option<string>)
    ensures fenced.None? ==> |data| >= 0x1_0000_0000 + 5
    ensures fenced.Some? ==> exists n :: LeastUnused(data, n) && fenced.value == Fenced(n, data) &&
                                         ReadsAs(n, data, fenced.value)
    ensures fenced.Some? ==> Unfence(fenced.value) == data
  {
    var number := FreshNumber(data);
    if number.None? {
      return None;
    }
    FenceOpensBackUp(data, number.value);
    FenceReads(number.value, data);
    fenced := Some(Fenced(number.value, data));
  }

  // -------------------------------------------------------------------------
  // The least unused number is small
  // -------------------------------------------------------------------------

  /** A marker is a dash, and after it digits only. */
  lemma MarkerChars(n: nat)
    ensures |Marker(n)| == 5 + |Decimal(n)| > 5 && Marker(n)[4] == '-' && Marker(n)[5..] == Decimal(n)
    ensures forall i | 5 <= i < |Marker(n)| :: IsDigit(Marker(n)[i])
    ensures forall i | 0 <= i < |Marker(n)| :: Marker(n)[i] != '\n'
  {
    DecimalIsRead(n);
    assert forall i | 5 <= i < |Marker(n)| :: Marker(n)[i] == Decimal(n)[i - 5];
  }

  lemma OccurrenceChar(text: string, part: string, at: int, i: int)
    requires OccursAt(text, part, at) && 0 <= i < |part|
    ensures text[at + i] == part[i]
  {
    assert text[at..at + |part|][i] == text[at + i];
  }

  lemma MarkersStartTogether(data: string, j: nat, k: nat, at: int, at': int)
    requires OccursAt(data, Marker(j), at) && OccursAt(data, Marker(k), at')
    requires at + |Marker(j)| == at' + |Marker(k)|
    ensures at <= at'
  {
    MarkerChars(j);
    MarkerChars(k);
    if at > at' {
      OccurrenceChar(data, Marker(j), at, 4);
      OccurrenceChar(data, Marker(k), at', at + 4 - at');
    }
  }

  /** Two markers that end at the same place are the same marker: the digits run back to the dash. */
  lemma MarkersEndApart(data: string, j: nat, k: nat, at: int, at': int)
    requires OccursAt(data, Marker(j), at) && OccursAt(data, Marker(k), at')
    requires at + |Marker(j)| == at' + |Marker(k)|
    ensures j == k
  {
    MarkersStartTogether(data, j, k, at, at');
    MarkersStartTogether(data, k, j, at', at);
    MarkerChars(j);
    MarkerChars(k);
    DecimalIsRead(j);
    DecimalIsRead(k);
  }

  /** Where the marker of each of the first `k` numbers ends. */
  lemma {:induction false} EndsOfUsed(data: string, k: nat) returns (ends: set<int>)
    requires forall j | 0 <= j < k :: Contains(data, Marker(j))
    ensures |ends| == k && forall e | e in ends :: 6 <= e <= |data|
    ensures forall e | e in ends :: exists j: nat, at :: j < k && OccursAt(data, Marker(j), at) && e == at + |Marker(j)|
  {
    if k == 0 {
      ends := {};
    } else {
      var before := EndsOfUsed(data, k - 1);
      var at :| 0 <= at <= |data| && OccursAt(data, Marker(k - 1), at);
      DecimalIsRead(k - 1);
      var e := at + |Marker(k - 1)|;
      if e in before {
        var j: nat, at' :| j < k - 1 && OccursAt(data, Marker(j), at') && e == at' + |Marker(j)|;
        MarkersEndApart(data, j, k - 1, at', at);
      }
      ends := before + {e};
    }
  }

  lemma {:induction false} SizeOfRange(s: set<int>, lo: int, hi: int)
    requires forall e | e in s :: lo <= e <= hi
    ensures |s| <= if lo <= hi then hi - lo + 1 else 0
    decreases hi - lo
  {
    if lo > hi {
      assert forall e :: e !in s;
    } else {
      var rest := s - {hi};
      SizeOfRange(rest, lo, hi - 1);
      assert s <= rest + {hi};
      assert |s| <= |rest| + 1 by { if hi in s { assert s == rest + {hi}; } else { assert s == rest; } }
    }
  }

  lemma UsedNumbersNeedRoom(data: string, k: nat)
    requires forall j | 0 <= j < k :: Contains(data, Marker(j))
    ensures k <= if |data| > 5 then |data| - 5 else 0
  {
    var ends := EndsOfUsed(data, k);
    SizeOfRange(ends, 6, |data|);
  }

  // -------------------------------------------------------------------------
  // The fence opens back up
  // -------------------------------------------------------------------------

  /** Where `part` first occurs in `text`, or the length of `text`. */
  function Find(text: string, part: string, from: nat): (at: nat)
    requires from <= |text|
    ensures from <= at <= |text|
    ensures at < |text| ==> OccursAt(text, part, at)
    ensures forall i | from <= i < at :: !OccursAt(text, part, i)
    decreases |text| - from
  {
    if from == |text| || OccursAt(text, part, from) then from else Find(text, part, from + 1)
  }

  /** A reader of the rule the model is told: the number is on the first line, and the data ends at
      the first closing line of that number. */
  function Unfence(text: string): string {
    var newline := Find(text, "\n", 0);
    if newline < 8 || newline == |text| then ""
    else
      var n := Value(text[8..newline]);
      var rest := text[newline + 1..];
      rest[..Find(rest, Close(n), 0)]
  }

  /** The first newline of a text ends its first line. */
  lemma FirstNewline(line: string, rest: string)
    requires forall i | 0 <= i < |line| :: line[i] != '\n'
    ensures Find(line + "\n" + rest, "\n", 0) == |line|
  {
    var text := line + "\n" + rest;
    assert text[|line|..|line| + 1] == "\n";
    assert OccursAt(text, "\n", |line|);
    forall i | 0 <= i < |line| ensures !OccursAt(text, "\n", i) {
      assert text[i..i + 1] == [line[i]] && [line[i]][0] != "\n"[0];
    }
  }

  lemma TwoLines(line: string, rest: string)
    requires |line| >= 8
    ensures var text := line + "\n" + rest;
      |line| < |text| && text[8..|line|] == line[8..] && text[|line| + 1..] == rest
  {
  }

  lemma AfterAngles(marker: string)
    requires |marker| >= 5
    ensures ("<<<" + marker)[8..] == marker[5..]
  {
  }

  /** The first line of a fence carries its number. */
  lemma FirstLine(n: nat, data: string)
    ensures var text := Fenced(n, data);
      Find(text, "\n", 0) == 8 + |Decimal(n)| < |text| && text[8..8 + |Decimal(n)|] == Decimal(n) &&
      text[9 + |Decimal(n)|..] == data + Close(n)
  {
    MarkerChars(n);
    var marker, rest := Marker(n), data + Close(n);
    var line := "<<<" + marker;
    assert Open(n) + data + Close(n) == line + "\n" + rest;
    assert forall i | 0 <= i < |line| :: line[i] != '\n';
    FirstNewline(line, rest);
    AfterAngles(marker);
    TwoLines(line, rest);
  }

  /** A closing line inside the data would have its marker there. */
  lemma CloseInside(n: nat, data: string, at: int)
    requires OccursAt(data + Close(n), Close(n), at) && at + 1 + |Marker(n)| <= |data|
    ensures Contains(data, Marker(n))
  {
    var rest, close, m := data + Close(n), Close(n), |Marker(n)|;
    forall i | 0 <= i < m ensures data[at + 1 + i] == Marker(n)[i] { OccurrenceChar(rest, close, at, 1 + i); }
    assert data[at + 1..at + 1 + m] == Marker(n);
    assert OccursAt(data, Marker(n), at + 1);
  }

  /** One that runs over the end of the data would need the newline there to be in its marker. */
  lemma CloseAcross(n: nat, data: string, at: int)
    requires 0 <= at < |data| < at + 1 + |Marker(n)|
    ensures !OccursAt(data + Close(n), Close(n), at)
  {
    MarkerChars(n);
    var i := |data| - at;
    assert (data + Close(n))[at + i] == '\n' && Close(n)[i] == Marker(n)[i - 1];
    if OccursAt(data + Close(n), Close(n), at) {
      OccurrenceChar(data + Close(n), Close(n), at, i);
    }
  }

  /** The fence, letter by letter. */
  predicate ReadsAs(n: nat, data: string, fenced: string) {
    fenced == "<<<DATA-" + Decimal(n) + "\n" + data + "\nDATA-" + Decimal(n) + ">>>"
  }

  lemma {:induction false} FenceReads(n: nat, data: string)
    ensures ReadsAs(n, data, Fenced(n, data))
  {
    assert "<<<DATA-" == "<<<" + "DATA-" && "\nDATA-" == "\n" + "DATA-";
  }

  /** No closing line of the number starts before the real one. */
  lemma ClosesOnlyAtTheEnd(n: nat, data: string, at: int)
    requires !Contains(data, Marker(n)) && 0 <= at < |data|
    ensures !OccursAt(data + Close(n), Close(n), at)
  {
    if at + 1 + |Marker(n)| > |data| {
      CloseAcross(n, data, at);
    } else if OccursAt(data + Close(n), Close(n), at) {
      CloseInside(n, data, at);
    }
  }

  /** Whatever the data, reading the number off the first line and cutting at the first closing line
      of that number gives the data back. */
  lemma FenceOpensBackUp(data: string, n: nat)
    requires !Contains(data, Marker(n))
    ensures Unfence(Fenced(n, data)) == data
  {
    FirstLine(n, data);
    DecimalIsRead(n);
    var rest := data + Close(n);
    forall at | 0 <= at < |data| ensures !OccursAt(rest, Close(n), at) { ClosesOnlyAtTheEnd(n, data, at); }
    assert OccursAt(rest, Close(n), |data|);
    assert Find(rest, Close(n), 0) == |data|;
    assert rest[..|data|] == data;
  }

  /** So no two texts are fenced alike. */
  lemma FencingIsInjective(data: string, n: nat, other: string, m: nat)
    requires LeastUnused(data, n) && LeastUnused(other, m) && Fenced(n, data) == Fenced(m, other)
    ensures data == other && n == m
  {
    FenceOpensBackUp(data, n);
    FenceOpensBackUp(other, m);
    FirstLine(n, data);
    FirstLine(m, other);
    DecimalIsRead(n);
    DecimalIsRead(m);
  }
}
