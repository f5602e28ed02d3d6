/**
 * `test_regions`: what is compiled only for tests is cut out of a blanked file by counting brackets.
 */
module TestItems {
  import opened Options
  import opened RustTokens

  // -------------------------------------------------------------------------
  // Brackets
  // -------------------------------------------------------------------------

  function Step(c: char, open: char, close: char): int { if c == open then 1 else if c == close then -1 else 0 }

  /** Openings less closings between two places. */
  function Balance(s: string, i: nat, j: nat, open: char, close: char): int
    requires i <= j <= |s|
  {
    if i == j then 0 else Balance(s, i, j - 1, open, close) + Step(s[j - 1], open, close)
  }

  /** The closing bracket, from `i` on, that brings the depth to zero. */
  function CloseAt(s: string, i: nat, depth: int, open: char, close: char): (r: Option<nat>)
    ensures r.Some? ==> i <= r.value < |s|
    decreases |s| - i
  {
    if i >= |s| then None
    else if s[i] == open then CloseAt(s, i + 1, depth + 1, open, close)
    else if s[i] == close then if depth - 1 == 0 then Some(i) else CloseAt(s, i + 1, depth - 1, open, close)
    else CloseAt(s, i + 1, depth, open, close)
  }

  lemma {:induction false} BalanceFrom(s: string, i: nat, j: nat, open: char, close: char)
    requires i < j <= |s|
    ensures Balance(s, i, j, open, close) == Step(s[i], open, close) + Balance(s, i + 1, j, open, close)
  {
    if i + 1 < j { BalanceFrom(s, i, j - 1, open, close); }
  }

  /** That bracket is the first return to depth zero, and without it the depth never returns. */
  lemma {:induction false} CloseIsFirstReturn(s: string, i: nat, depth: nat, open: char, close: char)
    requires open != close && i <= |s| && depth > 0
    ensures var r := CloseAt(s, i, depth, open, close);
      var end := if r.Some? then r.value else |s|;
      (forall q | i <= q <= end :: depth + Balance(s, i, q, open, close) > 0) &&
      (r.Some? ==> s[r.value] == close && depth + Balance(s, i, r.value + 1, open, close) == 0)
    decreases |s| - i
  {
    var r := CloseAt(s, i, depth, open, close);
    if i < |s| && !(s[i] == close && depth == 1) {
      CloseIsFirstReturn(s, i + 1, depth + Step(s[i], open, close), open, close);
      var end := if r.Some? then r.value else |s|;
      forall q | i <= q <= end ensures depth + Balance(s, i, q, open, close) > 0 {
        if q > i { BalanceFrom(s, i, q, open, close); }
      }
      if r.Some? { BalanceFrom(s, i, r.value + 1, open, close); }
    }
  }

  /** The place after a bracketed stretch that opens at `i`, or the end of the text. */
  function StretchEnd(s: string, i: nat, open: char, close: char): (stop: nat)
    ensures i <= |s| ==> i <= stop <= |s|
    ensures i < |s| ==> i < stop
  {
    var r := CloseAt(s, i, 0, open, close);
    if r.Some? then r.value + 1 else |s|
  }

  /** A braced stretch ends at the first return to depth zero, or runs to the end of the text. */
  lemma StretchIsBalanced(s: string, i: nat, open: char, close: char)
    requires i < |s| && s[i] == open && open != close
    ensures var stop := StretchEnd(s, i, open, close);
      i < stop <= |s| &&
      (forall q | i < q < stop :: Balance(s, i, q, open, close) > 0) &&
      ((Balance(s, i, stop, open, close) == 0 && s[stop - 1] == close) ||
       (stop == |s| && Balance(s, i, stop, open, close) > 0))
  {
    var stop := StretchEnd(s, i, open, close);
    CloseIsFirstReturn(s, i + 1, 1, open, close);
    forall q | i < q <= stop ensures Balance(s, i, q, open, close) == 1 + Balance(s, i + 1, q, open, close) {
      BalanceFrom(s, i, q, open, close);
    }
  }

  /** The brace or semicolon of the item an attribute stands before, further attributes skipped. */
  function ItemAt(s: string, i: nat): (at: nat)
    ensures at >= i
    ensures at < |s| ==> s[at] == '{' || s[at] == ';'
    decreases |s| - i
  {
    if i >= |s| then i
    else if At(s, "#[", i) then
      var stop := StretchEnd(s, i, '[', ']');
      ItemAt(s, stop)
    else if s[i] == '{' || s[i] == ';' then i
    else ItemAt(s, i + 1)
  }

  /** An attribute starts at `i` and is closed by the bracket at `close`. */
  predicate AttributeAt(s: string, i: nat, close: nat) {
    At(s, "#[", i) && CloseAt(s, i + 1, 0, '[', ']') == Some(close)
  }

  /** An attribute starts at `j`, in no other that starts at `from` or later. */
  ghost predicate OuterAttribute(s: string, from: nat, j: nat)
    decreases j, 1
  {
    from <= j && At(s, "#[", j) && Passed(s, from, j)
  }

  /** The attributes that start before `i` are over by `i`. */
  ghost predicate Passed(s: string, from: nat, i: nat)
    decreases i, 0
  {
    forall j: nat | from <= j < i && OuterAttribute(s, from, j) :: StretchEnd(s, j, '[', ']') <= i
  }

  /** Place `q` is in an attribute that starts at `from` or later, closed or not. */
  ghost predicate InAttribute(s: string, from: nat, q: nat) {
    exists j: nat :: j <= q && OuterAttribute(s, from, j) && q < StretchEnd(s, j, '[', ']')
  }

  /** A brace or a semicolon that is in no attribute. */
  ghost predicate Mark(s: string, from: nat, q: nat) {
    from <= q < |s| && (s[q] == '{' || s[q] == ';') && !InAttribute(s, from, q)
  }

  /** Where an item is found, it is the first brace or semicolon that is in no attribute. */
  ghost predicate FirstOutside(s: string, from: nat, item: nat) {
    from <= item <= |s| && (item < |s| ==> Mark(s, from, item)) && forall q: nat | q < item :: !Mark(s, from, q)
  }

  lemma {:induction false} ItemIsFirst(s: string, from: nat, i: nat)
    requires from <= i <= |s| && Passed(s, from, i) && forall q: nat | q < i :: !Mark(s, from, q)
    ensures FirstOutside(s, from, ItemAt(s, i))
    decreases |s| - i
  {
    if i < |s| {
      if At(s, "#[", i) {
        AttributeIsPassed(s, from, i);
        ItemIsFirst(s, from, StretchEnd(s, i, '[', ']'));
      } else {
        CodeIsPassed(s, from, i);
        if s[i] != '{' && s[i] != ';' { ItemIsFirst(s, from, i + 1); }
      }
    }
  }

  lemma {:induction false} AttributeIsPassed(s: string, from: nat, i: nat)
    requires from <= i < |s| && At(s, "#[", i) && Passed(s, from, i)
    requires forall q: nat | q < i :: !Mark(s, from, q)
    ensures var next := StretchEnd(s, i, '[', ']');
      Passed(s, from, next) && forall q: nat | q < next :: !Mark(s, from, q)
  {
    var next := StretchEnd(s, i, '[', ']');
    assert OuterAttribute(s, from, i);
    forall q: nat | i <= q < next ensures InAttribute(s, from, q) {}
    forall j: nat | from <= j < next && OuterAttribute(s, from, j) ensures StretchEnd(s, j, '[', ']') <= next {
      assert Passed(s, from, j);
    }
  }

  lemma {:induction false} CodeIsPassed(s: string, from: nat, i: nat)
    requires from <= i < |s| && !At(s, "#[", i) && Passed(s, from, i)
    ensures Passed(s, from, i + 1) && !InAttribute(s, from, i)
  {
    assert !OuterAttribute(s, from, i);
  }

  /** The end of what a test attribute that ends at `end` applies to. */
  function ItemEnd(s: string, end: nat): (stop: nat)
    requires end <= |s|
    ensures end <= stop <= |s|
  {
    var item := ItemAt(s, end);
    if item >= |s| then |s| else if s[item] == ';' then item + 1 else StretchEnd(s, item, '{', '}')
  }

  /** What the scan makes of one place: go on elsewhere, give up, or a span that ends at `stop`. */
  datatype Glance = GoOn(to: nat) | GiveUp | Span(stop: nat)

  /** `isTest` says whether an attribute names a test. */
  function GlanceAt(s: string, i: nat, isTest: string -> bool): (g: Glance)
    requires i < |s|
    ensures g.GoOn? ==> i < g.to <= |s|
    ensures g.Span? ==> i < g.stop <= |s|
  {
    if !At(s, "#[", i) then GoOn(i + 1)
    else
      var close := CloseAt(s, i + 1, 0, '[', ']');
      if close.None? then GiveUp
      else
        var end := close.value + 1;
        if isTest(s[i..end]) then Span(ItemEnd(s, end)) else GoOn(end)
  }

  /** The spans from `i` on. */
  function RegionsFrom(s: string, i: nat, isTest: string -> bool): seq<(nat, nat)>
    decreases |s| - i
  {
    if i >= |s| then []
    else
      match GlanceAt(s, i, isTest)
      case GoOn(to) => RegionsFrom(s, to, isTest)
      case GiveUp => []
      case Span(stop) => [(i, stop)] + RegionsFrom(s, stop, isTest)
  }

  /** A span is a test attribute, bracket-matched, with the item it applies to. */
  predicate SpanRight(s: string, span: (nat, nat), isTest: string -> bool) {
    span.0 < span.1 <= |s| && At(s, "#[", span.0) &&
    var close := CloseAt(s, span.0 + 1, 0, '[', ']');
    close.Some? && isTest(s[span.0..close.value + 1]) && close.value < span.1 == ItemEnd(s, close.value + 1)
  }

  /** Spans in the text from `i` on, in order, apart from each other, each a test item. */
  predicate SpansApart(s: string, i: nat, r: seq<(nat, nat)>, isTest: string -> bool) {
    (forall k | 0 <= k < |r| :: i <= r[k].0 && SpanRight(s, r[k], isTest)) &&
    (forall k, l | 0 <= k < l < |r| :: r[k].1 <= r[l].0)
  }

  lemma OneSpanMore(s: string, i: nat, stop: nat, rest: seq<(nat, nat)>, isTest: string -> bool)
    requires SpanRight(s, (i, stop), isTest) && SpansApart(s, stop, rest, isTest)
    ensures SpansApart(s, i, [(i, stop)] + rest, isTest)
  {
    var r := [(i, stop)] + rest;
    assert forall k | 1 <= k < |r| :: r[k] == rest[k - 1];
  }

  lemma {:induction false} RegionsAreApart(s: string, i: nat, isTest: string -> bool)
    ensures SpansApart(s, i, RegionsFrom(s, i, isTest), isTest)
    decreases |s| - i
  {
    if i < |s| {
      match GlanceAt(s, i, isTest)
      case GoOn(to) => RegionsAreApart(s, to, isTest);
      case GiveUp =>
      case Span(stop) =>
        RegionsAreApart(s, stop, isTest);
        OneSpanMore(s, i, stop, RegionsFrom(s, stop, isTest), isTest);
    }
  }

  /** A closed attribute that names a test. */
  predicate TestAttribute(s: string, i: nat, isTest: string -> bool) {
    var close := CloseAt(s, i + 1, 0, '[', ']');
    At(s, "#[", i) && close.Some? && isTest(s[i..close.value + 1])
  }

  /** Place `i` is past the start of an attribute that names no test, and not past its end; and that
      attribute is in no span. */
  ghost predicate SteppedOver(s: string, from: nat, r: seq<(nat, nat)>, i: nat, isTest: string -> bool) {
    exists j: nat, close: nat :: from <= j < i <= close && AttributeAt(s, j, close) &&
      !TestAttribute(s, j, isTest) && !InSpan(r, j)
  }

  /** An attribute before place `i`, in no span, is never closed. */
  ghost predicate AfterUnclosed(s: string, from: nat, r: seq<(nat, nat)>, i: nat) {
    exists j: nat :: from <= j < i && At(s, "#[", j) && CloseAt(s, j + 1, 0, '[', ']').None? && !InSpan(r, j)
  }

  /** No test attribute is missed: each is in a span, inside an attribute stepped over, or after one
      that is never closed. */
  ghost predicate AllFound(s: string, from: nat, r: seq<(nat, nat)>, isTest: string -> bool) {
    forall i: nat | from <= i && TestAttribute(s, i, isTest) ::
      InSpan(r, i) || SteppedOver(s, from, r, i, isTest) || AfterUnclosed(s, from, r, i)
  }

  lemma {:induction false} NoTestIsMissed(s: string, i: nat, isTest: string -> bool)
    ensures AllFound(s, i, RegionsFrom(s, i, isTest), isTest)
    decreases |s| - i
  {
    if i < |s| {
      match GlanceAt(s, i, isTest)
      case GiveUp =>
        forall q: nat | i <= q && TestAttribute(s, q, isTest) ensures AfterUnclosed(s, i, [], q) {
          assert i < q && !InSpan([], i);
        }
      case GoOn(to) =>
        var r := RegionsFrom(s, to, isTest);
        NoTestIsMissed(s, to, isTest);
        RegionsAreApart(s, to, isTest);
        assert !InSpan(r, i);
        FoundFromEarlier(s, i, to, r, isTest);
        forall q: nat | i <= q < to && TestAttribute(s, q, isTest) ensures SteppedOver(s, i, r, q, isTest) {
          assert AttributeAt(s, i, to - 1);
        }
      case Span(stop) =>
        NoTestIsMissed(s, stop, isTest);
        FoundOneMore(s, i, stop, RegionsFrom(s, stop, isTest), isTest);
    }
  }

  /** And nothing else is taken: no span starts inside an attribute stepped over, or after one that is
      never closed. */
  ghost predicate OnlyFound(s: string, from: nat, r: seq<(nat, nat)>, isTest: string -> bool) {
    forall k | 0 <= k < |r| :: !SteppedOver(s, from, r, r[k].0, isTest) && !AfterUnclosed(s, from, r, r[k].0)
  }

  /** With fewer brackets open, the last of them closes no later. */
  lemma {:induction false} FewerCloseSooner(s: string, i: nat, depth: nat, fewer: nat)
    requires 0 < fewer < depth && CloseAt(s, i, depth, '[', ']').Some?
    ensures CloseAt(s, i, fewer, '[', ']').Some?
    ensures CloseAt(s, i, fewer, '[', ']').value < CloseAt(s, i, depth, '[', ']').value
    decreases |s| - i
  {
    if s[i] == '[' {
      FewerCloseSooner(s, i + 1, depth + 1, fewer + 1);
    } else if s[i] == ']' {
      if fewer > 1 { FewerCloseSooner(s, i + 1, depth - 1, fewer - 1); }
    } else {
      FewerCloseSooner(s, i + 1, depth, fewer);
    }
  }

  /** At a place before the bracket that closes, some are open. */
  lemma {:induction false} StillOpen(s: string, i: nat, depth: nat, p: nat) returns (d: nat)
    requires depth > 0 && i <= p && CloseAt(s, i, depth, '[', ']').Some?
    requires p <= CloseAt(s, i, depth, '[', ']').value
    ensures d > 0 && CloseAt(s, p, d, '[', ']') == CloseAt(s, i, depth, '[', ']')
    decreases p - i
  {
    if p == i {
      d := depth;
    } else {
      d := StillOpen(s, i + 1, depth + Step(s[i], '[', ']'), p);
    }
  }

  /** An attribute inside another is closed, and before the other is. */
  lemma {:induction false} InnerClosesFirst(s: string, i: nat, close: nat, j: nat)
    requires AttributeAt(s, i, close) && At(s, "#[", j) && i < j <= close
    ensures CloseAt(s, j + 1, 0, '[', ']').Some? && CloseAt(s, j + 1, 0, '[', ']').value < close
  {
    AtTwo(s, "#[", i);
    AtTwo(s, "#[", j);
    assert CloseAt(s, i + 2, 1, '[', ']') == Some(close);
    var d := StillOpen(s, i + 2, 1, j + 1) by { NotAtTheBracket(s, i + 2, 1, j); }
    FewerCloseSooner(s, j + 2, d + 1, 1);
  }

  lemma {:induction false} NotAtTheBracket(s: string, i: nat, depth: nat, j: nat)
    requires depth > 0 && CloseAt(s, i, depth, '[', ']').Some? && j < |s| && s[j] == '#'
    requires i <= j + 1 && j <= CloseAt(s, i, depth, '[', ']').value
    ensures j + 1 <= CloseAt(s, i, depth, '[', ']').value
  {
    CloseIsFirstReturn(s, i, depth, '[', ']');
  }

  lemma {:induction false} NothingElseIsTaken(s: string, i: nat, isTest: string -> bool)
    ensures OnlyFound(s, i, RegionsFrom(s, i, isTest), isTest)
    decreases |s| - i
  {
    if i < |s| {
      match GlanceAt(s, i, isTest)
      case GiveUp =>
      case GoOn(to) =>
        NothingElseIsTaken(s, to, isTest);
        RegionsAreApart(s, to, isTest);
        OnlyFoundFromEarlier(s, i, to, RegionsFrom(s, to, isTest), isTest);
      case Span(stop) =>
        NothingElseIsTaken(s, stop, isTest);
        RegionsAreApart(s, stop, isTest);
        OnlyFoundAfterSpan(s, i, stop, RegionsFrom(s, stop, isTest), isTest);
    }
  }

  lemma {:induction false} OnlyFoundFromEarlier(s: string, i: nat, to: nat, r: seq<(nat, nat)>, isTest: string -> bool)
    requires i < |s| && GlanceAt(s, i, isTest) == GoOn(to)
    requires OnlyFound(s, to, r, isTest) && SpansApart(s, to, r, isTest)
    ensures OnlyFound(s, i, r, isTest)
  {
    forall k | 0 <= k < |r| ensures !SteppedOver(s, i, r, r[k].0, isTest) && !AfterUnclosed(s, i, r, r[k].0) {
      if SteppedOver(s, i, r, r[k].0, isTest) { SteppedOverLater(s, i, to, r, r[k].0, isTest); }
      if AfterUnclosed(s, i, r, r[k].0) { UnclosedLater(s, i, to, r, r[k].0, isTest); }
    }
  }

  lemma {:induction false} SteppedOverLater(s: string, i: nat, to: nat, r: seq<(nat, nat)>, p: nat,
                                            isTest: string -> bool)
    requires i < |s| && GlanceAt(s, i, isTest) == GoOn(to) && to <= p && SteppedOver(s, i, r, p, isTest)
    ensures SteppedOver(s, to, r, p, isTest)
  {
    var j: nat, close: nat :|
      i <= j < p <= close && AttributeAt(s, j, close) && !TestAttribute(s, j, isTest) && !InSpan(r, j);
    if j < to { EarlierIsOver(s, i, to, j, isTest); }
  }

  lemma {:induction false} UnclosedLater(s: string, i: nat, to: nat, r: seq<(nat, nat)>, p: nat,
                                         isTest: string -> bool)
    requires i < |s| && GlanceAt(s, i, isTest) == GoOn(to) && to <= p && AfterUnclosed(s, i, r, p)
    ensures AfterUnclosed(s, to, r, p)
  {
    var j: nat :| i <= j < p && At(s, "#[", j) && CloseAt(s, j + 1, 0, '[', ']').None? && !InSpan(r, j);
    if j < to { EarlierIsOver(s, i, to, j, isTest); }
  }

  /** What starts in an attribute that was stepped over ends in it. */
  lemma {:induction false} EarlierIsOver(s: string, i: nat, to: nat, j: nat, isTest: string -> bool)
    requires i < |s| && GlanceAt(s, i, isTest) == GoOn(to) && i <= j < to && At(s, "#[", j)
    ensures CloseAt(s, j + 1, 0, '[', ']').Some? && CloseAt(s, j + 1, 0, '[', ']').value < to
  {
    if j > i { InnerClosesFirst(s, i, to - 1, j); }
  }

  lemma {:induction false} OnlyFoundAfterSpan(s: string, i: nat, stop: nat, rest: seq<(nat, nat)>,
                                              isTest: string -> bool)
    requires i < stop && OnlyFound(s, stop, rest, isTest) && SpansApart(s, stop, rest, isTest)
    ensures OnlyFound(s, i, [(i, stop)] + rest, isTest)
  {
    var r := [(i, stop)] + rest;
    forall q: nat ensures InSpan(r, q) <==> i <= q < stop || InSpan(rest, q) { InSpanOrLater(i, stop, rest, q); }
    forall k | 0 <= k < |r| ensures !SteppedOver(s, i, r, r[k].0, isTest) && !AfterUnclosed(s, i, r, r[k].0) {
      if k > 0 {
        assert r[k] == rest[k - 1];
        assert !SteppedOver(s, stop, rest, r[k].0, isTest) && !AfterUnclosed(s, stop, rest, r[k].0);
      }
    }
  }

  lemma FoundFromEarlier(s: string, i: nat, to: nat, r: seq<(nat, nat)>, isTest: string -> bool)
    requires i <= to && AllFound(s, to, r, isTest)
    ensures forall q: nat | to <= q && TestAttribute(s, q, isTest) ::
      InSpan(r, q) || SteppedOver(s, i, r, q, isTest) || AfterUnclosed(s, i, r, q)
  {
    forall q: nat | to <= q && SteppedOver(s, to, r, q, isTest) ensures SteppedOver(s, i, r, q, isTest) {}
    forall q: nat | to <= q && AfterUnclosed(s, to, r, q) ensures AfterUnclosed(s, i, r, q) {}
  }

  lemma FoundOneMore(s: string, i: nat, stop: nat, rest: seq<(nat, nat)>, isTest: string -> bool)
    requires i < stop && AllFound(s, stop, rest, isTest)
    ensures AllFound(s, i, [(i, stop)] + rest, isTest)
  {
    var r := [(i, stop)] + rest;
    forall q: nat ensures InSpan(r, q) <==> i <= q < stop || InSpan(rest, q) {
      InSpanOrLater(i, stop, rest, q);
    }
    forall q: nat | stop <= q && SteppedOver(s, stop, rest, q, isTest) ensures SteppedOver(s, i, r, q, isTest) {}
    forall q: nat | stop <= q && AfterUnclosed(s, stop, rest, q) ensures AfterUnclosed(s, i, r, q) {}
  }

  lemma InSpanOrLater(i: nat, stop: nat, rest: seq<(nat, nat)>, q: nat)
    ensures InSpan([(i, stop)] + rest, q) <==> i <= q < stop || InSpan(rest, q)
  {
    var r := [(i, stop)] + rest;
    assert r[0] == (i, stop);
    assert forall k | 1 <= k < |r| :: r[k] == rest[k - 1];
    if k :| 0 <= k < |rest| && rest[k].0 <= q < rest[k].1 { assert r[k + 1] == rest[k]; }
  }

  /** Parentheses and square brackets opened less those closed, from `from` on and in no attribute. */
  ghost function Nesting(s: string, from: nat, q: nat): int
    requires from <= q <= |s|
  {
    if q == from then 0
    else
      Nesting(s, from, q - 1) +
      if InAttribute(s, from, q - 1) then 0 else Step(s[q - 1], '(', ')') + Step(s[q - 1], '[', ']')
  }

  /** A brace or semicolon of the item itself: in no attribute and in no bracket. */
  ghost predicate ItemMark(s: string, from: nat, q: nat) { Mark(s, from, q) && Nesting(s, from, q) <= 0 }

  /** The item's body opens at `item`, or it ends there without one; the end of the text says that it
      does neither. */
  ghost predicate ItemRight(s: string, from: nat, item: nat) {
    from <= item <= |s| && (item < |s| ==> ItemMark(s, from, item)) && forall q: nat | q < item :: !ItemMark(s, from, q)
  }

  /** No semicolon or brace stands in brackets before the item's own. */
  ghost predicate PlainHead(s: string, from: nat, item: nat) { forall q: nat | q < item :: !Mark(s, from, q) }

  /** Every item has one such place. */
  lemma {:induction false} ItemIsSomewhere(s: string, from: nat, i: nat) returns (item: nat)
    requires from <= i <= |s| && forall q: nat | q < i :: !ItemMark(s, from, q)
    ensures ItemRight(s, from, item)
    decreases |s| - i
  {
    if i == |s| || ItemMark(s, from, i) {
      item := i;
    } else {
      item := ItemIsSomewhere(s, from, i + 1);
    }
  }

  /** The scan finds it exactly when the head of the item is plain. */
  lemma {:induction false} ItemIsFoundIfHeadIsPlain(s: string, from: nat, item: nat)
    requires ItemRight(s, from, item)
    ensures ItemAt(s, from) == item <==> PlainHead(s, from, item)
  {
    ItemIsFirst(s, from, from);
    var found := ItemAt(s, from);
    assert found < |s| ==> Mark(s, from, found);
  }

  /** Where an item whose body or end is at `item` ends: after its semicolon, at the first return of its
      braces to depth zero, or with the text. */
  predicate ItemEnds(s: string, item: nat, stop: nat) {
    if item >= |s| then stop == |s|
    else if s[item] == ';' then stop == item + 1
    else
      item < stop <= |s| && (forall q | item < q < stop :: Balance(s, item, q, '{', '}') > 0) &&
      (Balance(s, item, stop, '{', '}') == 0 || (stop == |s| && Balance(s, item, stop, '{', '}') > 0))
  }

  /** A test span takes in the attribute's whole item and nothing after it, if the item's head is plain. */
  ghost predicate EndsWithItem(s: string, span: (nat, nat)) {
    forall item: nat :: ItemRight(s, AttributeEnd(s, span.0), item) && PlainHead(s, AttributeEnd(s, span.0), item) ==>
      ItemEnds(s, item, span.1)
  }

  /** The place after the attribute at `i`. */
  function AttributeEnd(s: string, i: nat): nat { StretchEnd(s, i + 1, '[', ']') }

  lemma {:induction false} SpanEndsWithItem(s: string, span: (nat, nat), isTest: string -> bool)
    requires SpanRight(s, span, isTest)
    ensures EndsWithItem(s, span)
  {
    var end := AttributeEnd(s, span.0);
    forall item: nat | ItemRight(s, end, item) && PlainHead(s, end, item) ensures ItemEnds(s, item, span.1) {
      ItemIsFoundIfHeadIsPlain(s, end, item);
      if item < |s| && s[item] == '{' { StretchIsBalanced(s, item, '{', '}'); }
    }
  }

  /** An array type in the head of a function: the span ends at the semicolon in it, and the body that
      follows is left for production code. */
  lemma {:induction false} BodyIsLeftOut(isTest: string -> bool)
    requires isTest("#[t]")
    ensures var s := "#[t]f[;]{}";
      |s| == 10 && RegionsFrom(s, 0, isTest) == [(0, 7)] &&
      ItemRight(s, AttributeEnd(s, 0), 8) && !PlainHead(s, AttributeEnd(s, 0), 8) && ItemEnds(s, 8, 10)
  {
    var s := "#[t]f[;]{}";
    ScanOfBody(s, isTest);
    ItemOfBody(s);
    assert Balance(s, 8, 9, '{', '}') == 1 && Balance(s, 8, 10, '{', '}') == 0;
  }

  lemma {:induction false} NestingAfter(s: string, from: nat, q: nat)
    requires from <= q < |s| && !InAttribute(s, from, q)
    ensures Nesting(s, from, from) == 0
    ensures Nesting(s, from, q + 1) == Nesting(s, from, q) + Step(s[q], '(', ')') + Step(s[q], '[', ']')
  {
  }

  lemma {:induction false} ItemOfBody(s: string)
    requires s == "#[t]f[;]{}"
    ensures ItemRight(s, 4, 8) && !PlainHead(s, 4, 8)
  {
    forall j: nat | 4 <= j ensures !At(s, "#[", j) { AtTwo(s, "#[", j); }
    forall q: nat ensures !InAttribute(s, 4, q) {}
    NestingAfter(s, 4, 4);
    NestingAfter(s, 4, 5);
    NestingAfter(s, 4, 6);
    NestingAfter(s, 4, 7);
    assert Mark(s, 4, 6) && Mark(s, 4, 8);
  }

  lemma {:induction false} ScanOfBody(s: string, isTest: string -> bool)
    requires s == "#[t]f[;]{}" && isTest("#[t]")
    ensures AttributeEnd(s, 0) == 4 && RegionsFrom(s, 0, isTest) == [(0, 7)]
  {
    assert s[0..2] == "#[" && s[0..4] == "#[t]";
    assert CloseAt(s, 1, 0, '[', ']') == CloseAt(s, 2, 1, '[', ']') == CloseAt(s, 3, 1, '[', ']') == Some(3);
    AtTwo(s, "#[", 4);
    AtTwo(s, "#[", 5);
    AtTwo(s, "#[", 6);
    assert ItemAt(s, 4) == ItemAt(s, 5) == ItemAt(s, 6) == 6;
    assert GlanceAt(s, 0, isTest) == Span(7);
    NothingAfter(s, isTest);
  }

  lemma {:induction false} NothingAfter(s: string, isTest: string -> bool)
    requires s == "#[t]f[;]{}"
    ensures RegionsFrom(s, 7, isTest) == []
  {
    forall j: nat | 7 <= j ensures !At(s, "#[", j) { AtTwo(s, "#[", j); }
    assert RegionsFrom(s, 10, isTest) == [];
    assert RegionsFrom(s, 9, isTest) == [] && RegionsFrom(s, 8, isTest) == [];
  }

  /** A test module's span ends exactly where its braces close. */
  lemma BracedSpansEndAtDepthZero(s: string, span: (nat, nat), close: nat, item: nat, isTest: string -> bool)
    requires SpanRight(s, span, isTest) && CloseAt(s, span.0 + 1, 0, '[', ']') == Some(close)
    requires item == ItemAt(s, close + 1) < |s| && s[item] == '{'
    ensures item < span.1 &&
      (forall q | item < q < span.1 :: Balance(s, item, q, '{', '}') > 0) &&
      (Balance(s, item, span.1, '{', '}') == 0 || (span.1 == |s| && Balance(s, item, span.1, '{', '}') > 0))
  {
    SpanEndIsStretch(s, span, close, item, isTest);
    StretchIsBalanced(s, item, '{', '}');
  }

  lemma SpanEndIsStretch(s: string, span: (nat, nat), close: nat, item: nat, isTest: string -> bool)
    requires SpanRight(s, span, isTest) && CloseAt(s, span.0 + 1, 0, '[', ']') == Some(close)
    requires item == ItemAt(s, close + 1) < |s| && s[item] == '{'
    ensures span.1 == StretchEnd(s, item, '{', '}')
  {
  }

  /** Bracket matching, as the loops do it: the closing bracket, or the end of the text. */
  method MatchBracket(s: string, from: nat, open: char, close: char) returns (cursor: nat)
    requires from <= |s|
    ensures cursor <= |s| && CloseAt(s, from, 0, open, close) == if cursor < |s| then Some(cursor) else None
  {
    var depth := 0;
    cursor := from;
    while cursor < |s|
      invariant cursor <= |s| && CloseAt(s, cursor, depth, open, close) == CloseAt(s, from, 0, open, close)
    {
      if s[cursor] == open {
        depth := depth + 1;
      } else if s[cursor] == close {
        depth := depth - 1;
        if depth == 0 {
          return;
        }
      }
      cursor := cursor + 1;
    }
  }

  method FindItem(s: string, from: nat) returns (cursor: nat)
    requires from <= |s|
    ensures cursor == ItemAt(s, from) && FirstOutside(s, from, cursor)
  {
    ItemIsFirst(s, from, from);
    cursor := from;
    while cursor < |s|
      invariant cursor <= |s| && ItemAt(s, cursor) == ItemAt(s, from)
    {
      if At(s, "#[", cursor) {
        var close := MatchBracket(s, cursor, '[', ']');
        cursor := if close < |s| then close + 1 else close;
        continue;
      }
      if s[cursor] == '{' || s[cursor] == ';' {
        return;
      }
      cursor := cursor + 1;
    }
  }

  method EndOfItem(s: string, attributeEnd: nat) returns (stop: nat)
    requires attributeEnd <= |s|
    ensures stop == ItemEnd(s, attributeEnd)
  {
    var cursor := FindItem(s, attributeEnd);
    if cursor >= |s| {
      return |s|;
    }
    if s[cursor] == ';' {
      return cursor + 1;
    }
    cursor := MatchBracket(s, cursor, '{', '}');
    stop := if cursor < |s| then cursor + 1 else cursor;
  }

  /** One turn of the scan. */
  method LookAt(clean: string, index: nat, isTest: string -> bool) returns (glance: Glance)
    requires index < |clean|
    ensures glance == GlanceAt(clean, index, isTest)
  {
    if !At(clean, "#[", index) {
      return GoOn(index + 1);
    }
    var close := MatchBracket(clean, index + 1, '[', ']');
    if close >= |clean| {
      return GiveUp;
    }
    var attributeEnd := close + 1;
    if !isTest(clean[index..attributeEnd]) {
      return GoOn(attributeEnd);
    }
    var stop := EndOfItem(clean, attributeEnd);
    glance := Span(stop);
  }

  method TestRegions(clean: string, isTest: string -> bool) returns (spans: seq<(nat, nat)>)
    ensures spans == RegionsFrom(clean, 0, isTest)
    ensures SpansApart(clean, 0, spans, isTest)
    ensures AllFound(clean, 0, spans, isTest) && OnlyFound(clean, 0, spans, isTest)
    ensures forall k | 0 <= k < |spans| :: EndsWithItem(clean, spans[k])
  {
    spans := [];
    var index := 0;
    while index < |clean|
      invariant 0 <= index <= |clean| && spans + RegionsFrom(clean, index, isTest) == RegionsFrom(clean, 0, isTest)
    {
      var glance := LookAt(clean, index, isTest);
      match glance
      case GoOn(to) => index := to;
      case GiveUp => break;
      case Span(stop) =>
        ghost var rest := RegionsFrom(clean, stop, isTest);
        assert spans + ([(index, stop)] + rest) == (spans + [(index, stop)]) + rest;
        spans := spans + [(index, stop)];
        index := stop;
    }
    assert spans == RegionsFrom(clean, 0, isTest);
    RegionsAreApart(clean, 0, isTest);
    NoTestIsMissed(clean, 0, isTest);
    NothingElseIsTaken(clean, 0, isTest);
    forall k | 0 <= k < |spans| ensures EndsWithItem(clean, spans[k]) { SpanEndsWithItem(clean, spans[k], isTest); }
  }
}
