/**
 * `candidates`: a test case is proposed for removal if some other case, no more costly, runs all
 * that it runs. Each proposal speaks of one removal; here the proposals are taken together.
 */
module CoverageSets {
  import opened Options

  type CaseId = string
  type Region = string

  datatype Row = Row(ignored: string, layer: string, crate: string, costRank: int, refs: string, duration: Option<real>)

  datatype Kind = Subset | NoOwnCrateCoverage

  datatype Finding = Finding(case_: CaseId, kind: Kind, subsumedBy: CaseId, regions: nat)

  /** The cases that are judged, and what each executed of the code under test. */
  datatype Suite = Suite(cases: map<CaseId, Row>, sets: map<CaseId, set<Region>>)

  const NOT_JUDGED := {"measurement"}

  // -------------------------------------------------------------------------
  // Orders
  // -------------------------------------------------------------------------

  /** Strings by code point, first difference first. */
  predicate TextBefore(a: string, b: string) {
    b != "" && (a == "" || a[0] < b[0] || (a[0] == b[0] && TextBefore(a[1..], b[1..])))
  }

  lemma {:induction false} TextOrder(a: string, b: string)
    ensures !(TextBefore(a, b) && TextBefore(b, a))
    ensures a != b ==> TextBefore(a, b) || TextBefore(b, a)
    ensures a == b ==> !TextBefore(a, b)
  {
    if a != "" && b != "" && a[0] == b[0] {
      TextOrder(a[1..], b[1..]);
      assert a == [a[0]] + a[1..] && b == [b[0]] + b[1..];
    }
  }

  lemma {:induction false} TextOrderTransitive(a: string, b: string, c: string)
    requires TextBefore(a, b) && TextBefore(b, c)
    ensures TextBefore(a, c)
  {
    if a != "" && a[0] == b[0] && b[0] == c[0] { TextOrderTransitive(a[1..], b[1..], c[1..]); }
  }

  /** The parts of `text` between separators, as `split` gives them. */
  function Split(text: string, separator: char): seq<string> {
    if text == "" then [""]
    else
      var rest := Split(text[1..], separator);
      if text[0] == separator then [""] + rest else [[text[0]] + rest[0]] + rest[1..]
  }

  predicate CitesSpec(row: Row) { exists ref | ref in Split(row.refs, ';') :: ref != "" && '/' in ref }

  /** Which of two cases to keep: the lower cost rank decides, between equals a citation of the
      specification does, and last the identifier. */
  predicate KeeperBefore(x: Suite, a: CaseId, b: CaseId)
    requires a in x.cases && b in x.cases
  {
    var p, q := x.cases[a], x.cases[b];
    p.costRank < q.costRank ||
    (p.costRank == q.costRank &&
     ((CitesSpec(p) && !CitesSpec(q)) || (CitesSpec(p) == CitesSpec(q) && TextBefore(a, b))))
  }

  lemma KeeperOrder(x: Suite, a: CaseId, b: CaseId)
    requires a in x.cases && b in x.cases
    ensures !KeeperBefore(x, a, a)
    ensures !(KeeperBefore(x, a, b) && KeeperBefore(x, b, a))
    ensures a != b ==> KeeperBefore(x, a, b) || KeeperBefore(x, b, a)
  {
    TextOrder(a, b);
    TextOrder(a, a);
  }

  lemma KeeperOrderTransitive(x: Suite, a: CaseId, b: CaseId, c: CaseId)
    requires a in x.cases && b in x.cases && c in x.cases
    requires KeeperBefore(x, a, b) && KeeperBefore(x, b, c)
    ensures KeeperBefore(x, a, c)
  {
    if TextBefore(a, b) && TextBefore(b, c) { TextOrderTransitive(a, b, c); }
  }

  // -------------------------------------------------------------------------
  // The proposals
  // -------------------------------------------------------------------------

  predicate Judged(row: Row) { row.ignored != "true" && row.layer !in NOT_JUDGED }

  predicate SuiteOk(x: Suite) { x.sets.Keys <= x.cases.Keys }

  function Own(row: Row): string { "crates/" + row.crate + "/" }

  predicate CoversOwnCrate(x: Suite, c: CaseId)
    requires SuiteOk(x) && c in x.sets
  {
    exists region | region in x.sets[c] :: Own(x.cases[c]) <= region
  }

  /** `other` costs no more and runs everything `c` does; of two equal sets only one goes. */
  predicate Subsumes(x: Suite, other: CaseId, c: CaseId)
    requires SuiteOk(x) && c in x.sets && other in x.sets
  {
    other != c && x.cases[other].costRank <= x.cases[c].costRank && x.sets[c] <= x.sets[other] &&
    !(x.sets[c] == x.sets[other] && KeeperBefore(x, c, other))
  }

  function Subsuming(x: Suite, ids: seq<CaseId>, c: CaseId): (others: seq<CaseId>)
    requires SuiteOk(x) && c in x.sets && forall id | id in ids :: id in x.sets
    ensures forall other :: other in others <==> other in ids && Subsumes(x, other, c)
  {
    if ids == [] then []
    else (if Subsumes(x, ids[0], c) then [ids[0]] else []) + Subsuming(x, ids[1..], c)
  }

  /** The first in keeper order. */
  function First(x: Suite, ids: seq<CaseId>): (best: CaseId)
    requires ids != [] && forall id | id in ids :: id in x.cases
    ensures best in ids && forall id | id in ids :: !KeeperBefore(x, id, best)
  {
    if |ids| == 1 then KeeperOrder(x, ids[0], ids[0]); ids[0]
    else
      var rest := First(x, ids[1..]);
      KeeperOrder(x, ids[0], rest);
      var best := if KeeperBefore(x, rest, ids[0]) then rest else ids[0];
      assert forall id | id in ids :: !KeeperBefore(x, id, best) by {
        forall id | id in ids ensures !KeeperBefore(x, id, best) {
          KeeperOrder(x, id, best);
          if id != ids[0] && id != rest && KeeperBefore(x, id, ids[0]) && KeeperBefore(x, ids[0], rest) {
            KeeperOrderTransitive(x, id, ids[0], rest);
          }
        }
      }
      best
  }

  /** What is found out about one case. */
  function FindingOf(x: Suite, ids: seq<CaseId>, c: CaseId): Option<Finding>
    requires SuiteOk(x) && c in x.sets && forall id | id in ids :: id in x.sets
  {
    if !CoversOwnCrate(x, c) then Some(Finding(c, NoOwnCrateCoverage, "", |x.sets[c]|))
    else
      var others := Subsuming(x, ids, c);
      if others == [] then None else Some(Finding(c, Subset, First(x, others), |x.sets[c]|))
  }

  // -------------------------------------------------------------------------
  // Taken together
  // -------------------------------------------------------------------------

  /** Case `c` is proposed as a subset of another. */
  ghost predicate Goes(x: Suite, c: CaseId)
    requires SuiteOk(x)
  {
    c in x.sets && CoversOwnCrate(x, c) && exists other :: other in x.sets && Subsumes(x, other, c)
  }

  ghost predicate NoOwn(x: Suite, c: CaseId)
    requires SuiteOk(x)
  {
    c in x.sets && !CoversOwnCrate(x, c)
  }

  /** Everything the cases in `kept` execute. */
  ghost function Covered(x: Suite, kept: set<CaseId>): set<Region> {
    set c, r | c in kept && c in x.sets && r in x.sets[c] :: r
  }

  ghost function Earlier(x: Suite, c: CaseId): set<CaseId>
    requires SuiteOk(x) && c in x.sets
  {
    set id | id in x.sets && KeeperBefore(x, id, c)
  }

  /** From a case to one that subsumes it: the set grows, or stays and the case comes earlier. */
  lemma SubsumingComesEarlier(x: Suite, other: CaseId, c: CaseId)
    requires SuiteOk(x) && c in x.sets && other in x.sets && Subsumes(x, other, c)
    ensures x.sets[c] <= x.sets[other]
    ensures x.sets[c] != x.sets[other] ==> |x.sets[c]| < |x.sets[other]|
    ensures x.sets[c] == x.sets[other] ==> Earlier(x, other) < Earlier(x, c)
  {
    if x.sets[c] == x.sets[other] {
      KeeperOrder(x, c, other);
      KeeperOrder(x, other, other);
      forall id | id in Earlier(x, other) ensures id in Earlier(x, c) {
        KeeperOrderTransitive(x, id, other, c);
      }
      assert other in Earlier(x, c) && other !in Earlier(x, other);
    } else {
      Smaller(x.sets[c], x.sets[other]);
    }
  }

  lemma Smaller<T>(a: set<T>, b: set<T>)
    requires a < b
    ensures |a| < |b|
  {
    assert b == a + (b - a);
    var e :| e in b - a;
  }

  lemma AtMost<T>(a: set<T>, b: set<T>)
    requires a <= b
    ensures |a| <= |b|
  {
    if a != b { Smaller(a, b); }
  }

  /** Following `subsumed_by` from any case ends at one that is not itself proposed as a subset,
      costs no more and runs everything the first did. */
  lemma {:induction false} SubsumedByEnds(x: Suite, subsumedBy: map<CaseId, CaseId>, c: CaseId)
    returns (chain: seq<CaseId>)
    requires SuiteOk(x) && c in x.sets
    requires forall d | d in x.sets && Goes(x, d) ::
      d in subsumedBy && subsumedBy[d] in x.sets && Subsumes(x, subsumedBy[d], d)
    ensures chain != [] && chain[0] == c
    ensures forall i | 0 <= i < |chain| - 1 :: Goes(x, chain[i]) && chain[i + 1] == subsumedBy[chain[i]]
    ensures var k := chain[|chain| - 1];
      k in x.sets && !Goes(x, k) && x.sets[c] <= x.sets[k] && x.cases[k].costRank <= x.cases[c].costRank
    decreases |Covered(x, x.sets.Keys)| - |x.sets[c]|, Earlier(x, c)
  {
    if Goes(x, c) {
      var other := subsumedBy[c];
      SubsumingComesEarlier(x, other, c);
      assert x.sets[other] <= Covered(x, x.sets.Keys);
      AtMost(x.sets[other], Covered(x, x.sets.Keys));
      var rest := SubsumedByEnds(x, subsumedBy, other);
      chain := [c] + rest;
    } else {
      chain := [c];
    }
  }

  ghost function SubsumedBy(x: Suite): (m: map<CaseId, CaseId>)
    requires SuiteOk(x)
    ensures forall d | d in x.sets && Goes(x, d) :: d in m && m[d] in x.sets && Subsumes(x, m[d], d)
  {
    map d | d in x.sets && Goes(x, d) :: var other :| other in x.sets && Subsumes(x, other, d); other
  }

  lemma SomebodyStillRuns(x: Suite, goes: set<CaseId>, c: CaseId)
    requires SuiteOk(x) && c in x.sets && goes == set d | d in x.sets && Goes(x, d)
    ensures exists k :: k in x.sets.Keys - goes && x.sets[c] <= x.sets[k]
  {
    var chain := SubsumedByEnds(x, SubsumedBy(x), c);
    assert chain[|chain| - 1] in x.sets.Keys - goes;
  }

  /** The `subset` proposals are sound together: with every one of those cases removed at once, the
      rest still executes all that was executed. */
  lemma RemovingSubsetsLosesNothing(x: Suite, goes: set<CaseId>)
    requires SuiteOk(x) && goes == set c | c in x.sets && Goes(x, c)
    ensures Covered(x, x.sets.Keys - goes) == Covered(x, x.sets.Keys)
  {
    forall r | r in Covered(x, x.sets.Keys) ensures r in Covered(x, x.sets.Keys - goes) {
      var c :| c in x.sets && r in x.sets[c];
      SomebodyStillRuns(x, goes, c);
      var k :| k in x.sets.Keys - goes && x.sets[c] <= x.sets[k];
      assert r in x.sets[k];
    }
  }

  /** Removing the cases with no coverage of their own crate as well loses nothing exactly when the
      cases reported not at all still run what those cases ran. */
  lemma RemovingEverythingReported(x: Suite, goes: set<CaseId>, noOwn: set<CaseId>)
    requires SuiteOk(x)
    requires goes == (set c | c in x.sets && Goes(x, c)) && noOwn == (set c | c in x.sets && NoOwn(x, c))
    ensures Covered(x, x.sets.Keys - goes - noOwn) == Covered(x, x.sets.Keys)
       <==> forall c | c in noOwn :: x.sets[c] <= Covered(x, x.sets.Keys - goes - noOwn)
  {
    var kept := x.sets.Keys - goes - noOwn;
    if forall c | c in noOwn :: x.sets[c] <= Covered(x, kept) {
      RemovingSubsetsLosesNothing(x, goes);
      forall r | r in Covered(x, x.sets.Keys) ensures r in Covered(x, kept) {
        var k :| k in x.sets.Keys - goes && r in x.sets[k];
        if k in noOwn { assert x.sets[k] <= Covered(x, kept); } else { assert k in kept; }
      }
    }
    if Covered(x, kept) == Covered(x, x.sets.Keys) {
      forall c | c in noOwn ensures x.sets[c] <= Covered(x, kept) {
        forall r | r in x.sets[c] ensures r in Covered(x, kept) { assert r in Covered(x, x.sets.Keys); }
      }
    }
  }

  /** And it can lose something: a case subsumed by one of another crate, which itself covers
      nothing of its own. */
  lemma RemovingEverythingCanLose() returns (x: Suite)
    ensures SuiteOk(x) && (forall c | c in x.cases :: Judged(x.cases[c]))
    ensures Covered(x, x.sets.Keys) == {"crates/a/f.rs:1:1"}
    ensures forall c | c in x.sets :: Goes(x, c) || NoOwn(x, c)
  {
    var region := "crates/a/f.rs:1:1";
    var a := Row("false", "unit", "a", 2, "", None);
    var b := Row("false", "unit", "b", 1, "", None);
    x := Suite(map["a t" := a, "b t" := b], map["a t" := {region}, "b t" := {region}]);
    assert Own(a) == "crates/a/" && Own(b) == "crates/b/";
    assert region in x.sets["a t"] && Own(x.cases["a t"]) <= region;
    assert CoversOwnCrate(x, "a t");
    assert Own(b)[7] == 'b' && region[7] == 'a';
    assert !CoversOwnCrate(x, "b t");
    assert KeeperBefore(x, "b t", "a t") && Subsumes(x, "b t", "a t");
    assert "a t" in x.sets && "b t" in x.sets;
  }

  // -------------------------------------------------------------------------
  // The report
  // -------------------------------------------------------------------------

  ghost predicate WeakOrder<T(!new)>(before: (T, T) -> bool) {
    forall a, b, c :: before(a, b) ==> !before(b, a) && (before(a, c) || before(c, b))
  }

  ghost predicate Sorted<T>(before: (T, T) -> bool, xs: seq<T>) {
    forall i, j | 0 <= i < j < |xs| :: !before(xs[j], xs[i])
  }

  /** `e` put into a sorted list. */
  function Inserted<T(!new)>(before: (T, T) -> bool, e: T, xs: seq<T>): (r: seq<T>) {
    if xs == [] || before(e, xs[0]) then [e] + xs else [xs[0]] + Inserted(before, e, xs[1..])
  }

  function SortedList<T(!new)>(before: (T, T) -> bool, xs: seq<T>): (r: seq<T>) {
    if xs == [] then [] else Inserted(before, xs[0], SortedList(before, xs[1..]))
  }

  lemma {:induction false} InsertedKeepsAll<T(!new)>(before: (T, T) -> bool, e: T, xs: seq<T>)
    ensures multiset(Inserted(before, e, xs)) == multiset(xs) + multiset{e}
  {
    if xs != [] && !before(e, xs[0]) {
      InsertedKeepsAll(before, e, xs[1..]);
      assert xs == [xs[0]] + xs[1..];
    }
  }

  lemma {:induction false} InsertedIsSorted<T(!new)>(before: (T, T) -> bool, e: T, xs: seq<T>)
    requires WeakOrder(before) && Sorted(before, xs)
    ensures Sorted(before, Inserted(before, e, xs))
  {
    if xs != [] {
      if before(e, xs[0]) {
        assert forall j | 0 <= j < |xs| :: !before(xs[j], xs[0]);
      } else {
        var rest := Inserted(before, e, xs[1..]);
        InsertedIsSorted(before, e, xs[1..]);
        InsertedKeepsAll(before, e, xs[1..]);
        forall j | 0 <= j < |rest| ensures !before(rest[j], xs[0]) {
          assert rest[j] in multiset(rest);
          assert rest[j] == e || rest[j] in xs[1..];
        }
      }
    }
  }

  /** Sorting keeps every element and puts none before one that goes first. */
  lemma {:induction false} SortingIsRight<T(!new)>(before: (T, T) -> bool, xs: seq<T>)
    ensures multiset(SortedList(before, xs)) == multiset(xs)
    ensures WeakOrder(before) ==> Sorted(before, SortedList(before, xs))
  {
    if xs != [] {
      var rest := SortedList(before, xs[1..]);
      SortingIsRight(before, xs[1..]);
      InsertedKeepsAll(before, xs[0], rest);
      if WeakOrder(before) { InsertedIsSorted(before, xs[0], rest); }
      assert xs == [xs[0]] + xs[1..];
    }
  }

  lemma TextWeakOrder()
    ensures WeakOrder(TextBefore)
  {
    forall a, b, c | TextBefore(a, b) ensures !TextBefore(b, a) && (TextBefore(a, c) || TextBefore(c, b)) {
      TextOrder(a, b);
      TextOrder(a, c);
      if TextBefore(c, a) { TextOrderTransitive(c, a, b); }
    }
  }

  function Cpu(x: Suite, f: Finding): real {
    if f.case_ in x.cases && x.cases[f.case_].duration.Some? then x.cases[f.case_].duration.value else 0.0
  }

  /** Subset proposals first, the most expensive first among them, then by name. */
  predicate ReportBefore(x: Suite, a: Finding, b: Finding) {
    (a.kind == Subset && b.kind != Subset) ||
    (a.kind == b.kind &&
     (Cpu(x, a) > Cpu(x, b) || (Cpu(x, a) == Cpu(x, b) && TextBefore(a.case_, b.case_))))
  }

  function ReportOrder(x: Suite): (Finding, Finding) -> bool { (a, b) => ReportBefore(x, a, b) }

  lemma ReportWeakOrder(x: Suite)
    ensures WeakOrder(ReportOrder(x))
  {
    forall a, b, c | ReportBefore(x, a, b)
      ensures !ReportBefore(x, b, a) && (ReportBefore(x, a, c) || ReportBefore(x, c, b))
    {
      TextOrder(a.case_, b.case_);
      TextOrder(a.case_, c.case_);
      if TextBefore(a.case_, b.case_) && TextBefore(c.case_, a.case_) {
        TextOrderTransitive(c.case_, a.case_, b.case_);
      }
    }
  }

  /** The suite the report is about: the judged cases, each with the regions under test it ran. */
  function SuiteOf(cases: map<CaseId, Row>, regions: map<CaseId, seq<Region>>, underTest: Region -> bool): (x: Suite)
    ensures SuiteOk(x)
  {
    Suite(cases, map c | c in regions && c in cases && Judged(cases[c]) :: (set r | r in regions[c] && underTest(r)))
  }

  /** What a line of the report says is so. */
  ghost predicate Right(x: Suite, f: Finding)
    requires SuiteOk(x)
  {
    f.case_ in x.sets && f.regions == |x.sets[f.case_]| &&
    (f.kind == NoOwnCrateCoverage ==> NoOwn(x, f.case_) && f.subsumedBy == "") &&
    (f.kind == Subset ==>
      Goes(x, f.case_) && f.subsumedBy in x.sets && Subsumes(x, f.subsumedBy, f.case_) &&
      forall other | other in x.sets && Subsumes(x, other, f.case_) :: !KeeperBefore(x, other, f.subsumedBy))
  }

  /** A report is exact: one line for each case with no coverage of its own crate and for each one
      subsumed, the latter with the first in keeper order of those that subsume it. */
  ghost predicate Reports(x: Suite, lines: multiset<Finding>)
    requires SuiteOk(x)
  {
    (forall f | f in lines :: Right(x, f) && lines[f] == 1) &&
    (forall f, g | f in lines && g in lines && f.case_ == g.case_ :: f == g) &&
    (forall c | Goes(x, c) || NoOwn(x, c) :: exists f :: f in lines && f.case_ == c)
  }

  lemma FindingIsRight(x: Suite, ids: seq<CaseId>, c: CaseId)
    requires SuiteOk(x) && c in x.sets && forall id :: id in ids <==> id in x.sets
    ensures FindingOf(x, ids, c).None? ==> !Goes(x, c) && !NoOwn(x, c)
    ensures FindingOf(x, ids, c).Some? ==> FindingOf(x, ids, c).value.case_ == c && Right(x, FindingOf(x, ids, c).value)
  {
    var others := Subsuming(x, ids, c);
    if others != [] { assert Subsumes(x, others[0], c); }
  }

  /** Sorted and with no name twice, names come strictly one after another. */
  lemma StrictlySorted(keys: set<CaseId>, ids: seq<CaseId>)
    requires multiset(ids) == multiset(keys) && Sorted(TextBefore, ids)
    ensures forall id :: id in ids <==> id in keys
    ensures forall i, j | 0 <= i < j < |ids| :: TextBefore(ids[i], ids[j])
  {
    forall id ensures id in ids <==> id in keys { assert id in ids <==> id in multiset(ids); }
    forall i, j | 0 <= i < j < |ids| ensures TextBefore(ids[i], ids[j]) {
      TextOrder(ids[i], ids[j]);
      assert ids == ids[..i] + [ids[i]] + ids[i + 1..j] + [ids[j]] + ids[j + 1..];
      assert ids[i] == ids[j] ==> multiset(ids)[ids[i]] >= 2;
    }
  }

  /** The keys, sorted. */
  method SortedKeys(keys: set<CaseId>) returns (ids: seq<CaseId>)
    ensures forall id :: id in ids <==> id in keys
    ensures forall i, j | 0 <= i < j < |ids| :: TextBefore(ids[i], ids[j])
  {
    ids := [];
    var rest := keys;
    TextWeakOrder();
    while rest != {}
      invariant rest <= keys && multiset(ids) == multiset(keys - rest) && Sorted(TextBefore, ids)
      decreases rest
    {
      var id :| id in rest;
      assert keys - (rest - {id}) == (keys - rest) + {id};
      rest := rest - {id};
      InsertedKeepsAll(TextBefore, id, ids);
      InsertedIsSorted(TextBefore, id, ids);
      ids := Inserted(TextBefore, id, ids);
    }
    StrictlySorted(keys, ids);
  }

  /** What there is to report about each case, in order. */
  ghost function Lines(x: Suite, ids: seq<CaseId>): (lines: seq<Option<Finding>>)
    requires SuiteOk(x) && forall id | id in ids :: id in x.sets
  {
    seq(|ids|, k requires 0 <= k < |ids| => FindingOf(x, ids, ids[k]))
  }

  /** The first `n` lines have been reported, once each. */
  ghost predicate ReportedUpTo(lines: seq<Option<Finding>>, found: multiset<Finding>, n: nat)
    requires n <= |lines|
  {
    (forall f | f in found :: found[f] == 1 && exists k :: 0 <= k < n && lines[k] == Some(f)) &&
    forall k | 0 <= k < n && lines[k].Some? :: lines[k].value in found
  }

  lemma ReportOneMore(lines: seq<Option<Finding>>, found: multiset<Finding>, n: nat)
    requires n < |lines| && ReportedUpTo(lines, found, n)
    requires forall j, k | 0 <= j < k < |lines| && lines[j].Some? :: lines[j] != lines[k]
    ensures ReportedUpTo(lines, if lines[n].Some? then found + multiset{lines[n].value} else found, n + 1)
  {
  }

  /** No two cases have the same line: each is about its own case. */
  lemma LinesDiffer(x: Suite, ids: seq<CaseId>, j: int, k: int)
    requires SuiteOk(x) && (forall id :: id in ids <==> id in x.sets) && 0 <= j < k < |ids|
    requires TextBefore(ids[j], ids[k]) && Lines(x, ids)[j].Some?
    ensures Lines(x, ids)[j] != Lines(x, ids)[k]
  {
    FindingIsRight(x, ids, ids[j]);
    FindingIsRight(x, ids, ids[k]);
    TextOrder(ids[j], ids[k]);
  }

  /** A line that was reported is right, and belongs to its case. */
  lemma LineIsRight(x: Suite, ids: seq<CaseId>, k: int, f: Finding)
    requires SuiteOk(x) && (forall id :: id in ids <==> id in x.sets) && 0 <= k < |ids| && Lines(x, ids)[k] == Some(f)
    ensures Right(x, f) && f.case_ == ids[k]
  {
    FindingIsRight(x, ids, ids[k]);
  }

  lemma {:induction false} ReportedIsRight(x: Suite, ids: seq<CaseId>, found: multiset<Finding>, f: Finding)
    returns (k: nat)
    requires SuiteOk(x) && forall id :: id in ids <==> id in x.sets
    requires ReportedUpTo(Lines(x, ids), found, |ids|) && f in found
    ensures Right(x, f) && k < |ids| && ids[k] == f.case_ && Lines(x, ids)[k] == Some(f)
  {
    var lines := Lines(x, ids);
    k :| 0 <= k < |ids| && lines[k] == Some(f);
    LineIsRight(x, ids, k, f);
  }

  lemma {:induction false} DueIsReported(x: Suite, ids: seq<CaseId>, found: multiset<Finding>, c: CaseId)
    requires SuiteOk(x) && (forall id :: id in ids <==> id in x.sets) && (Goes(x, c) || NoOwn(x, c))
    requires ReportedUpTo(Lines(x, ids), found, |ids|)
    ensures exists f :: f in found && f.case_ == c
  {
    var lines := Lines(x, ids);
    var k :| 0 <= k < |ids| && ids[k] == c;
    FindingIsRight(x, ids, c);
    assert lines[k].Some? && lines[k].value in found;
  }

  lemma {:induction false} AllReported(x: Suite, ids: seq<CaseId>, found: multiset<Finding>)
    requires SuiteOk(x) && forall id :: id in ids <==> id in x.sets
    requires forall i, j | 0 <= i < j < |ids| :: ids[i] != ids[j]
    requires ReportedUpTo(Lines(x, ids), found, |ids|)
    ensures Reports(x, found)
  {
    forall f | f in found ensures Right(x, f) { var k := ReportedIsRight(x, ids, found, f); }
    forall f, g | f in found && g in found && f.case_ == g.case_ ensures f == g {
      var k := ReportedIsRight(x, ids, found, f);
      var l := ReportedIsRight(x, ids, found, g);
    }
    forall c | Goes(x, c) || NoOwn(x, c) ensures exists f :: f in found && f.case_ == c {
      DueIsReported(x, ids, found, c);
    }
  }

  method Candidates(cases: map<CaseId, Row>, regions: map<CaseId, seq<Region>>, underTest: Region -> bool)
    returns (found: seq<Finding>)
    ensures Reports(SuiteOf(cases, regions, underTest), multiset(found))
    ensures Sorted(ReportOrder(SuiteOf(cases, regions, underTest)), found)
    ensures forall f | f in found :: SaysRight(cases, regions, underTest, f)
  {
    var x := SuiteOf(cases, regions, underTest);
    var ids := SortedKeys(x.sets.Keys);
    ghost var lines := Lines(x, ids);
    forall j, k | 0 <= j < k < |ids| ensures ids[j] != ids[k] { TextOrder(ids[j], ids[k]); }
    forall j, k | 0 <= j < k < |lines| && lines[j].Some? ensures lines[j] != lines[k] { LinesDiffer(x, ids, j, k); }
    found := [];
    for n := 0 to |ids|
      invariant ReportedUpTo(lines, multiset(found), n)
    {
      ReportOneMore(lines, multiset(found), n);
      var line := FindingOf(x, ids, ids[n]);
      assert line == lines[n];
      if line.Some? {
        found := found + [line.value];
      }
    }
    AllReported(x, ids, multiset(found));
    ReportWeakOrder(x);
    SortingIsRight(ReportOrder(x), found);
    found := SortedList(ReportOrder(x), found);
    forall f | f in found ensures SaysRight(cases, regions, underTest, f) {
      assert f in multiset(found);
      RightLinesSayRight(cases, regions, underTest, f);
    }
  }

  /** A report's subset lines can all be acted on at once. */
  lemma ReportIsJointlySound(x: Suite, lines: multiset<Finding>)
    requires SuiteOk(x) && Reports(x, lines)
    ensures var goes := set f | f in lines && f.kind == Subset :: f.case_;
      Covered(x, x.sets.Keys - goes) == Covered(x, x.sets.Keys)
  {
    var goes := set f | f in lines && f.kind == Subset :: f.case_;
    forall c ensures c in goes <==> c in x.sets && Goes(x, c) {
      if Goes(x, c) {
        var f :| f in lines && f.case_ == c;
        assert Right(x, f);
      }
    }
    RemovingSubsetsLosesNothing(x, goes);
  }

  // -------------------------------------------------------------------------
  // The report, on the files alone
  // -------------------------------------------------------------------------

  /** Code points differ first at `k`, or `a` ends there. */
  predicate FirstDifference(a: string, b: string, k: nat) {
    k <= |a| && k < |b| && a[..k] == b[..k] && (k == |a| || a[k] < b[k])
  }

  lemma {:induction false} TextBeforeMeans(a: string, b: string)
    ensures TextBefore(a, b) <==> exists k: nat :: FirstDifference(a, b, k)
  {
    if b != "" {
      if a == "" || a[0] < b[0] {
        assert FirstDifference(a, b, 0);
      } else {
        TextBeforeMeans(a[1..], b[1..]);
        if k: nat :| FirstDifference(a, b, k) {
          assert k > 0 && a[0] == a[..k][0] == b[..k][0] == b[0];
          assert a[1..][..k - 1] == a[..k][1..] == b[..k][1..] == b[1..][..k - 1];
          assert FirstDifference(a[1..], b[1..], k - 1);
        }
        if TextBefore(a, b) {
          var k: nat :| FirstDifference(a[1..], b[1..], k);
          assert a[..k + 1] == [a[0]] + a[1..][..k] && b[..k + 1] == [b[0]] + b[1..][..k];
          assert FirstDifference(a, b, k + 1);
        }
      }
    }
  }

  lemma {:induction false} SlashIsInAPart(text: string)
    ensures '/' in text <==> exists part | part in Split(text, ';') :: '/' in part
  {
    if text != "" {
      var rest := Split(text[1..], ';');
      SlashIsInAPart(text[1..]);
      assert text == [text[0]] + text[1..] && rest == [rest[0]] + rest[1..];
      var parts := Split(text, ';');
      if text[0] == ';' {
        assert parts == [""] + rest;
      } else {
        assert parts == [[text[0]] + rest[0]] + rest[1..];
        assert '/' in parts[0] <==> text[0] == '/' || '/' in rest[0];
        assert forall part :: part in parts <==> part == parts[0] || part in rest[1..];
        assert forall part :: part in rest <==> part == rest[0] || part in rest[1..];
      }
    }
  }

  /** A case cites a spec item when there is a slash in its references. */
  lemma {:induction false} CitesSpecMeansSlash(row: Row)
    ensures CitesSpec(row) <==> '/' in row.refs
  {
    SlashIsInAPart(row.refs);
  }

  /** One of two cases is the keeper: by cost, then by a slash in its references, then by name. */
  ghost predicate KeptOver(cases: map<CaseId, Row>, a: CaseId, b: CaseId)
    requires a in cases && b in cases
  {
    var p, q := cases[a], cases[b];
    if p.costRank != q.costRank then p.costRank < q.costRank
    else if ('/' in p.refs) != ('/' in q.refs) then '/' in p.refs
    else exists k: nat :: FirstDifference(a, b, k)
  }

  lemma {:induction false} KeeperMeans(x: Suite, a: CaseId, b: CaseId)
    requires a in x.cases && b in x.cases
    ensures KeeperBefore(x, a, b) <==> KeptOver(x.cases, a, b)
  {
    CitesSpecMeansSlash(x.cases[a]);
    CitesSpecMeansSlash(x.cases[b]);
    TextBeforeMeans(a, b);
  }

  /** The case ran, and is not one that is ignored or only measures. */
  predicate TakesPart(cases: map<CaseId, Row>, regions: map<CaseId, seq<Region>>, c: CaseId) {
    c in regions && c in cases && cases[c].ignored != "true" && cases[c].layer != "measurement"
  }

  predicate Ran(regions: map<CaseId, seq<Region>>, underTest: Region -> bool, c: CaseId, r: Region) {
    c in regions && r in regions[c] && underTest(r)
  }

  /** It ran something under test of its own crate. */
  ghost predicate RanItsOwn(cases: map<CaseId, Row>, regions: map<CaseId, seq<Region>>, underTest: Region -> bool,
                            c: CaseId)
    requires c in cases
  {
    exists r :: Ran(regions, underTest, c, r) && "crates/" + cases[c].crate + "/" <= r
  }

  /** `other` ran all that `c` did, and more or is the one to keep, and costs no more. */
  ghost predicate Replaces(cases: map<CaseId, Row>, regions: map<CaseId, seq<Region>>, underTest: Region -> bool,
                           other: CaseId, c: CaseId)
    requires c in cases && other in cases
  {
    other != c && TakesPart(cases, regions, other) && cases[other].costRank <= cases[c].costRank &&
    (forall r | Ran(regions, underTest, c, r) :: Ran(regions, underTest, other, r)) &&
    ((forall r | Ran(regions, underTest, other, r) :: Ran(regions, underTest, c, r)) ==> !KeptOver(cases, c, other))
  }

  lemma {:induction false} SetsAreWhatRan(cases: map<CaseId, Row>, regions: map<CaseId, seq<Region>>,
                                          underTest: Region -> bool, c: CaseId)
    ensures var x := SuiteOf(cases, regions, underTest);
      (c in x.sets <==> TakesPart(cases, regions, c)) &&
      (c in x.sets ==> forall r :: r in x.sets[c] <==> Ran(regions, underTest, c, r))
  {
  }

  lemma {:induction false} SubsumesMeans(cases: map<CaseId, Row>, regions: map<CaseId, seq<Region>>,
                                         underTest: Region -> bool, other: CaseId, c: CaseId)
    requires TakesPart(cases, regions, c) && TakesPart(cases, regions, other)
    ensures var x := SuiteOf(cases, regions, underTest);
      c in x.sets && other in x.sets && (Subsumes(x, other, c) <==> Replaces(cases, regions, underTest, other, c))
  {
    var x := SuiteOf(cases, regions, underTest);
    SetsAreWhatRan(cases, regions, underTest, c);
    SetsAreWhatRan(cases, regions, underTest, other);
    KeeperMeans(x, c, other);
    if x.sets[c] <= x.sets[other] {
      assert x.sets[c] == x.sets[other] <==>
             forall r | Ran(regions, underTest, other, r) :: Ran(regions, underTest, c, r);
    }
    if forall r | Ran(regions, underTest, c, r) :: Ran(regions, underTest, other, r) {
      assert x.sets[c] <= x.sets[other];
    }
  }

  lemma {:induction false} OwnCrateMeans(cases: map<CaseId, Row>, regions: map<CaseId, seq<Region>>,
                                         underTest: Region -> bool, c: CaseId)
    requires TakesPart(cases, regions, c)
    ensures var x := SuiteOf(cases, regions, underTest);
      c in x.sets && (CoversOwnCrate(x, c) <==> RanItsOwn(cases, regions, underTest, c))
  {
    var x := SuiteOf(cases, regions, underTest);
    SetsAreWhatRan(cases, regions, underTest, c);
    if RanItsOwn(cases, regions, underTest, c) {
      var r :| Ran(regions, underTest, c, r) && "crates/" + cases[c].crate + "/" <= r;
      assert r in x.sets[c] && Own(x.cases[c]) <= r;
    }
  }

  /** What a line says, on the files alone. */
  ghost predicate SaysRight(cases: map<CaseId, Row>, regions: map<CaseId, seq<Region>>, underTest: Region -> bool,
                            f: Finding)
  {
    TakesPart(cases, regions, f.case_) &&
    f.regions == |set r | r in regions[f.case_] && underTest(r)| &&
    (f.kind == NoOwnCrateCoverage <==> !RanItsOwn(cases, regions, underTest, f.case_)) &&
    (f.kind == NoOwnCrateCoverage ==> f.subsumedBy == "") &&
    (f.kind == Subset ==>
       f.subsumedBy in cases && Replaces(cases, regions, underTest, f.subsumedBy, f.case_) &&
       forall other | other in cases && Replaces(cases, regions, underTest, other, f.case_) ::
         !KeptOver(cases, other, f.subsumedBy))
  }

  lemma {:induction false} RightLinesSayRight(cases: map<CaseId, Row>, regions: map<CaseId, seq<Region>>,
                                              underTest: Region -> bool, f: Finding)
    requires Right(SuiteOf(cases, regions, underTest), f)
    ensures SaysRight(cases, regions, underTest, f)
  {
    var x := SuiteOf(cases, regions, underTest);
    SetsAreWhatRan(cases, regions, underTest, f.case_);
    OwnCrateMeans(cases, regions, underTest, f.case_);
    if f.kind == Subset {
      SetsAreWhatRan(cases, regions, underTest, f.subsumedBy);
      SubsumesMeans(cases, regions, underTest, f.subsumedBy, f.case_);
      forall other | other in cases && Replaces(cases, regions, underTest, other, f.case_)
        ensures !KeptOver(cases, other, f.subsumedBy)
      {
        SubsumesMeans(cases, regions, underTest, other, f.case_);
        KeeperMeans(x, other, f.subsumedBy);
      }
    }
  }

  /** A report, on the files alone: each line says right; and a case has a line exactly if it takes part
      and ran nothing of its own crate, or another replaces it. */
  lemma {:induction false} ReportIsAboutTheFiles(cases: map<CaseId, Row>, regions: map<CaseId, seq<Region>>,
                                                 underTest: Region -> bool, lines: multiset<Finding>)
    requires Reports(SuiteOf(cases, regions, underTest), lines)
    ensures forall f | f in lines :: SaysRight(cases, regions, underTest, f)
    ensures forall c :: (exists f :: f in lines && f.case_ == c) <==>
      TakesPart(cases, regions, c) &&
      (!RanItsOwn(cases, regions, underTest, c) ||
       exists other :: other in cases && Replaces(cases, regions, underTest, other, c))
  {
    var x := SuiteOf(cases, regions, underTest);
    forall f | f in lines ensures SaysRight(cases, regions, underTest, f) {
      RightLinesSayRight(cases, regions, underTest, f);
    }
    forall c | TakesPart(cases, regions, c) &&
      (!RanItsOwn(cases, regions, underTest, c) ||
       exists other :: other in cases && Replaces(cases, regions, underTest, other, c))
      ensures exists f :: f in lines && f.case_ == c
    {
      SetsAreWhatRan(cases, regions, underTest, c);
      OwnCrateMeans(cases, regions, underTest, c);
      if RanItsOwn(cases, regions, underTest, c) {
        var other :| other in cases && Replaces(cases, regions, underTest, other, c);
        SubsumesMeans(cases, regions, underTest, other, c);
      }
      assert Goes(x, c) || NoOwn(x, c);
    }
    forall f | f in lines && f.kind == Subset ensures f.subsumedBy in cases {
      assert SaysRight(cases, regions, underTest, f);
    }
    forall f | f in lines
      ensures !RanItsOwn(cases, regions, underTest, f.case_) ||
        exists other :: other in cases && Replaces(cases, regions, underTest, other, f.case_)
    {
      assert SaysRight(cases, regions, underTest, f);
    }
  }

  /** How long a line's case takes: nothing, if that is not known. */
  predicate Takes(x: Suite, f: Finding, duration: real) {
    f.case_ in x.cases && duration == match x.cases[f.case_].duration case Some(d) => d case None => 0.0
  }

  /** The report's order: subset lines first, the dearest first among equals, then by name. */
  lemma {:induction false} ReportIsInOrder(x: Suite, found: seq<Finding>, i: nat, j: nat, c: real, d: real)
    requires Sorted(ReportOrder(x), found) && i < j < |found| && Takes(x, found[i], c) && Takes(x, found[j], d)
    ensures found[j].kind == Subset ==> found[i].kind == Subset
    ensures found[i].kind == found[j].kind ==> c >= d
    ensures found[i].kind == found[j].kind && c == d ==>
      found[i].case_ == found[j].case_ || exists k: nat :: FirstDifference(found[i].case_, found[j].case_, k)
  {
    assert !ReportBefore(x, found[j], found[i]) by { assert !ReportOrder(x)(found[j], found[i]); }
    TextOrder(found[i].case_, found[j].case_);
    TextBeforeMeans(found[i].case_, found[j].case_);
  }
}
