/**
 * `find_violations`: a breadth-first search of a guarded crate's dependencies that walks into no
 * banned crate, and still answers which banned crates are reachable, each with a shortest path.
 */
module CrateBoundaries {
  import opened Options

  type Id = string
  type Name = string

  const WORKSPACE_HACK: Name := "postio-workspace-hack"

  datatype Kind = Normal | Build | Dev

  /** A dependency as `cargo metadata` lists it. No kinds at all means a normal one. */
  datatype Dep = Dep(pkg: Id, kinds: seq<Kind>)

  datatype Metadata = Metadata(packages: map<Id, Name>, nodes: map<Id, seq<Dep>>, members: seq<Id>)

  datatype Label = WorkspaceMember | Dependency | BuildDependency | DevDependency

  /** One step of a path: the package stepped to and how. */
  datatype Hop = Hop(id: Id, via: Label)

  /** What is searched: the metadata, the guarded crate's package and whether its own
      dev-dependencies count. */
  datatype Search = Search(meta: Metadata, root: Id, ownDev: bool)

  datatype Report = CrateMissing | Checked(violations: map<Name, seq<(Name, Label)>>)

  function KindLabel(kinds: set<Kind>): Label {
    if Normal in kinds then Dependency
    else if Build in kinds then BuildDependency
    else if Dev in kinds then DevDependency
    else Dependency
  }

  function Allowed(g: Search, current: Id): set<Kind> {
    if current == g.root && g.ownDev then {Normal, Build, Dev} else {Normal, Build}
  }

  function KindsOf(dep: Dep): set<Kind> {
    if dep.kinds == [] then {Normal} else set k | k in dep.kinds
  }

  /** The step a dependency of `current` allows, if it allows one. */
  function HopOf(g: Search, current: Id, dep: Dep): Option<Hop> {
    var kinds := KindsOf(dep) * Allowed(g, current);
    if kinds == {} || dep.pkg !in g.meta.packages || g.meta.packages[dep.pkg] == WORKSPACE_HACK then None
    else Some(Hop(dep.pkg, KindLabel(kinds)))
  }

  ghost predicate IsStep(g: Search, u: Id, h: Hop) {
    u in g.meta.nodes && exists i :: 0 <= i < |g.meta.nodes[u]| && HopOf(g, u, g.meta.nodes[u][i]) == Some(h)
  }

  /** A path from the guarded crate along allowed dependencies. */
  ghost predicate IsWalk(g: Search, w: seq<Hop>) {
    |w| > 0 && w[0] == Hop(g.root, WorkspaceMember) &&
    forall i | 1 <= i < |w| :: IsStep(g, w[i - 1].id, w[i])
  }

  function NameOf(g: Search, h: Hop): Name {
    if h.id in g.meta.packages then g.meta.packages[h.id] else ""
  }

  /** Every crate stepped to, up to the `n`th hop, is allowed. */
  ghost predicate CleanUpTo(g: Search, banned: set<Name>, w: seq<Hop>, n: int) {
    forall i | 1 <= i < n && i < |w| :: NameOf(g, w[i]) !in banned
  }

  ghost predicate CleanWalk(g: Search, banned: set<Name>, w: seq<Hop>) {
    IsWalk(g, w) && CleanUpTo(g, banned, w, |w|)
  }

  /** A path to the banned crate `n` that meets no banned crate before it. */
  ghost predicate FirstBanned(g: Search, banned: set<Name>, w: seq<Hop>, n: Name) {
    IsWalk(g, w) && |w| > 1 && NameOf(g, w[|w| - 1]) == n && n in banned && CleanUpTo(g, banned, w, |w| - 1)
  }

  /** A path as it is reported. */
  function Named(g: Search, w: seq<Hop>): seq<(Name, Label)> {
    seq(|w|, i requires 0 <= i < |w| => (NameOf(g, w[i]), w[i].via))
  }

  predicate IsCalled(meta: Metadata, v: Id, n: Name) { v in meta.packages && meta.packages[v] == n }

  /** The guarded crate's package: the first workspace member of its name. */
  function Root(meta: Metadata, members: seq<Id>, crate: Name): Option<Id> {
    if members == [] then None
    else if members[0] in meta.packages && meta.packages[members[0]] == crate then Some(members[0])
    else Root(meta, members[1..], crate)
  }

  // -------------------------------------------------------------------------
  // What the search keeps
  // -------------------------------------------------------------------------

  /** The packages seen, each with the path it was queued under. */
  ghost predicate SeenOk(g: Search, banned: set<Name>, walks: map<Id, seq<Hop>>) {
    g.root in walks && walks[g.root] == [Hop(g.root, WorkspaceMember)] &&
    forall v | v in walks :: v in g.meta.packages && CleanWalk(g, banned, walks[v]) && walks[v][|walks[v]| - 1].id == v
  }

  ghost predicate FoundOk(g: Search, banned: set<Name>, found: map<Name, seq<Hop>>) {
    forall n | n in found :: FirstBanned(g, banned, found[n], n)
  }

  /** A step of a package is settled: a banned crate it leads to is reported, another one is seen,
      and neither by a longer path than this step would give. */
  ghost predicate StepSettled(g: Search, banned: set<Name>, direct: bool, walks: map<Id, seq<Hop>>,
                              found: map<Name, seq<Hop>>, u: Id, h: Hop)
    requires u in walks
  {
    if NameOf(g, h) in banned then
      NameOf(g, h) in found && |found[NameOf(g, h)]| <= |walks[u]| + 1
    else
      direct || (h.id in walks && |walks[h.id]| <= |walks[u]| + 1)
  }

  ghost predicate Settled(g: Search, banned: set<Name>, direct: bool, walks: map<Id, seq<Hop>>,
                          found: map<Name, seq<Hop>>, u: Id)
    requires u in walks
  {
    forall h | IsStep(g, u, h) :: StepSettled(g, banned, direct, walks, found, u, h)
  }

  /** The queue: each entry under its path, shorter paths first and at most one hop apart. */
  ghost predicate QueueOk(g: Search, walks: map<Id, seq<Hop>>, queue: seq<(Id, seq<(Name, Label)>)>, least: nat) {
    (forall i | 0 <= i < |queue| :: queue[i].0 in walks && queue[i].1 == Named(g, walks[queue[i].0]) &&
                                   least <= |walks[queue[i].0]| <= least + 1) &&
    forall i, j | 0 <= i < j < |queue| :: |walks[queue[i].0]| <= |walks[queue[j].0]|
  }

  function Ids(queue: seq<(Id, seq<(Name, Label)>)>): set<Id> { set e | e in queue :: e.0 }

  /** With everything settled, every clean path leads to a package seen under no longer a path. */
  lemma {:induction false} CleanWalksAreSeen(g: Search, banned: set<Name>, walks: map<Id, seq<Hop>>,
                                             found: map<Name, seq<Hop>>, w: seq<Hop>)
    requires SeenOk(g, banned, walks) && CleanWalk(g, banned, w)
    requires forall u | u in walks :: Settled(g, banned, false, walks, found, u)
    ensures w[|w| - 1].id in walks && |walks[w[|w| - 1].id]| <= |w|
  {
    if |w| > 1 {
      var p := w[..|w| - 1];
      CleanWalksAreSeen(g, banned, walks, found, p);
      var u, h := p[|p| - 1].id, w[|w| - 1];
      assert IsStep(g, u, h);
      assert StepSettled(g, banned, false, walks, found, u, h);
    }
  }

  /** With everything settled, every first banned crate is reported, by no longer a path. */
  lemma BannedAreFound(g: Search, banned: set<Name>, direct: bool, walks: map<Id, seq<Hop>>,
                       found: map<Name, seq<Hop>>, w: seq<Hop>, n: Name)
    requires SeenOk(g, banned, walks) && FirstBanned(g, banned, w, n) && (direct ==> |w| == 2)
    requires forall u | u in walks :: Settled(g, banned, direct, walks, found, u)
    ensures n in found && |found[n]| <= |w|
  {
    var p := w[..|w| - 1];
    if !direct { CleanWalksAreSeen(g, banned, walks, found, p); }
    var u, h := p[|p| - 1].id, w[|w| - 1];
    assert IsStep(g, u, h);
    assert StepSettled(g, banned, direct, walks, found, u, h);
  }

  /** What a finished search reports: a shortest path to each banned crate that some path meets
      first, and nothing else. `direct` looks at paths of one hop only. */
  ghost predicate Exact(g: Search, banned: set<Name>, direct: bool, violations: map<Name, seq<(Name, Label)>>) {
    (forall n | n in violations :: exists w ::
       FirstBanned(g, banned, w, n) && (direct ==> |w| == 2) && violations[n] == Named(g, w)) &&
    (forall w, n | FirstBanned(g, banned, w, n) && (direct ==> |w| == 2) ::
       n in violations && |violations[n]| <= |w|)
  }

  /** Member `i` is the first that is called `crate`. */
  predicate FirstCalled(meta: Metadata, members: seq<Id>, crate: Name, i: nat) {
    i < |members| && IsCalled(meta, members[i], crate) && forall j | 0 <= j < i :: !IsCalled(meta, members[j], crate)
  }

  lemma {:induction false} RootIsMember(meta: Metadata, members: seq<Id>, crate: Name)
    ensures forall i: nat | FirstCalled(meta, members, crate, i) :: Root(meta, members, crate) == Some(members[i])
    ensures Root(meta, members, crate).Some? ==>
      IsCalled(meta, Root(meta, members, crate).value, crate) && exists i: nat :: FirstCalled(meta, members, crate, i)
    ensures Root(meta, members, crate).None? ==> forall i | 0 <= i < |members| :: !IsCalled(meta, members[i], crate)
  {
    if members != [] {
      if IsCalled(meta, members[0], crate) {
        assert FirstCalled(meta, members, crate, 0);
      } else {
        var rest := members[1..];
        RootIsMember(meta, rest, crate);
        assert forall i | 1 <= i < |members| :: members[i] == rest[i - 1];
        forall i: nat ensures FirstCalled(meta, members, crate, i + 1) <==> FirstCalled(meta, rest, crate, i) {
          FirstCalledLater(meta, members, crate, i);
        }
        assert !FirstCalled(meta, members, crate, 0);
        forall i: nat | FirstCalled(meta, members, crate, i) ensures Root(meta, members, crate) == Some(members[i]) {
          assert FirstCalled(meta, members, crate, (i - 1) + 1);
        }
        if i: nat :| FirstCalled(meta, rest, crate, i) { assert FirstCalled(meta, members, crate, i + 1); }
      }
    }
  }

  lemma {:induction false} FirstCalledLater(meta: Metadata, members: seq<Id>, crate: Name, i: nat)
    requires members != [] && !IsCalled(meta, members[0], crate)
    ensures FirstCalled(meta, members, crate, i + 1) <==> FirstCalled(meta, members[1..], crate, i)
  {
    var rest := members[1..];
    if FirstCalled(meta, members, crate, i + 1) {
      forall j | 0 <= j < i ensures !IsCalled(meta, rest[j], crate) { assert rest[j] == members[j + 1]; }
    }
    if FirstCalled(meta, rest, crate, i) {
      forall j | 0 <= j < i + 1 ensures !IsCalled(meta, members[j], crate) {
        if j > 0 { assert members[j] == rest[j - 1]; }
      }
    }
  }

  /** The variables of a search. */
  datatype Front = Front(seen: set<Id>, queue: seq<(Id, seq<(Name, Label)>)>, violations: map<Name, seq<(Name, Label)>>)

  /** What the proof remembers beside them: the path each package was queued under, the path each
      violation was found by, the packages done with, and the length of the shortest open path. */
  datatype Trace = Trace(walks: map<Id, seq<Hop>>, found: map<Name, seq<Hop>>, done: set<Id>, least: nat)

  ghost predicate Going(g: Search, banned: set<Name>, direct: bool, f: Front, t: Trace) {
    && SeenOk(g, banned, t.walks) && FoundOk(g, banned, t.found) && QueueOk(g, t.walks, f.queue, t.least)
    && f.seen == t.walks.Keys && f.violations.Keys == t.found.Keys
    && (forall v | v in t.walks :: |t.walks[v]| <= t.least + 1)
    && (forall n | n in t.found :: f.violations[n] == Named(g, t.found[n]) && |t.found[n]| <= t.least + 1)
    && (direct ==> t.walks.Keys == {g.root} && forall n | n in t.found :: |t.found[n]| == 2)
    && (forall u | u in t.done :: u in t.walks && Settled(g, banned, direct, t.walks, t.found, u))
  }

  /** Nothing seen or found is forgotten or changed. */
  ghost predicate Grows(t: Trace, t': Trace) {
    t'.done == t.done && t'.least == t.least &&
    t.walks.Keys <= t'.walks.Keys && (forall v | v in t.walks :: t'.walks[v] == t.walks[v]) &&
    t.found.Keys <= t'.found.Keys && (forall n | n in t.found :: t'.found[n] == t.found[n])
  }

  lemma StaysSettled(g: Search, banned: set<Name>, direct: bool, t: Trace, t': Trace, u: Id)
    requires u in t.walks && Settled(g, banned, direct, t.walks, t.found, u) && Grows(t, t')
    ensures Settled(g, banned, direct, t'.walks, t'.found, u)
  {
    forall h | IsStep(g, u, h) ensures StepSettled(g, banned, direct, t'.walks, t'.found, u, h) {
      assert StepSettled(g, banned, direct, t.walks, t.found, u, h);
    }
  }

  /** A banned crate met for the first time, one hop past the packages of this distance. */
  lemma FoundOneMore(g: Search, banned: set<Name>, direct: bool, f: Front, t: Trace, n: Name, w: seq<Hop>)
    requires Going(g, banned, direct, f, t)
    requires n !in t.found && FirstBanned(g, banned, w, n) && |w| == t.least + 1 && (direct ==> |w| == 2)
    ensures var t' := t.(found := t.found[n := w]);
      Going(g, banned, direct, f.(violations := f.violations[n := Named(g, w)]), t') && Grows(t, t')
  {
    var t' := t.(found := t.found[n := w]);
    assert Grows(t, t') && FoundOk(g, banned, t'.found);
    forall u | u in t.done ensures Settled(g, banned, direct, t'.walks, t'.found, u) {
      StaysSettled(g, banned, direct, t, t', u);
    }
  }

  /** A package met for the first time goes to the end of the queue. */
  lemma SeenOneMore(g: Search, banned: set<Name>, f: Front, t: Trace, w: seq<Hop>)
    requires Going(g, banned, false, f, t) && CleanWalk(g, banned, w) && |w| == t.least + 1
    requires w[t.least].id !in t.walks && w[t.least].id in g.meta.packages
    ensures var v := w[t.least].id; var t' := t.(walks := t.walks[v := w]);
      Going(g, banned, false, f.(seen := f.seen + {v}, queue := f.queue + [(v, Named(g, w))]), t') && Grows(t, t')
  {
    var t' := t.(walks := t.walks[w[t.least].id := w]);
    forall u | u in t.done ensures Settled(g, banned, false, t'.walks, t'.found, u) {
      StaysSettled(g, banned, false, t, t', u);
    }
  }

  /** The search moves on to the package at the head of the queue. */
  lemma Advance(g: Search, banned: set<Name>, direct: bool, f: Front, t: Trace)
    requires Going(g, banned, direct, f, t) && f.queue != []
    ensures var u := f.queue[0].0;
      u in t.walks && f.queue[0].1 == Named(g, t.walks[u]) && Ids(f.queue) == Ids(f.queue[1..]) + {u} &&
      Going(g, banned, direct, f.(queue := f.queue[1..]), t.(least := |t.walks[u]|))
  {
    assert f.queue == [f.queue[0]] + f.queue[1..];
  }

  /** One step of a package, extended to the path it makes. */
  lemma OneHopMore(g: Search, banned: set<Name>, w: seq<Hop>, h: Hop)
    requires CleanWalk(g, banned, w) && IsStep(g, w[|w| - 1].id, h)
    ensures IsWalk(g, w + [h]) && CleanUpTo(g, banned, w + [h], |w|)
    ensures NameOf(g, h) !in banned ==> CleanWalk(g, banned, w + [h])
    ensures NameOf(g, h) in banned ==> FirstBanned(g, banned, w + [h], NameOf(g, h))
    ensures Named(g, w + [h]) == Named(g, w) + [(NameOf(g, h), h.via)]
  {
    var x := w + [h];
    forall i | 1 <= i < |x| ensures IsStep(g, x[i - 1].id, x[i]) {
      if i < |w| { assert x[i - 1] == w[i - 1] && x[i] == w[i]; }
    }
  }

  /** One dependency of `current`, which was queued under `path`. */
  method Examine(g: Search, banned: set<Name>, directOnly: bool, current: Id, path: seq<(Name, Label)>, dep: Dep,
                 front: Front, ghost t: Trace)
    returns (next: Front, ghost t': Trace)
    requires Going(g, banned, directOnly, front, t) && current in g.meta.nodes && dep in g.meta.nodes[current]
    requires current in t.walks && path == Named(g, t.walks[current]) && t.least == |t.walks[current]|
    ensures Going(g, banned, directOnly, next, t') && Grows(t, t')
    ensures HopOf(g, current, dep).Some? ==>
      StepSettled(g, banned, directOnly, t'.walks, t'.found, current, HopOf(g, current, dep).value)
    ensures OneQueued(g, front, next)
  {
    next, t' := front, t;
    var kinds := if dep.kinds == [] then {Normal} else set k | k in dep.kinds;
    var allowed := {Normal, Build};
    if current == g.root && g.ownDev {
      allowed := allowed + {Dev};
    }
    assert allowed == Allowed(g, current);
    kinds := kinds * allowed;
    if kinds == {} || dep.pkg !in g.meta.packages {
      return;
    }
    var name := g.meta.packages[dep.pkg];
    if name == WORKSPACE_HACK {
      return;
    }
    var nextPath := path + [(name, KindLabel(kinds))];
    ghost var hop := Hop(dep.pkg, KindLabel(kinds));
    ghost var w := t.walks[current] + [hop];
    assert HopOf(g, current, dep) == Some(hop);
    OneHopMore(g, banned, t.walks[current], hop);
    if name in banned {
      if name !in front.violations {
        FoundOneMore(g, banned, directOnly, front, t, name, w);
        next := front.(violations := front.violations[name := nextPath]);
        t' := t.(found := t.found[name := w]);
      }
    } else if dep.pkg !in front.seen && !directOnly {
      SeenOneMore(g, banned, front, t, w);
      next := front.(seen := front.seen + {dep.pkg}, queue := front.queue + [(dep.pkg, nextPath)]);
      t' := t.(walks := t.walks[dep.pkg := w]);
    }
  }

  /** The first `n` dependencies of `u` are settled. */
  ghost predicate SettledUpTo(g: Search, banned: set<Name>, direct: bool, t: Trace, u: Id, n: nat)
    requires u in t.walks && u in g.meta.nodes && n <= |g.meta.nodes[u]|
  {
    forall j | 0 <= j < n && HopOf(g, u, g.meta.nodes[u][j]).Some? ::
      StepSettled(g, banned, direct, t.walks, t.found, u, HopOf(g, u, g.meta.nodes[u][j]).value)
  }

  lemma SettledOneMore(g: Search, banned: set<Name>, direct: bool, t: Trace, t': Trace, u: Id, n: nat)
    requires u in t.walks && u in g.meta.nodes && n < |g.meta.nodes[u]|
    requires SettledUpTo(g, banned, direct, t, u, n) && Grows(t, t')
    requires HopOf(g, u, g.meta.nodes[u][n]).Some? ==>
      StepSettled(g, banned, direct, t'.walks, t'.found, u, HopOf(g, u, g.meta.nodes[u][n]).value)
    ensures SettledUpTo(g, banned, direct, t', u, n + 1)
  {
    forall j | 0 <= j < n && HopOf(g, u, g.meta.nodes[u][j]).Some?
      ensures StepSettled(g, banned, direct, t'.walks, t'.found, u, HopOf(g, u, g.meta.nodes[u][j]).value)
    {
      assert StepSettled(g, banned, direct, t.walks, t.found, u, HopOf(g, u, g.meta.nodes[u][j]).value);
    }
  }

  lemma AllSettled(g: Search, banned: set<Name>, direct: bool, t: Trace, u: Id)
    requires u in t.walks && (u in g.meta.nodes ==> SettledUpTo(g, banned, direct, t, u, |g.meta.nodes[u]|))
    ensures Settled(g, banned, direct, t.walks, t.found, u)
  {
    forall h | IsStep(g, u, h) ensures StepSettled(g, banned, direct, t.walks, t.found, u, h) {
      var j :| 0 <= j < |g.meta.nodes[u]| && HopOf(g, u, g.meta.nodes[u][j]) == Some(h);
    }
  }

  /** Either nothing was queued, or one package not seen before. */
  ghost predicate OneQueued(g: Search, f: Front, f': Front) {
    (f'.seen == f.seen && f'.queue == f.queue) ||
    exists v, p :: v !in f.seen && v in g.meta.packages && f'.seen == f.seen + {v} && f'.queue == f.queue + [(v, p)]
  }

  /** The packages seen and not queued are the ones in `rest`, and something new was seen if
      anything changed. */
  ghost predicate Queued(g: Search, start: Front, f: Front, rest: set<Id>) {
    start.seen <= f.seen == rest + Ids(f.queue) && (f.seen == start.seen ==> f.queue == start.queue) &&
    f.seen <= start.seen + g.meta.packages.Keys
  }

  lemma QueuedOneMore(g: Search, start: Front, f: Front, f': Front, rest: set<Id>)
    requires Queued(g, start, f, rest) && OneQueued(g, f, f')
    ensures Queued(g, start, f', rest)
  {
    if f'.queue != f.queue {
      var v, p :| v !in f.seen && v in g.meta.packages && f'.seen == f.seen + {v} && f'.queue == f.queue + [(v, p)];
      assert Ids(f'.queue) == Ids(f.queue) + {v};
    }
  }

  /** Every dependency of `current`, in order. */
  method StepOver(g: Search, banned: set<Name>, directOnly: bool, current: Id, path: seq<(Name, Label)>,
                  front: Front, ghost t: Trace, ghost rest: set<Id>)
    returns (next: Front, ghost t': Trace)
    requires Going(g, banned, directOnly, front, t) && current in g.meta.nodes && Queued(g, front, front, rest)
    requires current in t.walks && path == Named(g, t.walks[current]) && t.least == |t.walks[current]|
    ensures Going(g, banned, directOnly, next, t') && Grows(t, t') && Queued(g, front, next, rest)
    ensures Settled(g, banned, directOnly, t'.walks, t'.found, current)
  {
    next, t' := front, t;
    var deps := g.meta.nodes[current];
    for i := 0 to |deps|
      invariant Going(g, banned, directOnly, next, t') && Grows(t, t') && Queued(g, front, next, rest)
      invariant SettledUpTo(g, banned, directOnly, t', current, i)
    {
      ghost var was, before := t', next;
      next, t' := Examine(g, banned, directOnly, current, path, deps[i], next, t');
      QueuedOneMore(g, front, before, next, rest);
      SettledOneMore(g, banned, directOnly, was, t', current, i);
    }
    AllSettled(g, banned, directOnly, t', current);
  }

  lemma DoneOneMore(g: Search, banned: set<Name>, direct: bool, f: Front, t: Trace, u: Id)
    requires Going(g, banned, direct, f, t) && u in t.walks && Settled(g, banned, direct, t.walks, t.found, u)
    ensures Going(g, banned, direct, f, t.(done := t.done + {u}))
  {
  }

  lemma Start(g: Search, banned: set<Name>, direct: bool, crate: Name)
    requires g.root in g.meta.packages && g.meta.packages[g.root] == crate
    ensures Going(g, banned, direct, Front({g.root}, [(g.root, [(crate, WorkspaceMember)])], map[]),
                  Trace(map[g.root := [Hop(g.root, WorkspaceMember)]], map[], {}, 1))
  {
    var f := Front({g.root}, [(g.root, [(crate, WorkspaceMember)])], map[]);
    assert f.queue[0].1 == Named(g, [Hop(g.root, WorkspaceMember)]);
  }

  lemma SearchEnds(g: Search, start: Front, f: Front, rest: set<Id>)
    requires Queued(g, start, f, rest)
    ensures g.meta.packages.Keys - f.seen <= g.meta.packages.Keys - start.seen
    ensures g.meta.packages.Keys - f.seen == g.meta.packages.Keys - start.seen ==> f.queue == start.queue
  {
    if f.seen != start.seen {
      var v :| v in f.seen && v !in start.seen;
      assert v in g.meta.packages.Keys - start.seen;
    }
  }

  /** One turn of the loop: the package at the head of the queue. */
  method NextPackage(g: Search, banned: set<Name>, directOnly: bool, front: Front, ghost t: Trace)
    returns (next: Front, ghost t': Trace)
    requires Going(g, banned, directOnly, front, t) && front.seen == t.done + Ids(front.queue) && front.queue != []
    ensures Going(g, banned, directOnly, next, t') && next.seen == t'.done + Ids(next.queue)
    ensures g.meta.packages.Keys - next.seen <= g.meta.packages.Keys - front.seen
    ensures g.meta.packages.Keys - next.seen == g.meta.packages.Keys - front.seen ==> |next.queue| < |front.queue|
  {
    Advance(g, banned, directOnly, front, t);
    var (current, path) := front.queue[0];
    next := front.(queue := front.queue[1..]);
    ghost var popped := next;
    ghost var rest := t.done + {current};
    t' := t.(least := |t.walks[current]|);
    if current in g.meta.nodes {
      next, t' := StepOver(g, banned, directOnly, current, path, next, t', rest);
    } else {
      AllSettled(g, banned, directOnly, t', current);
    }
    SearchEnds(g, popped, next, rest);
    DoneOneMore(g, banned, directOnly, next, t', current);
    t' := t'.(done := rest);
  }

  method FindViolations(meta: Metadata, crate: Name, banned: set<Name>, ownDev: bool, directOnly: bool)
    returns (report: Report)
    ensures report.CrateMissing? <==> forall i | 0 <= i < |meta.members| :: !IsCalled(meta, meta.members[i], crate)
    ensures report.CrateMissing? <==> Root(meta, meta.members, crate).None?
    ensures forall i: nat | FirstCalled(meta, meta.members, crate, i) ::
      Root(meta, meta.members, crate) == Some(meta.members[i])
    ensures report.Checked? ==>
      Exact(Search(meta, Root(meta, meta.members, crate).value, ownDev), banned, directOnly, report.violations)
    ensures report.Checked? ==>
      ExactOnMetadata(Search(meta, Root(meta, meta.members, crate).value, ownDev), banned, directOnly,
                      report.violations)
  {
    var roots := Root(meta, meta.members, crate);
    RootIsMember(meta, meta.members, crate);
    if roots.None? {
      return CrateMissing;
    }
    var root := roots.value;
    var g := Search(meta, root, ownDev);
    var front := Front({root}, [(root, [(crate, WorkspaceMember)])], map[]);
    ghost var t := Trace(map[root := [Hop(root, WorkspaceMember)]], map[], {}, 1);
    Start(g, banned, directOnly, crate);
    while front.queue != []
      invariant Going(g, banned, directOnly, front, t) && front.seen == t.done + Ids(front.queue)
      decreases meta.packages.Keys - front.seen, |front.queue|
    {
      front, t := NextPackage(g, banned, directOnly, front, t);
    }
    ReportIsExact(g, banned, directOnly, front, t);
    ExactMeansExactOnMetadata(g, banned, directOnly, front.violations);
    report := Checked(front.violations);
  }

  /** With the queue empty and everything settled, the report is exact. */
  lemma ReportIsExact(g: Search, banned: set<Name>, direct: bool, f: Front, t: Trace)
    requires Going(g, banned, direct, f, t) && f.seen == t.done
    ensures Exact(g, banned, direct, f.violations)
  {
    forall w, n | FirstBanned(g, banned, w, n) && (direct ==> |w| == 2)
      ensures n in f.violations && |f.violations[n]| <= |w|
    {
      BannedAreFound(g, banned, direct, t.walks, t.found, w, n);
    }
    forall n | n in f.violations
      ensures exists w :: FirstBanned(g, banned, w, n) && (direct ==> |w| == 2) && f.violations[n] == Named(g, w)
    {
      assert FirstBanned(g, banned, t.found[n], n);
    }
  }

  // -------------------------------------------------------------------------
  // What the report means
  // -------------------------------------------------------------------------

  /** A path to a banned crate has a first banned crate on it. */
  lemma {:induction false} WalksMeetAFirst(g: Search, banned: set<Name>, w: seq<Hop>) returns (k: nat)
    requires IsWalk(g, w) && |w| > 1 && NameOf(g, w[|w| - 1]) in banned
    ensures 1 < k <= |w| && FirstBanned(g, banned, w[..k], NameOf(g, w[k - 1]))
  {
    if i :| 1 <= i < |w| - 1 && NameOf(g, w[i]) in banned {
      var p := w[..i + 1];
      k := WalksMeetAFirst(g, banned, p);
      assert p[..k] == w[..k];
    } else {
      k := |w|;
      assert w[..k] == w;
    }
  }

  /** Though it never walks inside a banned crate, the search reports nothing exactly when no
      banned crate is reachable at all. */
  lemma SilenceMeansUnreachable(g: Search, banned: set<Name>, violations: map<Name, seq<(Name, Label)>>)
    requires Exact(g, banned, false, violations)
    ensures violations == map[] <==> forall w | IsWalk(g, w) && |w| > 1 :: NameOf(g, w[|w| - 1]) !in banned
  {
    if violations == map[] {
      forall w | IsWalk(g, w) && |w| > 1 ensures NameOf(g, w[|w| - 1]) !in banned {
        if NameOf(g, w[|w| - 1]) in banned {
          var k := WalksMeetAFirst(g, banned, w);
        }
      }
    } else {
      var n :| n in violations;
      var w :| FirstBanned(g, banned, w, n) && violations[n] == Named(g, w);
      assert IsWalk(g, w) && NameOf(g, w[|w| - 1]) in banned;
    }
  }

  /** A dev-dependency is stepped over only out of the guarded crate, and only if its own count;
      the workspace hack is never stepped into. */
  lemma DevStepsLeaveTheRoot(g: Search, w: seq<Hop>, i: nat)
    requires IsWalk(g, w) && 1 <= i < |w|
    ensures w[i].via == DevDependency ==> w[i - 1].id == g.root && g.ownDev
    ensures NameOf(g, w[i]) != WORKSPACE_HACK && w[i].via != WorkspaceMember
  {
    assert IsStep(g, w[i - 1].id, w[i]);
  }

  /** Cutting a path short where it comes back to the guarded crate. */
  lemma ShortCut(g: Search, banned: set<Name>, w: seq<Hop>, n: Name, i: nat) returns (v: seq<Hop>)
    requires FirstBanned(g, banned, w, n) && 1 <= i < |w| && w[i - 1].id == g.root
    ensures FirstBanned(g, banned, v, n) && |v| == |w| - i + 1
  {
    v := [w[0]] + w[i..];
    forall k | 1 <= k < |v| ensures IsStep(g, v[k - 1].id, v[k]) && v[k] == w[i + k - 1] {
      assert IsStep(g, w[i + k - 2].id, w[i + k - 1]);
    }
  }

  /** On a reported path only the first step can be a dev-dependency, and only if the guarded crate's
      own count; only the last names a banned crate, and no step the workspace hack. */
  lemma ReportedPathsAreClean(g: Search, banned: set<Name>, direct: bool,
                              violations: map<Name, seq<(Name, Label)>>, n: Name, i: nat)
    requires Exact(g, banned, direct, violations) && n in violations && 1 <= i < |violations[n]|
    ensures violations[n][i].1 == DevDependency ==> i == 1 && g.ownDev
    ensures violations[n][i].0 != WORKSPACE_HACK && violations[n][i].1 != WorkspaceMember
    ensures violations[n][i].0 in banned <==> i == |violations[n]| - 1
  {
    var w: seq<Hop> :| FirstBanned(g, banned, w, n) && (direct ==> |w| == 2) && violations[n] == Named(g, w);
    DevStepsLeaveTheRoot(g, w, i);
    if w[i].via == DevDependency {
      var v := ShortCut(g, banned, w, n, i);
      assert |violations[n]| <= |v|;
    }
  }

  // -------------------------------------------------------------------------
  // The report, on the metadata alone
  // -------------------------------------------------------------------------

  /** A dependency that is built with the crate: no kind listed, or a normal or a build one; or a dev one
      of the guarded crate, if those count. */
  predicate Counts(g: Search, u: Id, dep: Dep) {
    dep.kinds == [] || Normal in dep.kinds || Build in dep.kinds || (Dev in dep.kinds && u == g.root && g.ownDev)
  }

  /** `u` depends on `v`, a known package that is not the workspace hack, and the dependency counts. */
  predicate DependsBy(g: Search, u: Id, v: Id, dep: Dep) {
    u in g.meta.nodes && dep in g.meta.nodes[u] && dep.pkg == v && Counts(g, u, dep) &&
    v in g.meta.packages && g.meta.packages[v] != "postio-workspace-hack"
  }

  /** What the dependency is shown as: normal if it is listed so or as nothing, else build if it is
      listed so, else dev. */
  predicate ShownAs(dep: Dep, via: Label) {
    if dep.kinds == [] || Normal in dep.kinds then via == Dependency
    else if Build in dep.kinds then via == BuildDependency
    else via == DevDependency
  }

  ghost predicate Dependent(g: Search, u: Id, v: Id) { exists dep :: DependsBy(g, u, v, dep) }

  ghost predicate DependentAs(g: Search, u: Id, v: Id, via: Label) {
    exists dep :: DependsBy(g, u, v, dep) && ShownAs(dep, via)
  }

  /** A chain of dependencies from the guarded crate. */
  ghost predicate Depends(g: Search, p: seq<Id>) {
    p != [] && p[0] == g.root && forall i | 1 <= i < |p| :: Dependent(g, p[i - 1], p[i])
  }

  predicate IsBanned(g: Search, banned: set<Name>, v: Id) { v in g.meta.packages && g.meta.packages[v] in banned }

  /** A chain to a crate called `n`, which is banned, with none that is banned before it. */
  ghost predicate MeetsFirst(g: Search, banned: set<Name>, p: seq<Id>, n: Name) {
    Depends(g, p) && |p| > 1 && n in banned && IsCalled(g.meta, p[|p| - 1], n) &&
    forall i | 1 <= i < |p| - 1 :: !IsBanned(g, banned, p[i])
  }

  /** The chain as it is shown: its crates' names, each with what kind of dependency led to it. */
  ghost predicate Shows(g: Search, p: seq<Id>, shown: seq<(Name, Label)>) {
    |shown| == |p| && shown != [] && shown[0].1 == WorkspaceMember &&
    (forall i | 0 <= i < |p| && p[i] in g.meta.packages :: shown[i].0 == g.meta.packages[p[i]]) &&
    forall i | 1 <= i < |p| :: DependentAs(g, p[i - 1], p[i], shown[i].1)
  }

  /** A crate is reported exactly if some chain meets it first, and with one of the shortest such. */
  ghost predicate ExactOnMetadata(g: Search, banned: set<Name>, direct: bool,
                                  violations: map<Name, seq<(Name, Label)>>) {
    (forall n | n in violations :: exists p ::
       MeetsFirst(g, banned, p, n) && (direct ==> |p| == 2) && Shows(g, p, violations[n])) &&
    (forall p, n | MeetsFirst(g, banned, p, n) && (direct ==> |p| == 2) ::
       n in violations && |violations[n]| <= |p|)
  }

  /** A dependency counts exactly if the search steps over it, and is shown for what it is. */
  lemma {:induction false} HopIsDependency(g: Search, u: Id, dep: Dep)
    requires u in g.meta.nodes && dep in g.meta.nodes[u]
    ensures HopOf(g, u, dep).Some? <==> DependsBy(g, u, dep.pkg, dep)
    ensures HopOf(g, u, dep).Some? ==> HopOf(g, u, dep).value.id == dep.pkg && ShownAs(dep, HopOf(g, u, dep).value.via)
  {
    var kinds := KindsOf(dep) * Allowed(g, u);
    assert Normal in kinds <==> dep.kinds == [] || Normal in dep.kinds;
    assert Build in kinds <==> Build in dep.kinds;
    assert Dev in kinds <==> Dev in dep.kinds && u == g.root && g.ownDev;
    assert kinds == {} <==> !(Normal in kinds) && !(Build in kinds) && !(Dev in kinds) by {
      if kinds != {} { var k :| k in kinds; }
    }
  }

  lemma {:induction false} StepIsDependency(g: Search, u: Id, h: Hop)
    requires IsStep(g, u, h)
    ensures Dependent(g, u, h.id) && DependentAs(g, u, h.id, h.via)
    ensures h.id in g.meta.packages && NameOf(g, h) == g.meta.packages[h.id]
  {
    var i :| 0 <= i < |g.meta.nodes[u]| && HopOf(g, u, g.meta.nodes[u][i]) == Some(h);
    var dep := g.meta.nodes[u][i];
    HopIsDependency(g, u, dep);
    assert DependsBy(g, u, h.id, dep) && ShownAs(dep, h.via);
  }

  lemma {:induction false} DependencyIsStep(g: Search, u: Id, v: Id) returns (h: Hop)
    requires Dependent(g, u, v)
    ensures IsStep(g, u, h) && h.id == v
  {
    var dep :| DependsBy(g, u, v, dep);
    HopIsDependency(g, u, dep);
    h := HopOf(g, u, dep).value;
    var i :| 0 <= i < |g.meta.nodes[u]| && g.meta.nodes[u][i] == dep;
    assert HopOf(g, u, g.meta.nodes[u][i]) == Some(h);
  }

  function PackagesOf(w: seq<Hop>): seq<Id> { seq(|w|, i requires 0 <= i < |w| => w[i].id) }

  lemma {:induction false} WalkDepends(g: Search, w: seq<Hop>)
    requires IsWalk(g, w)
    ensures Depends(g, PackagesOf(w)) && (g.root in g.meta.packages ==> Shows(g, PackagesOf(w), Named(g, w)))
    ensures forall i | 1 <= i < |w| :: w[i].id in g.meta.packages && NameOf(g, w[i]) == g.meta.packages[w[i].id]
  {
    var p, shown := PackagesOf(w), Named(g, w);
    forall i | 1 <= i < |w|
      ensures Dependent(g, w[i - 1].id, w[i].id) && DependentAs(g, w[i - 1].id, w[i].id, w[i].via)
      ensures w[i].id in g.meta.packages && NameOf(g, w[i]) == g.meta.packages[w[i].id]
    {
      StepIsDependency(g, w[i - 1].id, w[i]);
    }
    assert forall i | 0 <= i < |w| :: p[i] == w[i].id && shown[i].1 == w[i].via && shown[i].0 == NameOf(g, w[i]);
  }

  lemma {:induction false} FrontDepends(g: Search, p: seq<Id>)
    requires Depends(g, p) && |p| > 1
    ensures Depends(g, p[..|p| - 1]) && Dependent(g, p[|p| - 2], p[|p| - 1])
  {
    var front := p[..|p| - 1];
    forall i | 1 <= i < |front| ensures Dependent(g, front[i - 1], front[i]) {
      assert Dependent(g, p[i - 1], p[i]);
    }
    assert Dependent(g, p[|p| - 2], p[|p| - 1]);
  }

  lemma {:induction false} LongerWalk(g: Search, before: seq<Hop>, h: Hop)
    requires IsWalk(g, before) && IsStep(g, before[|before| - 1].id, h)
    ensures IsWalk(g, before + [h]) && PackagesOf(before + [h]) == PackagesOf(before) + [h.id]
  {
    var w := before + [h];
    forall i | 1 <= i < |w| ensures IsStep(g, w[i - 1].id, w[i]) {
      if i < |before| { assert w[i - 1] == before[i - 1] && w[i] == before[i]; }
    }
  }

  lemma {:induction false} DependsWalk(g: Search, p: seq<Id>) returns (w: seq<Hop>)
    requires Depends(g, p)
    ensures IsWalk(g, w) && PackagesOf(w) == p
  {
    if |p| == 1 {
      w := [Hop(g.root, WorkspaceMember)];
    } else {
      FrontDepends(g, p);
      var before := DependsWalk(g, p[..|p| - 1]);
      assert before[|before| - 1].id == PackagesOf(before)[|before| - 1] == p[|p| - 2];
      var h := DependencyIsStep(g, p[|p| - 2], p[|p| - 1]);
      LongerWalk(g, before, h);
      w := before + [h];
    }
  }

  lemma {:induction false} WalkMeetsFirst(g: Search, banned: set<Name>, w: seq<Hop>, n: Name)
    requires IsWalk(g, w)
    ensures FirstBanned(g, banned, w, n) <==> MeetsFirst(g, banned, PackagesOf(w), n)
  {
    WalkDepends(g, w);
    var p := PackagesOf(w);
    assert forall i | 0 <= i < |p| :: p[i] == w[i].id;
    assert forall i | 1 <= i < |p| :: NameOf(g, w[i]) in banned <==> IsBanned(g, banned, p[i]);
  }

  /** What the search finds exactly, it finds exactly as the metadata has it. */
  lemma {:induction false} ExactMeansExactOnMetadata(g: Search, banned: set<Name>, direct: bool,
                                                     violations: map<Name, seq<(Name, Label)>>)
    requires Exact(g, banned, direct, violations) && g.root in g.meta.packages
    ensures ExactOnMetadata(g, banned, direct, violations)
  {
    forall n | n in violations
      ensures exists p :: MeetsFirst(g, banned, p, n) && (direct ==> |p| == 2) && Shows(g, p, violations[n])
    {
      var w :| FirstBanned(g, banned, w, n) && (direct ==> |w| == 2) && violations[n] == Named(g, w);
      WalkDepends(g, w);
      WalkMeetsFirst(g, banned, w, n);
    }
    forall p, n | MeetsFirst(g, banned, p, n) && (direct ==> |p| == 2)
      ensures n in violations && |violations[n]| <= |p|
    {
      var w := DependsWalk(g, p);
      WalkMeetsFirst(g, banned, w, n);
    }
  }

  /** Nothing is reported exactly when no chain of dependencies, however long, reaches a banned crate. */
  lemma {:induction false} SilenceOnMetadata(g: Search, banned: set<Name>, violations: map<Name, seq<(Name, Label)>>)
    requires Exact(g, banned, false, violations)
    ensures violations == map[] <==> forall p | Depends(g, p) && |p| > 1 :: !IsBanned(g, banned, p[|p| - 1])
  {
    SilenceMeansUnreachable(g, banned, violations);
    forall w: seq<Hop> | IsWalk(g, w) && |w| > 1
      ensures NameOf(g, w[|w| - 1]) in banned <==> IsBanned(g, banned, PackagesOf(w)[|w| - 1])
      ensures Depends(g, PackagesOf(w))
    {
      WalkDepends(g, w);
    }
    forall p | Depends(g, p) && |p| > 1 && violations == map[] ensures !IsBanned(g, banned, p[|p| - 1]) {
      var w := DependsWalk(g, p);
      assert NameOf(g, w[|w| - 1]) !in banned;
    }
    if violations != map[] {
      var w :| IsWalk(g, w) && |w| > 1 && NameOf(g, w[|w| - 1]) in banned;
      assert IsBanned(g, banned, PackagesOf(w)[|w| - 1]);
    }
  }

  /** And of a crate's own list, nothing exactly when none of its own dependencies is banned. */
  lemma {:induction false} DirectSilenceOnMetadata(g: Search, banned: set<Name>,
                                                   violations: map<Name, seq<(Name, Label)>>)
    requires Exact(g, banned, true, violations) && g.root in g.meta.packages
    ensures violations == map[] <==> forall v | Dependent(g, g.root, v) :: !IsBanned(g, banned, v)
  {
    ExactMeansExactOnMetadata(g, banned, true, violations);
    if violations == map[] {
      forall v | Dependent(g, g.root, v) ensures !IsBanned(g, banned, v) {
        if IsBanned(g, banned, v) { assert MeetsFirst(g, banned, [g.root, v], g.meta.packages[v]); }
      }
    } else {
      var n :| n in violations;
      var p :| MeetsFirst(g, banned, p, n) && |p| == 2 && Shows(g, p, violations[n]);
      assert Dependent(g, p[0], p[1]);
    }
  }
}
