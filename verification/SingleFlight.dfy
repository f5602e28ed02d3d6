/**
 * `SingleFlight`: one run of the work per key at a time, and one outcome for everybody waiting.
 *
 * The registry, its watch channels and every call of `run` are one step system. A step is what a
 * thread does between two points where another thread may get in (a lock release) or the caller
 * may go away (an await), so every interleaving of any number of calls is a run of the system.
 */
module SingleFlight {
  import opened Options

  /** A watch channel: the entry's key and the call that leads it are kept beside its contents.
      `version` counts sends; `open` says that the sender is alive. */
  datatype Channel<K, T> = Channel(key: K, leader: nat, value: Option<T>, version: nat, open: bool)

  /** How a call came by its outcome: by leading, from its leader, or by its own work after the
      leader went away. */
  datatype Via = Led | Shared | Alone

  /** Where a call of `run` is. Every phase names the channel the call made or joined. */
  datatype Phase<T> =
    | Leading(ch: nat)                            // the work is running, the guard is held
    | Finished(ch: nat, outcome: T)               // the work is over, the guard is still held
    | Left(ch: nat, outcome: T)                   // out of the registry, nothing sent yet
    | Published(ch: nat, outcome: T)              // sent, the sender is about to go
    | Abandoned(ch: nat)                          // cancelled: the guard is gone, the sender is not
    | Joined(ch: nat, seen: nat, looks: nat)      // about to look at the channel
    | Waiting(ch: nat, seen: nat, looks: nat)     // looked, found nothing, awaits a change
    | Orphaned(ch: nat)                           // no leader any more: its own work is running
    | Done(ch: nat, outcome: T, via: Via)
    | Cancelled(ch: nat)

  datatype Call<K, T> = Call(key: K, phase: Phase<T>)

  datatype State<K, T> = State(calls: seq<Call<K, T>>, channels: seq<Channel<K, T>>, registry: map<K, nat>)

  datatype Event<K, T> =
    | Arrive(key: K)
    | FinishWork(c: nat, outcome: T)
    | Leave(c: nat)
    | Send(c: nat)
    | Return(c: nat)
    | Look(c: nat)
    | Wake(c: nat)
    | Cancel(c: nat)
    | DropSender(c: nat)

  predicate HoldsGuard<T>(p: Phase<T>) { p.Leading? || p.Finished? }

  predicate HoldsSender<T>(p: Phase<T>) {
    p.Leading? || p.Finished? || p.Left? || p.Published? || p.Abandoned?
  }

  predicate Working<T>(p: Phase<T>) { p.Leading? || p.Orphaned? }

  predicate Over<T>(p: Phase<T>) { p.Done? || p.Cancelled? }

  /** The call an event moves exists, and so does its channel. */
  predicate InRange<K, T>(s: State<K, T>, c: nat) {
    c < |s.calls| && s.calls[c].phase.ch < |s.channels|
  }

  /** When a step may be taken. A call can go away only at an await: while it runs work, or while
      it waits for a change. `changed()` answers once there is an unseen value or no sender. */
  predicate Enabled<K, T>(s: State<K, T>, e: Event<K, T>) {
    match e
    case Arrive(_) => true
    case FinishWork(c, _) => InRange(s, c) && Working(s.calls[c].phase)
    case Leave(c) => InRange(s, c) && s.calls[c].phase.Finished?
    case Send(c) => InRange(s, c) && s.calls[c].phase.Left?
    case Return(c) => InRange(s, c) && s.calls[c].phase.Published?
    case Look(c) => InRange(s, c) && s.calls[c].phase.Joined?
    case Wake(c) =>
      InRange(s, c) && s.calls[c].phase.Waiting? &&
      var h := s.channels[s.calls[c].phase.ch];
      h.version != s.calls[c].phase.seen || !h.open
    case Cancel(c) =>
      InRange(s, c) && (Working(s.calls[c].phase) || s.calls[c].phase.Waiting?)
    case DropSender(c) => InRange(s, c) && s.calls[c].phase.Abandoned?
  }

  function At<K, T>(s: State<K, T>, c: nat, p: Phase<T>): State<K, T>
    requires c < |s.calls|
  {
    s.(calls := s.calls[c := s.calls[c].(phase := p)])
  }

  /** Out of the registry, by key: what the guard does however its future ends. */
  function Removed<K, T>(s: State<K, T>, key: K): State<K, T> {
    s.(registry := s.registry - {key})
  }

  function Closed<K, T>(s: State<K, T>, ch: nat): State<K, T>
    requires ch < |s.channels|
  {
    s.(channels := s.channels[ch := s.channels[ch].(open := false)])
  }

  /** The look-up and the claim, one critical section. */
  function Arrived<K, T>(s: State<K, T>, key: K): State<K, T> {
    if key in s.registry then
      s.(calls := s.calls + [Call(key, Joined(s.registry[key], 0, 0))])
    else
      State(s.calls + [Call(key, Leading(|s.channels|))],
            s.channels + [Channel(key, |s.calls|, None, 0, true)],
            s.registry[key := |s.channels|])
  }

  /** The state after a step. */
  function Next<K, T>(s: State<K, T>, e: Event<K, T>): State<K, T>
    requires Enabled(s, e)
  {
    match e
    case Arrive(key) => Arrived(s, key)
    case FinishWork(c, outcome) =>
      var p := s.calls[c].phase;
      if p.Leading? then At(s, c, Finished(p.ch, outcome)) else At(s, c, Done(p.ch, outcome, Alone))
    case Leave(c) =>
      var p := s.calls[c].phase;
      At(Removed(s, s.calls[c].key), c, Left(p.ch, p.outcome))
    case Send(c) =>
      var p := s.calls[c].phase;
      var h := s.channels[p.ch];
      At(s.(channels := s.channels[p.ch := h.(value := Some(p.outcome), version := h.version + 1)]),
         c, Published(p.ch, p.outcome))
    case Return(c) =>
      var p := s.calls[c].phase;
      At(Closed(s, p.ch), c, Done(p.ch, p.outcome, Led))
    case Look(c) =>
      var p := s.calls[c].phase;
      var h := s.channels[p.ch];
      if h.value.Some? then At(s, c, Done(p.ch, h.value.value, Shared))
      else At(s, c, Waiting(p.ch, h.version, p.looks + 1))
    case Wake(c) =>
      var p := s.calls[c].phase;
      if s.channels[p.ch].version != p.seen then At(s, c, Joined(p.ch, p.seen, p.looks))
      else At(s, c, Orphaned(p.ch))
    case Cancel(c) =>
      var p := s.calls[c].phase;
      if p.Leading? then At(Removed(s, s.calls[c].key), c, Abandoned(p.ch)) else At(s, c, Cancelled(p.ch))
    case DropSender(c) =>
      var p := s.calls[c].phase;
      At(Closed(s, p.ch), c, Cancelled(p.ch))
  }

  function Init<K, T>(): State<K, T> { State([], [], map[]) }

  // -------------------------------------------------------------------------
  // What every step keeps
  // -------------------------------------------------------------------------

  /** A channel says what its leader did: nothing sent before the leader's send, that outcome ever
      after, and closed unpublished exactly when the leader was cancelled. */
  ghost predicate ChannelOk<K, T>(s: State<K, T>, i: nat)
    requires i < |s.channels|
  {
    var h := s.channels[i];
    h.leader < |s.calls| &&
    var l := s.calls[h.leader];
    l.key == h.key && l.phase.ch == i &&
    h.version == (if h.value.Some? then 1 else 0) &&
    match l.phase
    case Published(_, v) => h.open && h.value == Some(v)
    case Done(_, v, via) => via == Led && !h.open && h.value == Some(v)
    case Cancelled(_) => !h.open && h.value == None
    case _ => HoldsSender(l.phase) && h.open && h.value == None
  }

  /** A closed channel nothing was ever sent on: its leader went away without answering. */
  predicate Dead<K, T>(h: Channel<K, T>) { !h.open && h.value.None? }

  ghost predicate CallOk<K, T>(s: State<K, T>, c: nat)
    requires c < |s.calls|
  {
    var p := s.calls[c].phase;
    p.ch < |s.channels| &&
    var h := s.channels[p.ch];
    h.key == s.calls[c].key && h.leader <= c &&
    (HoldsGuard(p) ==> h.key in s.registry && s.registry[h.key] == p.ch) &&
    match p
    case Joined(_, seen, looks) => h.leader != c && seen == 0 && (looks == 0 || (looks == 1 && h.value.Some?))
    case Waiting(_, seen, looks) => h.leader != c && seen == 0 && looks == 1
    case Orphaned(_) => h.leader != c && Dead(h)
    case Done(_, v, via) =>
      (via == Led <==> h.leader == c) &&
      (via == Alone ==> Dead(h)) && (via != Alone ==> h.value == Some(v))
    case Cancelled(_) => true
    case _ => h.leader == c
  }

  ghost predicate EntryOk<K, T>(s: State<K, T>, key: K)
    requires key in s.registry
  {
    var i := s.registry[key];
    i < |s.channels| && s.channels[i].key == key && s.channels[i].leader < |s.calls| &&
    HoldsGuard(s.calls[s.channels[i].leader].phase)
  }

  ghost predicate Inv<K(!new), T(!new)>(s: State<K, T>) {
    && (forall i: nat | i < |s.channels| :: ChannelOk(s, i))
    && (forall c: nat | c < |s.calls| :: CallOk(s, c))
    && (forall key | key in s.registry :: EntryOk(s, key))
  }

  lemma ChannelStep<K(!new), T(!new)>(s: State<K, T>, e: Event<K, T>, i: nat)
    requires Inv(s) && Enabled(s, e) && !e.Arrive? && i < |s.channels|
    ensures ChannelOk(Next(s, e), i)
  {
    assert ChannelOk(s, i) && CallOk(s, e.c) && ChannelOk(s, s.calls[e.c].phase.ch);
    assert e.c != s.channels[i].leader || i == s.calls[e.c].phase.ch;
  }

  /** What a step that is no arrival touches: its own call, that call's channel, and the entry of
      its key if it held the guard. */
  lemma StepShape<K(!new), T(!new)>(s: State<K, T>, e: Event<K, T>)
    requires Enabled(s, e) && !e.Arrive?
    ensures var t := Next(s, e); var c, ch := e.c, s.calls[e.c].phase.ch;
      |t.calls| == |s.calls| && |t.channels| == |s.channels| &&
      t.calls[c].key == s.calls[c].key && t.calls[c].phase.ch == ch &&
      (forall d: nat | d < |s.calls| && d != c :: t.calls[d] == s.calls[d]) &&
      (forall i: nat | i < |s.channels| && i != ch :: t.channels[i] == s.channels[i]) &&
      t.channels[ch].key == s.channels[ch].key && t.channels[ch].leader == s.channels[ch].leader &&
      (t.registry == s.registry ||
       (HoldsGuard(s.calls[c].phase) && !HoldsGuard(t.calls[c].phase) &&
        t.registry == s.registry - {s.calls[c].key})) &&
      (t.channels[ch] == s.channels[ch] || HoldsSender(s.calls[c].phase)) &&
      (!s.calls[c].phase.Left? ==> t.channels[ch].value == s.channels[ch].value)
  {
  }

  lemma OwnStep<K(!new), T(!new)>(s: State<K, T>, e: Event<K, T>)
    requires Inv(s) && Enabled(s, e) && !e.Arrive?
    ensures CallOk(Next(s, e), e.c)
  {
    assert CallOk(s, e.c);
    assert ChannelOk(s, s.calls[e.c].phase.ch);
  }

  lemma OtherStep<K(!new), T(!new)>(s: State<K, T>, e: Event<K, T>, d: nat)
    requires Inv(s) && Enabled(s, e) && !e.Arrive? && d < |s.calls| && d != e.c
    ensures CallOk(Next(s, e), d)
  {
    StepShape(s, e);
    assert CallOk(s, d) && CallOk(s, e.c);
    assert ChannelOk(s, s.calls[e.c].phase.ch);
  }

  lemma EntryStep<K(!new), T(!new)>(s: State<K, T>, e: Event<K, T>, key: K)
    requires Inv(s) && Enabled(s, e) && !e.Arrive? && key in Next(s, e).registry
    ensures EntryOk(Next(s, e), key)
  {
    assert EntryOk(s, key) && ChannelOk(s, s.registry[key]) && CallOk(s, e.c);
  }

  lemma ArrivalKeepsInv<K(!new), T(!new)>(s: State<K, T>, key: K)
    requires Inv(s)
    ensures Inv(Arrived(s, key))
  {
    var t := Arrived(s, key);
    if key in s.registry { assert EntryOk(s, key) && ChannelOk(s, s.registry[key]); }
    forall i: nat | i < |t.channels| ensures ChannelOk(t, i) {
      if i < |s.channels| { assert ChannelOk(s, i); }
    }
    forall d: nat | d < |t.calls| ensures CallOk(t, d) {
      if d < |s.calls| { assert CallOk(s, d); }
    }
    forall k | k in t.registry ensures EntryOk(t, k) {
      if k in s.registry { assert EntryOk(s, k); }
    }
  }

  /** Every step keeps the invariant: arrivals, work ending, leaving, sending, looking, waking and
      cancellation at any await. */
  lemma InvStep<K(!new), T(!new)>(s: State<K, T>, e: Event<K, T>)
    requires Inv(s) && Enabled(s, e)
    ensures Inv(Next(s, e))
  {
    if e.Arrive? {
      ArrivalKeepsInv(s, e.key);
    } else {
      var t := Next(s, e);
      assert |t.calls| == |s.calls| && |t.channels| == |s.channels|;
      forall i: nat | i < |t.channels| ensures ChannelOk(t, i) { ChannelStep(s, e, i); }
      forall d: nat | d < |t.calls| ensures CallOk(t, d) {
        if d == e.c { OwnStep(s, e); } else { OtherStep(s, e, d); }
      }
      forall key | key in t.registry ensures EntryOk(t, key) { EntryStep(s, e, key); }
    }
  }

  // -------------------------------------------------------------------------
  // Runs
  // -------------------------------------------------------------------------

  ghost predicate IsRun<K(!new), T(!new)>(ss: seq<State<K, T>>, es: seq<Event<K, T>>) {
    |ss| == |es| + 1 && ss[0] == Init() &&
    forall i | 0 <= i < |es| :: Enabled(ss[i], es[i]) && ss[i + 1] == Next(ss[i], es[i])
  }

  lemma {:induction false} RunKeepsInv<K(!new), T(!new)>(ss: seq<State<K, T>>, es: seq<Event<K, T>>, n: nat)
    requires IsRun(ss, es) && n < |ss|
    ensures Inv(ss[n])
  {
    if n > 0 {
      RunKeepsInv(ss, es, n - 1);
      InvStep(ss[n - 1], es[n - 1]);
    }
  }

  // -------------------------------------------------------------------------
  // The registry
  // -------------------------------------------------------------------------

  /** Call `c` is a live leader of `key`: its work is not over, or it has not left yet. */
  ghost predicate Holds<K(!new), T>(s: State<K, T>, key: K, c: nat) {
    c < |s.calls| && s.calls[c].key == key && HoldsGuard(s.calls[c].phase)
  }

  /** A key is registered exactly when a live leader holds its guard; that leader is the only one,
      and the stored channel is its own. */
  lemma RegistryIsTheLiveLeaders<K(!new), T(!new)>(s: State<K, T>, key: K)
    requires Inv(s)
    ensures key in s.registry <==> exists c: nat :: Holds(s, key, c)
    ensures forall c: nat | Holds(s, key, c) :: key in s.registry && s.registry[key] == s.calls[c].phase.ch
    ensures forall c: nat, d: nat | Holds(s, key, c) && Holds(s, key, d) :: c == d
  {
    forall c: nat | Holds(s, key, c)
      ensures key in s.registry && s.registry[key] == s.calls[c].phase.ch
      ensures s.channels[s.registry[key]].leader == c
    {
      assert CallOk(s, c);
    }
    if key in s.registry {
      assert EntryOk(s, key);
      var i := s.registry[key];
      assert ChannelOk(s, i);
      assert Holds(s, key, s.channels[i].leader);
    }
  }

  /** Leaving, finished or cancelled, removes the leader's own entry and nobody else's. */
  lemma LeavingEvictsOnlyItself<K(!new), T(!new)>(s: State<K, T>, e: Event<K, T>)
    requires Inv(s) && Enabled(s, e)
    requires e.Leave? || (e.Cancel? && s.calls[e.c].phase.Leading?)
    ensures var key := s.calls[e.c].key;
      key in s.registry && s.registry[key] == s.calls[e.c].phase.ch &&
      key !in Next(s, e).registry &&
      (forall other | other != key :: other in s.registry <==> other in Next(s, e).registry) &&
      (forall other | other in Next(s, e).registry :: Next(s, e).registry[other] == s.registry[other]) &&
      forall d: nat :: !Holds(Next(s, e), key, d)
  {
    var key := s.calls[e.c].key;
    assert CallOk(s, e.c);
    InvStep(s, e);
    RegistryIsTheLiveLeaders(Next(s, e), key);
  }

  // -------------------------------------------------------------------------
  // How often the work runs
  // -------------------------------------------------------------------------

  ghost predicate Runs<K(!new), T>(s: State<K, T>, key: K, c: nat) {
    c < |s.calls| && s.calls[c].key == key && Working(s.calls[c].phase)
  }

  /** A leader of `key` was cancelled before it answered, and its sender is gone. */
  ghost predicate LostLeader<K(!new), T>(s: State<K, T>, key: K) {
    exists i: nat :: i < |s.channels| && s.channels[i].key == key && Dead(s.channels[i])
  }

  /** Unless a leader of the key was cancelled, two runs of its work never overlap. */
  lemma RunsNeverOverlap<K(!new), T(!new)>(s: State<K, T>, key: K, c: nat, d: nat)
    requires Inv(s) && Runs(s, key, c) && Runs(s, key, d)
    ensures c == d || s.calls[c].phase.Orphaned? || s.calls[d].phase.Orphaned?
    ensures c == d || LostLeader(s, key)
  {
    assert CallOk(s, c) && CallOk(s, d);
    if s.calls[c].phase.Leading? && s.calls[d].phase.Leading? {
      assert Holds(s, key, c) && Holds(s, key, d);
      RegistryIsTheLiveLeaders(s, key);
    }
  }

  predicate CanRun<K, T>(s: State<K, T>, es: seq<Event<K, T>>)
    decreases es
  {
    es == [] || (Enabled(s, es[0]) && CanRun(Next(s, es[0]), es[1..]))
  }

  function After<K, T>(s: State<K, T>, es: seq<Event<K, T>>): State<K, T>
    requires CanRun(s, es)
    decreases es
  {
    if es == [] then s else After(Next(s, es[0]), es[1..])
  }

  ghost predicate Overlaps<K(!new), T(!new)>(s: State<K, T>, key: K) {
    exists c: nat, d: nat :: c != d && Runs(s, key, c) && Runs(s, key, d)
  }

  predicate NoCancel<K, T>(es: seq<Event<K, T>>) { forall i | 0 <= i < |es| :: !es[i].Cancel? }

  /** With no caller going away any more, two runs of the work for `key` may still overlap. */
  ghost predicate MayOverlap<K(!new), T(!new)>(s: State<K, T>, key: K) {
    exists es: seq<Event<K, T>> :: CanRun(s, es) && NoCancel(es) && Overlaps(After(s, es), key)
  }

  /** Call `c` is orphaned, or follows a leader that went away unanswered. */
  ghost predicate Forsaken<K(!new), T>(s: State<K, T>, key: K, c: nat) {
    c < |s.calls| && s.calls[c].key == key &&
    var p := s.calls[c].phase;
    p.Orphaned? ||
    ((p.Joined? || p.Waiting?) && p.ch < |s.channels| && s.channels[p.ch].leader < |s.calls| &&
     (s.calls[s.channels[p.ch].leader].phase.Abandoned? || s.calls[s.channels[p.ch].leader].phase.Cancelled?))
  }

  lemma ArrivalForsakesNobody<K(!new), T(!new)>(s: State<K, T>, arriving: K, key: K, c: nat)
    requires Inv(s) && Forsaken(Arrived(s, arriving), key, c)
    ensures Forsaken(s, key, c)
  {
    if arriving in s.registry { assert EntryOk(s, arriving); }
    if c < |s.calls| {
      assert CallOk(s, c);
    }
  }

  /** Only a caller that goes away forsakes a follower. */
  lemma ForsakenBefore<K(!new), T(!new)>(s: State<K, T>, e: Event<K, T>, key: K, c: nat)
    requires Inv(s) && Enabled(s, e) && !e.Cancel? && Forsaken(Next(s, e), key, c)
    ensures Forsaken(s, key, c)
  {
    if e.Arrive? {
      ArrivalForsakesNobody(s, e.key, key, c);
    } else {
      StepShape(s, e);
      assert CallOk(s, c) && CallOk(s, e.c);
      assert ChannelOk(s, s.calls[c].phase.ch);
    }
  }

  lemma {:induction false} NobodyIsForsaken<K(!new), T(!new)>(s: State<K, T>, es: seq<Event<K, T>>, key: K)
    requires Inv(s) && CanRun(s, es) && NoCancel(es) && forall c: nat :: !Forsaken(s, key, c)
    ensures !Overlaps(After(s, es), key)
    decreases es
  {
    if es == [] {
      if c: nat, d: nat :| c != d && Runs(s, key, c) && Runs(s, key, d) {
        assert !Forsaken(s, key, c) && !Forsaken(s, key, d);
        RunsNeverOverlap(s, key, c, d);
      }
    } else {
      assert !es[0].Cancel? && NoCancel(es[1..]);
      InvStep(s, es[0]);
      forall c: nat ensures !Forsaken(Next(s, es[0]), key, c) {
        if Forsaken(Next(s, es[0]), key, c) { ForsakenBefore(s, es[0], key, c); }
      }
      NobodyIsForsaken(Next(s, es[0]), es[1..], key);
    }
  }

  lemma RunsOf<K(!new), T(!new)>(s: State<K, T>, e: Event<K, T>, rest: seq<Event<K, T>>)
    requires Enabled(s, e) && CanRun(Next(s, e), rest)
    ensures CanRun(s, [e] + rest) && After(s, [e] + rest) == After(Next(s, e), rest)
  {
    assert ([e] + rest)[1..] == rest;
  }

  lemma AnOverlapEarlier<K(!new), T(!new)>(s: State<K, T>, e: Event<K, T>, key: K)
    requires Enabled(s, e) && !e.Cancel? && MayOverlap(Next(s, e), key)
    ensures MayOverlap(s, key)
  {
    var rest :| CanRun(Next(s, e), rest) && NoCancel(rest) && Overlaps(After(Next(s, e), rest), key);
    var es := [e] + rest;
    RunsOf(s, e, rest);
    assert CanRun(s, es) && NoCancel(es) && Overlaps(After(s, es), key);
  }

  lemma OverlapNow<K(!new), T(!new)>(s: State<K, T>, key: K, c: nat, d: nat)
    requires c != d && Runs(s, key, c) && Runs(s, key, d)
    ensures MayOverlap(s, key)
  {
    var none: seq<Event<K, T>> := [];
    assert CanRun(s, none) && NoCancel(none) && After(s, none) == s && Overlaps(s, key);
  }

  /** Beside an orphan's work a new leader's may run. */
  lemma OrphansOverlap<K(!new), T(!new)>(s: State<K, T>, key: K, c: nat)
    requires Inv(s) && Runs(s, key, c) && s.calls[c].phase.Orphaned?
    ensures MayOverlap(s, key)
    decreases key in s.registry
  {
    if key in s.registry {
      assert EntryOk(s, key) && ChannelOk(s, s.registry[key]);
      var l := s.channels[s.registry[key]].leader;
      assert CallOk(s, l);
      if s.calls[l].phase.Leading? {
        OverlapNow(s, key, c, l);
      } else {
        InvStep(s, Leave(l));
        OrphansOverlap(Next(s, Leave(l)), key, c);
        AnOverlapEarlier(s, Leave(l), key);
      }
    } else {
      OverlapNow(Next(s, Arrive(key)), key, c, |s.calls|);
      AnOverlapEarlier(s, Arrive(key), key);
    }
  }

  /** The next step that takes a forsaken call towards its own work. */
  function TowardsOrphan<K, T>(s: State<K, T>, c: nat): Event<K, T>
    requires InRange(s, c)
  {
    var l := s.channels[s.calls[c].phase.ch].leader;
    if l < |s.calls| && s.calls[l].phase.Abandoned? then DropSender(l)
    else if s.calls[c].phase.Joined? then Look(c)
    else Wake(c)
  }

  lemma ForsakenMove<K(!new), T(!new)>(s: State<K, T>, key: K, c: nat)
    requires Inv(s) && Forsaken(s, key, c) && !s.calls[c].phase.Orphaned?
    ensures InRange(s, c) && Enabled(s, TowardsOrphan(s, c)) && !TowardsOrphan(s, c).Cancel?
    ensures Forsaken(Next(s, TowardsOrphan(s, c)), key, c)
  {
    assert CallOk(s, c) && ChannelOk(s, s.calls[c].phase.ch);
    assert CallOk(s, s.channels[s.calls[c].phase.ch].leader);
  }

  lemma {:induction false} ForsakenOverlap<K(!new), T(!new)>(s: State<K, T>, key: K, c: nat)
    requires Inv(s) && Forsaken(s, key, c)
    ensures MayOverlap(s, key)
    decreases TotalRank(s.calls)
  {
    if s.calls[c].phase.Orphaned? {
      OrphansOverlap(s, key, c);
    } else {
      ForsakenMove(s, key, c);
      var e := TowardsOrphan(s, c);
      InvStep(s, e);
      StepsRankDown(s, e);
      ForsakenOverlap(Next(s, e), key, c);
      AnOverlapEarlier(s, e, key);
    }
  }

  /** If nobody goes away any more, two runs of the work for a key may yet overlap exactly when one
      of its calls has lost its leader: it runs its own work, or follows a leader cancelled
      unanswered. */
  lemma OverlapNeedsAForsakenCall<K(!new), T(!new)>(s: State<K, T>, key: K)
    requires Inv(s)
    ensures MayOverlap(s, key) <==> exists c: nat :: Forsaken(s, key, c)
  {
    if c: nat :| Forsaken(s, key, c) {
      ForsakenOverlap(s, key, c);
    } else if MayOverlap(s, key) {
      var es: seq<Event<K, T>> :| CanRun(s, es) && NoCancel(es) && Overlaps(After(s, es), key);
      NobodyIsForsaken(s, es, key);
    }
  }

  /** Two calls of one key, the second waiting for the first. */
  lemma FollowerWaits<K(!new), T(!new)>(key: K) returns (s: State<K, T>)
    ensures var es: seq<Event<K, T>> := [Arrive(key)] + ([Arrive(key)] + ([Look(1)] + []));
      CanRun(Init(), es) && s == After(Init(), es) && Inv(s)
    ensures |s.calls| == 2 && s.calls[0] == Call(key, Leading(0)) && s.calls[1] == Call(key, Waiting(0, 0, 1))
    ensures |s.channels| == 1 && s.channels[0].leader == 0
  {
    var s0: State<K, T> := Init();
    var s1 := Next(s0, Arrive(key));
    var s2 := Next(s1, Arrive(key));
    s := Next(s2, Look(1));
    RunsOf(s2, Look(1), []);
    RunsOf(s1, Arrive(key), [Look(1)] + []);
    RunsOf(s0, Arrive(key), [Arrive(key)] + ([Look(1)] + []));
    InvStep(s0, Arrive(key));
    InvStep(s1, Arrive(key));
    InvStep(s2, Look(1));
  }

  /** And from the start it comes to that: a leader goes away, its follower runs the work itself, and a
      call that arrives then runs it too. */
  lemma OverlapsHappen<K(!new), T(!new)>(key: K) returns (s: State<K, T>)
    ensures var es: seq<Event<K, T>> := [Arrive(key)] + ([Arrive(key)] + ([Look(1)] + []));
      CanRun(Init(), es) && s == After(Init(), es) && Enabled(s, Cancel(0))
    ensures !MayOverlap(s, key) && MayOverlap(Next(s, Cancel(0)), key)
  {
    s := FollowerWaits(key);
    var t := Next(s, Cancel(0));
    InvStep(s, Cancel(0));
    OverlapNeedsAForsakenCall(s, key);
    assert Forsaken(t, key, 1);
    OverlapNeedsAForsakenCall(t, key);
  }

  /** The flights of `key` so far. */
  ghost function Flights<K(!new), T>(s: State<K, T>, key: K): set<nat> {
    set i: nat | i < |s.channels| && s.channels[i].key == key
  }

  /** The calls of `key` that run their work after a step and did not before it. */
  ghost function Starting<K(!new), T>(s: State<K, T>, t: State<K, T>, key: K): set<nat> {
    set c: nat | c < |t.calls| && Runs(t, key, c) && !Runs(s, key, c)
  }

  /** The calls of `key` whose wait ended, in a step, with the leader gone. */
  ghost function Orphaning<K(!new), T>(s: State<K, T>, t: State<K, T>, key: K): set<nat> {
    set c: nat | c < |s.calls| && c < |t.calls| && s.calls[c].key == key &&
                 s.calls[c].phase.Waiting? && t.calls[c].phase.Orphaned?
  }

  /** How many times the work for `key` was started in the first `n` steps. */
  ghost function Starts<K(!new), T(!new)>(ss: seq<State<K, T>>, key: K, n: nat): nat
    requires n < |ss|
  {
    if n == 0 then 0 else Starts(ss, key, n - 1) + |Starting(ss[n - 1], ss[n], key)|
  }

  /** How many followers of `key` lost their leader in the first `n` steps. */
  ghost function Orphans<K(!new), T(!new)>(ss: seq<State<K, T>>, key: K, n: nat): nat
    requires n < |ss|
  {
    if n == 0 then 0 else Orphans(ss, key, n - 1) + |Orphaning(ss[n - 1], ss[n], key)|
  }

  /** An arrival that leads a flight of `key` starts its work; any other starts none. */
  lemma StartsOnArrival<K(!new), T(!new)>(s: State<K, T>, arriving: K, key: K)
    requires Inv(s)
    ensures var t := Arrived(s, arriving);
      var leads := arriving == key && key !in s.registry;
      Starting(s, t, key) == (if leads then {|s.calls|} else {}) && Orphaning(s, t, key) == {}
  {
    var t := Arrived(s, arriving);
    assert forall c: nat | c < |s.calls| :: t.calls[c] == s.calls[c];
  }

  lemma FlightsOnArrival<K(!new), T(!new)>(s: State<K, T>, arriving: K, key: K)
    ensures var t := Arrived(s, arriving);
      var leads := arriving == key && key !in s.registry;
      |Flights(t, key)| == |Flights(s, key)| + if leads then 1 else 0
  {
    var t := Arrived(s, arriving);
    if arriving == key && key !in s.registry {
      assert Flights(t, key) == Flights(s, key) + {|s.channels|};
    } else {
      assert Flights(t, key) == Flights(s, key);
    }
  }

  lemma StartsInOneStep<K(!new), T(!new)>(s: State<K, T>, e: Event<K, T>, key: K)
    requires Inv(s) && Enabled(s, e)
    ensures var t := Next(s, e);
      |Starting(s, t, key)| + |Flights(s, key)| == |Flights(t, key)| + |Orphaning(s, t, key)|
  {
    if e.Arrive? {
      StartsOnArrival(s, e.key, key);
      FlightsOnArrival(s, e.key, key);
    } else {
      var t := Next(s, e);
      var c := e.c;
      StepShape(s, e);
      assert Flights(t, key) == Flights(s, key) by {
        assert forall i: nat | i < |s.channels| :: t.channels[i].key == s.channels[i].key;
      }
      var p, q := s.calls[c].phase, t.calls[c].phase;
      assert Working(q) ==> p.Waiting? && q.Orphaned?;
      assert forall d: nat :: d in Starting(s, t, key) <==> d == c && d in Orphaning(s, t, key);
      assert forall d: nat :: d in Orphaning(s, t, key) ==> d == c;
      assert Starting(s, t, key) == Orphaning(s, t, key);
    }
  }

  /** The work for a key is started once per flight and once per orphaned follower, in every run. */
  lemma {:induction false} WorkIsCounted<K(!new), T(!new)>(ss: seq<State<K, T>>, es: seq<Event<K, T>>, key: K, n: nat)
    requires IsRun(ss, es) && n < |ss|
    ensures Starts(ss, key, n) == |Flights(ss[n], key)| + Orphans(ss, key, n)
  {
    if n == 0 {
      assert Flights(ss[0], key) == {};
    } else {
      WorkIsCounted(ss, es, key, n - 1);
      RunKeepsInv(ss, es, n - 1);
      StartsInOneStep(ss[n - 1], es[n - 1], key);
    }
  }

  // -------------------------------------------------------------------------
  // No result is lost, and none outlives its flight
  // -------------------------------------------------------------------------

  /** A shared outcome is the one its leader sent; a call is orphaned only by a cancelled leader. */
  lemma OutcomesAreTheLeaders<K(!new), T(!new)>(s: State<K, T>, c: nat)
    requires Inv(s) && c < |s.calls| && s.calls[c].phase.ch < |s.channels|
    ensures var p := s.calls[c].phase; var l := s.channels[p.ch].leader;
      l < |s.calls| && s.calls[l].key == s.calls[c].key && s.calls[l].phase.ch == p.ch &&
      (p.Done? && p.via == Shared ==>
         l != c &&
         (s.calls[l].phase == Published(p.ch, p.outcome) || s.calls[l].phase == Done(p.ch, p.outcome, Led))) &&
      (p.Orphaned? || (p.Done? && p.via == Alone) ==> l != c && s.calls[l].phase.Cancelled?)
  {
    assert CallOk(s, c);
    assert ChannelOk(s, s.calls[c].phase.ch);
  }

  /** Once a leader has sent, no follower of it is ever orphaned or left without that outcome. */
  lemma PublishedReachesEveryFollower<K(!new), T(!new)>(s: State<K, T>, c: nat, l: nat)
    requires Inv(s) && c < |s.calls| && l < |s.calls| && c != l
    requires s.calls[l].phase.ch == s.calls[c].phase.ch
    requires s.calls[l].phase.Published? || (s.calls[l].phase.Done? && s.calls[l].phase.via == Led)
    ensures var p := s.calls[c].phase;
      p.Cancelled? || p == Done(p.ch, s.calls[l].phase.outcome, Shared) ||
      (p.Joined? && Enabled(s, Look(c)) &&
       Next(s, Look(c)).calls[c].phase == Done(p.ch, s.calls[l].phase.outcome, Shared)) ||
      (p.Waiting? && Enabled(s, Wake(c)) && Next(s, Wake(c)).calls[c].phase.Joined?)
  {
    assert CallOk(s, c) && CallOk(s, l);
    assert ChannelOk(s, s.calls[c].phase.ch);
  }

  /** The loop in `run` takes at most two turns: the second look always finds the outcome. */
  lemma AtMostTwoLooks<K(!new), T(!new)>(s: State<K, T>, c: nat)
    requires Inv(s) && Enabled(s, Look(c))
    ensures s.calls[c].phase.looks <= 1
    ensures s.calls[c].phase.looks == 1 ==> Next(s, Look(c)).calls[c].phase.Done?
  {
    assert CallOk(s, c);
  }

  /** A call keeps its key and its channel, and a channel its key and leader, over a whole run. */
  lemma {:induction false} ChannelsStay<K(!new), T(!new)>(ss: seq<State<K, T>>, es: seq<Event<K, T>>, i: nat, n: nat)
    requires IsRun(ss, es) && i <= n < |ss|
    ensures |ss[i].calls| <= |ss[n].calls| && |ss[i].channels| <= |ss[n].channels|
    ensures forall c: nat | c < |ss[i].calls| ::
      ss[n].calls[c].key == ss[i].calls[c].key && ss[n].calls[c].phase.ch == ss[i].calls[c].phase.ch
    ensures forall j: nat | j < |ss[i].channels| ::
      ss[n].channels[j].key == ss[i].channels[j].key && ss[n].channels[j].leader == ss[i].channels[j].leader
    decreases n - i
  {
    if i < n {
      ChannelsStay(ss, es, i, n - 1);
      var s, e := ss[n - 1], es[n - 1];
      assert Enabled(s, e) && ss[n] == Next(s, e);
    }
  }

  /** This is not a cache: a call that returns a shared outcome arrived, at step `i`, while the
      leader that sent it was still registered, so the two calls overlap. */
  lemma SharedMeansOverlapping<K(!new), T(!new)>(
      ss: seq<State<K, T>>, es: seq<Event<K, T>>, i: nat, n: nat, c: nat)
    requires IsRun(ss, es) && i < n < |ss| && es[i].Arrive? && c == |ss[i].calls|
    requires c < |ss[n].calls| && ss[n].calls[c].phase.Done? && ss[n].calls[c].phase.via == Shared
    ensures var p := ss[n].calls[c].phase; var key := es[i].key;
      key in ss[i].registry && ss[i].registry[key] == p.ch && p.ch < |ss[i].channels| &&
      Holds(ss[i], key, ss[i].channels[p.ch].leader)
  {
    var ch, key := ss[n].calls[c].phase.ch, es[i].key;
    assert ss[i + 1] == Next(ss[i], es[i]);
    RunKeepsInv(ss, es, i);
    RunKeepsInv(ss, es, n);
    ChannelsStay(ss, es, i + 1, n);
    assert CallOk(ss[n], c);
    if key in ss[i].registry {
      assert EntryOk(ss[i], key) && ChannelOk(ss[i], ss[i].registry[key]);
    }
  }

  /** A call that arrives after a leader left can never return what that leader sent. */
  lemma LateCallsNeverShare<K(!new), T(!new)>(
      ss: seq<State<K, T>>, es: seq<Event<K, T>>, i: nat, n: nat, c: nat, l: nat)
    requires IsRun(ss, es) && i < n < |ss| && es[i].Arrive? && c == |ss[i].calls| && c < |ss[n].calls|
    requires l < |ss[i].calls| && !HoldsGuard(ss[i].calls[l].phase)
    ensures var p := ss[n].calls[c].phase;
      p.Done? && p.via == Shared && p.ch < |ss[n].channels| ==> ss[n].channels[p.ch].leader != l
  {
    var p := ss[n].calls[c].phase;
    if p.Done? && p.via == Shared {
      SharedMeansOverlapping(ss, es, i, n, c);
      ChannelsStay(ss, es, i, n);
    }
  }

  // -------------------------------------------------------------------------
  // Every call ends
  // -------------------------------------------------------------------------

  /** The most steps a call in this phase still has to take. */
  function Rank<T>(p: Phase<T>): nat {
    match p
    case Leading(_) => 4
    case Finished(_, _) => 3
    case Left(_, _) => 2
    case Published(_, _) => 1
    case Abandoned(_) => 1
    case Joined(_, _, looks) => if looks == 0 then 4 else 2
    case Waiting(_, _, _) => 3
    case Orphaned(_) => 1
    case Done(_, _, _) => 0
    case Cancelled(_) => 0
  }

  function TotalRank<K, T>(calls: seq<Call<K, T>>): nat {
    if calls == [] then 0 else TotalRank(calls[..|calls| - 1]) + Rank(calls[|calls| - 1].phase)
  }

  lemma {:induction false} RankUpdate<K, T>(calls: seq<Call<K, T>>, c: nat, call: Call<K, T>)
    requires c < |calls|
    ensures TotalRank(calls[c := call]) + Rank(calls[c].phase) == TotalRank(calls) + Rank(call.phase)
  {
    var n := |calls| - 1;
    if c == n {
      assert calls[c := call][..n] == calls[..n];
    } else {
      assert calls[c := call][..n] == calls[..n][c := call];
      RankUpdate(calls[..n], c, call);
    }
  }

  /** Every step but an arrival brings its call nearer to its end. */
  lemma StepsRankDown<K(!new), T(!new)>(s: State<K, T>, e: Event<K, T>)
    requires Inv(s) && Enabled(s, e)
    ensures e.Arrive? ==> TotalRank(Next(s, e).calls) <= TotalRank(s.calls) + 4 && |Next(s, e).calls| == |s.calls| + 1
    ensures !e.Arrive? ==> TotalRank(Next(s, e).calls) < TotalRank(s.calls) && |Next(s, e).calls| == |s.calls|
  {
    var t := Next(s, e);
    if e.Arrive? {
      assert t.calls[..|t.calls| - 1] == s.calls;
    } else {
      assert CallOk(s, e.c);
      assert t.calls == s.calls[e.c := t.calls[e.c]];
      RankUpdate(s.calls, e.c, t.calls[e.c]);
    }
  }

  lemma OneStepMore<K(!new), T(!new)>(s: State<K, T>, e: Event<K, T>, n: nat)
    requires Inv(s) && Enabled(s, e) && n + TotalRank(s.calls) <= 5 * |s.calls|
    ensures n + 1 + TotalRank(Next(s, e).calls) <= 5 * |Next(s, e).calls|
  {
    StepsRankDown(s, e);
  }

  /** A run with `m` calls has at most `5 * m` steps, however they interleave. */
  lemma {:induction false} RunsAreBounded<K(!new), T(!new)>(ss: seq<State<K, T>>, es: seq<Event<K, T>>, n: nat)
    requires IsRun(ss, es) && n < |ss|
    ensures n + TotalRank(ss[n].calls) <= 5 * |ss[n].calls|
  {
    if n > 0 {
      RunsAreBounded(ss, es, n - 1);
      RunKeepsInv(ss, es, n - 1);
      OneStepMore(ss[n - 1], es[n - 1], n - 1);
    }
  }

  /** No call is ever stuck: it can take a step of its own, or its leader can. With the bound on
      runs, every call ends once calls stop arriving and each run of the work ends. */
  lemma SomebodyCanMove<K(!new), T(!new)>(s: State<K, T>, c: nat, v: T) returns (e: Event<K, T>)
    requires Inv(s) && c < |s.calls| && !Over(s.calls[c].phase)
    ensures Enabled(s, e) && !e.Arrive? && !e.Cancel?
    ensures e.c == c || (s.calls[c].phase.Waiting? && s.calls[c].phase.ch < |s.channels| &&
                         e.c == s.channels[s.calls[c].phase.ch].leader && HoldsSender(s.calls[e.c].phase))
  {
    assert CallOk(s, c);
    var ch := s.calls[c].phase.ch;
    assert ChannelOk(s, ch);
    var w := if s.calls[c].phase.Waiting? && s.channels[ch].value.None? && s.channels[ch].open
             then s.channels[ch].leader else c;
    assert CallOk(s, w);
    match s.calls[w].phase
    case Leading(_) => e := FinishWork(w, v);
    case Orphaned(_) => e := FinishWork(w, v);
    case Finished(_, _) => e := Leave(w);
    case Left(_, _) => e := Send(w);
    case Published(_, _) => e := Return(w);
    case Abandoned(_) => e := DropSender(w);
    case Joined(_, _, _) => e := Look(w);
    case Waiting(_, _, _) => e := Wake(w);
  }

  // -------------------------------------------------------------------------
  // What a run comes to
  // -------------------------------------------------------------------------

  /** The caller of `c` went away in the first `n` steps. */
  ghost predicate WentAway<K, T(!new)>(es: seq<Event<K, T>>, c: nat, n: nat)
    requires n <= |es|
  {
    exists m | 0 <= m < n :: es[m] == Cancel(c)
  }

  /** The work that `c` ran ended with `v` in the first `n` steps. */
  ghost predicate Worked<K, T(!new)>(es: seq<Event<K, T>>, c: nat, v: T, n: nat)
    requires n <= |es|
  {
    exists m | 0 <= m < n :: es[m] == FinishWork(c, v)
  }

  /** What a call has come to is what happened to it: a call that is gone was cancelled, and an
      outcome it did not get from its leader is the one its own work ended with. */
  ghost predicate Accounted<K(!new), T(!new)>(es: seq<Event<K, T>>, s: State<K, T>, c: nat, n: nat)
    requires n <= |es| && c < |s.calls|
  {
    var p := s.calls[c].phase;
    (p.Abandoned? || p.Cancelled? ==> WentAway(es, c, n)) &&
    (p.Finished? || p.Left? || p.Published? ==> Worked(es, c, p.outcome, n)) &&
    (p.Done? && p.via != Shared ==> Worked(es, c, p.outcome, n))
  }

  lemma {:induction false} AccountedOneMore<K(!new), T(!new)>(es: seq<Event<K, T>>, s: State<K, T>, c: nat, n: nat)
    requires n < |es| && Enabled(s, es[n]) && c < |Next(s, es[n]).calls|
    requires c < |s.calls| ==> Accounted(es, s, c, n)
    ensures Accounted(es, Next(s, es[n]), c, n + 1)
  {
    var e := es[n];
    if e.FinishWork? && e.c == c { assert es[n] == FinishWork(c, e.outcome); }
    if e.Cancel? && e.c == c { assert es[n] == Cancel(c); }
  }

  lemma {:induction false} CallsAreAccountedFor<K(!new), T(!new)>(
      ss: seq<State<K, T>>, es: seq<Event<K, T>>, n: nat, c: nat)
    requires IsRun(ss, es) && n < |ss| && c < |ss[n].calls|
    ensures Accounted(es, ss[n], c, n)
  {
    if n > 0 {
      var s, e := ss[n - 1], es[n - 1];
      assert Enabled(s, e) && ss[n] == Next(s, e);
      if c < |s.calls| { CallsAreAccountedFor(ss, es, n - 1, c); }
      AccountedOneMore(es, s, c, n - 1);
    }
  }

  /** Work that has ended is not thrown away: from then on its call has that outcome, and in the end
      answers with it. */
  ghost predicate Keeps<T>(p: Phase<T>, v: T) {
    (p.Finished? || p.Left? || p.Published? || (p.Done? && p.via != Shared)) && p.outcome == v
  }

  lemma {:induction false} FinishedWorkIsKept<K(!new), T(!new)>(
      ss: seq<State<K, T>>, es: seq<Event<K, T>>, m: nat, n: nat, c: nat, v: T)
    requires IsRun(ss, es) && m < n < |ss| && es[m] == FinishWork(c, v)
    ensures c < |ss[n].calls| && Keeps(ss[n].calls[c].phase, v)
    decreases n
  {
    var s, e := ss[n - 1], es[n - 1];
    assert Enabled(s, e) && ss[n] == Next(s, e);
    if m < n - 1 { FinishedWorkIsKept(ss, es, m, n - 1, c, v); }
  }

  /** Nothing is left to happen but arrivals and cancellations. */
  ghost predicate Settled<K(!new), T(!new)>(s: State<K, T>) {
    forall e: Event<K, T> | Enabled(s, e) :: e.Arrive? || e.Cancel?
  }

  /** Every run that has come to rest: each call whose caller did not go away has an outcome, and it
      is one that work for its key ended with: its leader's if that was published, else its own. */
  lemma EverybodyIsAnswered<K(!new), T(!new)>(ss: seq<State<K, T>>, es: seq<Event<K, T>>, n: nat, c: nat, v: T)
    returns (l: nat)
    requires IsRun(ss, es) && n < |ss| && Settled(ss[n]) && c < |ss[n].calls| && !WentAway(es, c, n)
    ensures ss[n].calls[c].phase.Done? && l < |ss[n].calls| && ss[n].calls[l].key == ss[n].calls[c].key
    ensures Worked(es, l, ss[n].calls[c].phase.outcome, n)
    ensures l != c ==> ss[n].calls[l].phase.Done? && ss[n].calls[l].phase.via == Led
    ensures l == c && ss[n].calls[c].phase.via != Led ==>
      exists d: nat :: d < |ss[n].calls| && d != c && ss[n].calls[d].key == ss[n].calls[c].key && WentAway(es, d, n)
  {
    var s := ss[n];
    RunKeepsInv(ss, es, n);
    CallsAreAccountedFor(ss, es, n, c);
    if !Over(s.calls[c].phase) {
      var e := SomebodyCanMove(s, c, v);
      assert false;
    }
    assert CallOk(s, c);
    OutcomesAreTheLeaders(s, c);
    l := s.channels[s.calls[c].phase.ch].leader;
    CallsAreAccountedFor(ss, es, n, l);
    if s.calls[c].phase.via == Alone {
      assert WentAway(es, l, n);
      l := c;
    } else if s.calls[c].phase.via == Shared && s.calls[l].phase.Published? {
      assert Enabled(s, Return(l));
      assert false;
    }
  }

  /** A call that is under way can go away, unless it is about to take a step without an await. */
  lemma AwaitsCanBeCancelled<K(!new), T(!new)>(s: State<K, T>, c: nat)
    requires Inv(s) && c < |s.calls| && !Over(s.calls[c].phase)
    ensures Enabled(s, Cancel(c)) <==>
            !(Enabled(s, Leave(c)) || Enabled(s, Send(c)) || Enabled(s, Return(c)) || Enabled(s, Look(c)) ||
              Enabled(s, DropSender(c)))
  {
    assert CallOk(s, c);
  }

  // -------------------------------------------------------------------------
  // The critical sections themselves
  // -------------------------------------------------------------------------

  /** The shared state the calls work on, and each stretch of `run`, `lead` and the guard's drop
      between two points where another call may get in. Each does exactly its step of the system. */
  class Registry<K(==,!new), T(!new)> {
    var inflight: map<K, nat>
    var channels: seq<Channel<K, T>>
    var calls: seq<Call<K, T>>

    ghost function Now(): State<K, T>
      reads this
    {
      State(calls, channels, inflight)
    }

    constructor ()
      ensures Now() == Init() && Inv(Now())
    {
      inflight, channels, calls := map[], [], [];
    }

    /** Look the key up and claim it if nobody has, under one lock. */
    method Arrive(key: K) returns (c: nat)
      requires Inv(Now())
      modifies this
      ensures c == |old(calls)| && Now() == Next(old(Now()), Event.Arrive(key)) && Inv(Now())
    {
      ghost var before := Now();
      c := |calls|;
      if key in inflight {
        calls := calls + [Call(key, Joined(inflight[key], 0, 0))];
      } else {
        var receiver := |channels|;
        channels := channels + [Channel(key, c, None, 0, true)];
        inflight := inflight[key := receiver];
        calls := calls + [Call(key, Leading(receiver))];
      }
      InvStep(before, Event.Arrive(key));
    }

    /** The work is over: a leader keeps its guard for now, an orphan answers. */
    method FinishWork(c: nat, outcome: T)
      requires Inv(Now()) && Enabled(Now(), Event.FinishWork(c, outcome))
      modifies `calls
      ensures Now() == Next(old(Now()), Event.FinishWork(c, outcome)) && Inv(Now())
    {
      ghost var before := Now();
      var call := calls[c];
      var over := if call.phase.Leading? then Finished(call.phase.ch, outcome) else Done(call.phase.ch, outcome, Alone);
      calls := calls[c := call.(phase := over)];
      InvStep(before, Event.FinishWork(c, outcome));
    }

    /** The guard is dropped: `remove(&self.key)`. */
    method Leave(c: nat)
      requires Inv(Now()) && Enabled(Now(), Event.Leave(c))
      modifies `calls, `inflight
      ensures Now() == Next(old(Now()), Event.Leave(c)) && Inv(Now())
    {
      ghost var before := Now();
      var call := calls[c];
      inflight := inflight - {call.key};
      calls := calls[c := call.(phase := Left(call.phase.ch, call.phase.outcome))];
      InvStep(before, Event.Leave(c));
    }

    /** Publish to every receiver, the parked ones included. */
    method Send(c: nat)
      requires Inv(Now()) && Enabled(Now(), Event.Send(c))
      modifies `calls, `channels
      ensures Now() == Next(old(Now()), Event.Send(c)) && Inv(Now())
    {
      ghost var before := Now();
      var call := calls[c];
      var watch := channels[call.phase.ch];
      channels := channels[call.phase.ch := watch.(value := Some(call.phase.outcome), version := watch.version + 1)];
      calls := calls[c := call.(phase := Published(call.phase.ch, call.phase.outcome))];
      InvStep(before, Event.Send(c));
    }

    /** `lead` returns, and its sender goes with it. */
    method Return(c: nat) returns (outcome: T)
      requires Inv(Now()) && Enabled(Now(), Event.Return(c))
      modifies `calls, `channels
      ensures Now() == Next(old(Now()), Event.Return(c)) && Inv(Now())
      ensures calls[c].phase == Done(old(calls)[c].phase.ch, outcome, Led)
    {
      ghost var before := Now();
      var call := calls[c];
      outcome := call.phase.outcome;
      channels := channels[call.phase.ch := channels[call.phase.ch].(open := false)];
      calls := calls[c := call.(phase := Done(call.phase.ch, outcome, Led))];
      InvStep(before, Event.Return(c));
    }

    /** `borrow_and_update`: return what was published, or remember having seen nothing. */
    method Look(c: nat) returns (published: Option<T>)
      requires Inv(Now()) && Enabled(Now(), Event.Look(c))
      modifies `calls
      ensures Now() == Next(old(Now()), Event.Look(c)) && Inv(Now())
      ensures published == channels[old(calls)[c].phase.ch].value
    {
      ghost var before := Now();
      var call := calls[c];
      var watch := channels[call.phase.ch];
      published := watch.value;
      var after := match published
        case Some(outcome) => Done(call.phase.ch, outcome, Shared)
        case None => Waiting(call.phase.ch, watch.version, call.phase.looks + 1);
      calls := calls[c := call.(phase := after)];
      InvStep(before, Event.Look(c));
    }

    /** `changed()` answers: true for an unseen value, false for a channel closed without one. */
    method Wake(c: nat) returns (changed: bool)
      requires Inv(Now()) && Enabled(Now(), Event.Wake(c))
      modifies `calls
      ensures Now() == Next(old(Now()), Event.Wake(c)) && Inv(Now())
      ensures changed <==> !Dead(channels[old(calls)[c].phase.ch])
    {
      ghost var before := Now();
      var call := calls[c];
      assert ChannelOk(before, call.phase.ch) && CallOk(before, c);
      changed := channels[call.phase.ch].version != call.phase.seen;
      var after := if changed then Joined(call.phase.ch, call.phase.seen, call.phase.looks)
                   else Orphaned(call.phase.ch);
      calls := calls[c := call.(phase := after)];
      InvStep(before, Event.Wake(c));
    }

    /** The caller goes away at an await: a leader's guard is dropped first, its sender after. */
    method Cancel(c: nat)
      requires Inv(Now()) && Enabled(Now(), Event.Cancel(c))
      modifies `calls, `inflight
      ensures Now() == Next(old(Now()), Event.Cancel(c)) && Inv(Now())
    {
      ghost var before := Now();
      var call := calls[c];
      if call.phase.Leading? {
        inflight := inflight - {call.key};
        calls := calls[c := call.(phase := Abandoned(call.phase.ch))];
      } else {
        calls := calls[c := call.(phase := Cancelled(call.phase.ch))];
      }
      InvStep(before, Event.Cancel(c));
    }

    method DropSender(c: nat)
      requires Inv(Now()) && Enabled(Now(), Event.DropSender(c))
      modifies `calls, `channels
      ensures Now() == Next(old(Now()), Event.DropSender(c)) && Inv(Now())
    {
      ghost var before := Now();
      var call := calls[c];
      channels := channels[call.phase.ch := channels[call.phase.ch].(open := false)];
      calls := calls[c := call.(phase := Cancelled(call.phase.ch))];
      InvStep(before, Event.DropSender(c));
    }
  }
}
