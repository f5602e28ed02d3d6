/**
 * `BrokerTokenSource`: a token cache over `SingleFlight`, checked once outside the flight and once
 * inside it, and emptied by `invalidate`.
 *
 * The broker program is foreign: a run of it ends in a failure or in a text. Runs are numbered as
 * they start, and a token remembers the run that printed it.
 */
module BrokerTokens {
  import opened Options
  import F = SingleFlight

  type Account = string

  datatype Token = Token(text: string, run: nat)

  datatype Outcome = Obtained(token: Token) | Failed

  /** Where the work of a flight or of an orphan is: about to check the cache again, running the
      broker, or holding its answer with no await left before the cache gets it. */
  datatype Stage = Idle | Checking | Brokering(run: nat) | Holding(token: Token)

  /** A call of `access_token`. */
  datatype Progress = Looking | Missed | Flying(call: nat) | Answered(outcome: Outcome)
  datatype Ask = Ask(account: Account, progress: Progress)

  /** What happened so far, per account: tokens put in the cache, tokens `invalidate` took out,
      tokens put in over another, and tokens put in by a follower whose leader went away. */
  datatype Tally = Tally(stored: multiset<Account>, removed: multiset<Account>,
                         overwritten: multiset<Account>, alone: multiset<Account>)

  datatype State = State(flight: F.State<Account, Outcome>, stages: seq<Stage>, cache: map<Account, Token>,
                         asks: seq<Ask>, started: nat, tally: Tally)

  datatype Event =
    | NewAsk(account: Account)
    | LookUp(a: nat)
    | Enter(a: nat)
    | Check(c: nat)
    | BrokerFails(c: nat)
    | BrokerAnswers(c: nat, text: string)
    | Store(c: nat)
    | Fly(step: F.Event<Account, Outcome>)
    | Answer(a: nat)
    | Invalidate(account: Account)

  function Init(): State {
    State(F.Init(), [], map[], [], 0, Tally(multiset{}, multiset{}, multiset{}, multiset{}))
  }

  predicate AtWork(s: State, c: nat) {
    F.InRange(s.flight, c) && c < |s.stages| && F.Working(s.flight.calls[c].phase)
  }

  predicate Enabled(s: State, e: Event) {
    match e
    case NewAsk(_) => true
    case LookUp(a) => a < |s.asks| && s.asks[a].progress.Looking?
    case Enter(a) => a < |s.asks| && s.asks[a].progress.Missed?
    case Check(c) => AtWork(s, c) && s.stages[c].Checking?
    case BrokerFails(c) => AtWork(s, c) && s.stages[c].Brokering?
    case BrokerAnswers(c, _) => AtWork(s, c) && s.stages[c].Brokering?
    case Store(c) => AtWork(s, c) && s.stages[c].Holding?
    case Fly(f) =>
      !f.Arrive? && !f.FinishWork? && F.Enabled(s.flight, f) && f.c < |s.stages| &&
      // The broker run and the wait for a leader are the only awaits.
      (f.Cancel? ==> s.stages[f.c].Brokering? || s.stages[f.c].Idle?)
    case Answer(a) =>
      a < |s.asks| && s.asks[a].progress.Flying? && s.asks[a].progress.call < |s.flight.calls| &&
      s.flight.calls[s.asks[a].progress.call].phase.Done?
    case Invalidate(_) => true
  }

  function WithAsk(s: State, a: nat, p: Progress): State
    requires a < |s.asks|
  {
    s.(asks := s.asks[a := s.asks[a].(progress := p)])
  }

  /** The work of call `c` ends with `outcome`. */
  function WorkEnds(s: State, c: nat, outcome: Outcome): State
    requires AtWork(s, c)
  {
    s.(flight := F.Next(s.flight, F.FinishWork(c, outcome)), stages := s.stages[c := Idle])
  }

  /** The cache after `token` was put in, and the tally of it. */
  function Kept(s: State, account: Account, token: Token, alone: bool): State {
    var t := s.tally;
    s.(cache := s.cache[account := token],
       tally := Tally(t.stored + multiset{account}, t.removed,
                      if account in s.cache then t.overwritten + multiset{account} else t.overwritten,
                      if alone then t.alone + multiset{account} else t.alone))
  }

  function Next(s: State, e: Event): State
    requires Enabled(s, e)
  {
    match e
    case NewAsk(account) => s.(asks := s.asks + [Ask(account, Looking)])
    case LookUp(a) =>
      var account := s.asks[a].account;
      WithAsk(s, a, if account in s.cache then Answered(Obtained(s.cache[account])) else Missed)
    case Enter(a) =>
      var account := s.asks[a].account;
      var leads := account !in s.flight.registry;
      WithAsk(s, a, Flying(|s.flight.calls|)).(
        flight := F.Next(s.flight, F.Arrive(account)),
        stages := s.stages + [if leads then Checking else Idle])
    case Check(c) =>
      var account := s.flight.calls[c].key;
      if account in s.cache then WorkEnds(s, c, Obtained(s.cache[account]))
      else s.(stages := s.stages[c := Brokering(s.started)], started := s.started + 1)
    case BrokerFails(c) => WorkEnds(s, c, Failed)
    case BrokerAnswers(c, text) => s.(stages := s.stages[c := Holding(Token(text, s.stages[c].run))])
    case Store(c) =>
      var token := s.stages[c].token;
      WorkEnds(Kept(s, s.flight.calls[c].key, token, s.flight.calls[c].phase.Orphaned?), c, Obtained(token))
    case Fly(f) =>
      var t := F.Next(s.flight, f);
      var stage := if t.calls[f.c].phase.Orphaned? then Checking
                   else if f.Cancel? then Idle else s.stages[f.c];
      s.(flight := t, stages := s.stages[f.c := stage])
    case Answer(a) => WithAsk(s, a, Answered(s.flight.calls[s.asks[a].progress.call].phase.outcome))
    case Invalidate(account) =>
      if account in s.cache then
        s.(cache := s.cache - {account}, tally := s.tally.(removed := s.tally.removed + multiset{account}))
      else s
  }

  predicate CanRun(s: State, es: seq<Event>)
    decreases es
  {
    es == [] || (Enabled(s, es[0]) && CanRun(Next(s, es[0]), es[1..]))
  }

  function After(s: State, es: seq<Event>): State
    requires CanRun(s, es)
    decreases es
  {
    if es == [] then s else After(Next(s, es[0]), es[1..])
  }

  // -------------------------------------------------------------------------
  // The flight underneath
  // -------------------------------------------------------------------------

  /** The flight step an event takes, if it takes one. */
  function FlightStep(s: State, e: Event): Option<F.Event<Account, Outcome>>
    requires Enabled(s, e)
  {
    match e
    case Enter(a) => Some(F.Arrive(s.asks[a].account))
    case Check(c) =>
      var account := s.flight.calls[c].key;
      if account in s.cache then Some(F.FinishWork(c, Obtained(s.cache[account]))) else None
    case BrokerFails(c) => Some(F.FinishWork(c, Failed))
    case Store(c) => Some(F.FinishWork(c, Obtained(s.stages[c].token)))
    case Fly(f) => Some(f)
    case _ => None
  }

  /** Every step of the token source is a step of the flights, or leaves them alone. */
  lemma FlightsStepToo(s: State, e: Event)
    requires Enabled(s, e)
    ensures match FlightStep(s, e)
      case Some(f) => F.Enabled(s.flight, f) && Next(s, e).flight == F.Next(s.flight, f)
      case None => Next(s, e).flight == s.flight
  {
  }

  // -------------------------------------------------------------------------
  // What every step keeps
  // -------------------------------------------------------------------------

  predicate OldOutcome(o: Outcome, run: nat) { o.Obtained? ==> o.token.run < run }

  /** A stage goes with running work, and names a run that has started. */
  ghost predicate StageOk(s: State, c: nat)
    requires c < |s.stages| == |s.flight.calls|
  {
    var p := s.flight.calls[c].phase;
    (F.Working(p) <==> !s.stages[c].Idle?) &&
    (s.stages[c].Brokering? ==> s.stages[c].run < s.started) &&
    (s.stages[c].Holding? ==> s.stages[c].token.run < s.started) &&
    (p.Finished? ==> OldOutcome(p.outcome, s.started))
  }

  ghost predicate AskOk(s: State, a: nat)
    requires a < |s.asks|
  {
    s.asks[a].progress.Flying? ==>
      s.asks[a].progress.call < |s.flight.calls| &&
      s.flight.calls[s.asks[a].progress.call].key == s.asks[a].account
  }

  /** The registered leader of `account` found the cache empty and has not stored its answer. */
  ghost predicate LeaderPast(s: State, account: Account) {
    account in s.flight.registry && s.flight.registry[account] < |s.flight.channels| &&
    var l := s.flight.channels[s.flight.registry[account]].leader;
    l < |s.stages| && (s.stages[l].Brokering? || s.stages[l].Holding?)
  }

  function One(b: bool): nat { if b then 1 else 0 }

  /** The books of one account balance, and every overwritten token is an orphan's doing. */
  ghost predicate BooksOk(s: State, account: Account) {
    var t := s.tally;
    t.stored[account] == t.removed[account] + t.overwritten[account] + One(account in s.cache) &&
    t.overwritten[account] + One(account in s.cache && LeaderPast(s, account)) <= t.alone[account] &&
    (t.alone[account] > 0 ==> F.LostLeader(s.flight, account))
  }

  ghost predicate Inv(s: State) {
    && F.Inv(s.flight)
    && |s.stages| == |s.flight.calls|
    && (forall c: nat | c < |s.stages| :: StageOk(s, c))
    && (forall a: nat | a < |s.asks| :: AskOk(s, a))
    && (forall account | account in s.cache :: s.cache[account].run < s.started)
    && (forall account: Account :: BooksOk(s, account))
  }

  lemma FlightKept(s: State, e: Event)
    requires Inv(s) && Enabled(s, e)
    ensures F.Inv(Next(s, e).flight) && |Next(s, e).stages| == |Next(s, e).flight.calls|
    ensures |Next(s, e).flight.calls| >= |s.flight.calls|
    ensures forall c: nat | c < |s.flight.calls| :: Next(s, e).flight.calls[c].key == s.flight.calls[c].key
  {
    FlightsStepToo(s, e);
    match FlightStep(s, e)
    case Some(f) => F.InvStep(s.flight, f);
    case None =>
  }

  lemma StagesKeptInFlight(s: State, e: Event, c: nat)
    requires Inv(s) && Enabled(s, e) && e.Fly? && c < |s.stages|
    ensures |Next(s, e).stages| == |s.stages| == |Next(s, e).flight.calls| && StageOk(Next(s, e), c)
  {
    F.StepShape(s.flight, e.step);
    assert StageOk(s, c) && StageOk(s, e.step.c);
    assert F.CallOk(s.flight, e.step.c);
  }

  lemma StagesKept(s: State, e: Event, c: nat)
    requires Inv(s) && Enabled(s, e) && c < |Next(s, e).stages| == |Next(s, e).flight.calls|
    ensures StageOk(Next(s, e), c)
  {
    if e.Fly? {
      StagesKeptInFlight(s, e, c);
    } else if c < |s.stages| {
      assert StageOk(s, c);
    }
  }

  lemma AsksKept(s: State, e: Event, a: nat)
    requires Inv(s) && Enabled(s, e) && a < |Next(s, e).asks|
    ensures AskOk(Next(s, e), a)
  {
    FlightKept(s, e);
    if a < |s.asks| { assert AskOk(s, a); }
  }

  /** A cancelled leader stays cancelled. */
  lemma LostStaysLost(s: State, e: Event, account: Account)
    requires Inv(s) && Enabled(s, e) && F.LostLeader(s.flight, account)
    ensures F.LostLeader(Next(s, e).flight, account)
  {
    var i: nat :| i < |s.flight.channels| && s.flight.channels[i].key == account && F.Dead(s.flight.channels[i]);
    FlightsStepToo(s, e);
    match FlightStep(s, e)
    case None =>
    case Some(f) =>
      assert F.ChannelOk(s.flight, i);
      if !f.Arrive? {
        F.StepShape(s.flight, f);
        assert F.CallOk(s.flight, f.c);
      }
      var t := Next(s, e).flight;
      assert i < |t.channels| && t.channels[i] == s.flight.channels[i];
  }

  /** A leader that stores is past its check no more; the token it overwrites was counted then. */
  lemma LeaderStoreBalances(s: State, c: nat)
    requires Inv(s) && Enabled(s, Store(c)) && s.flight.calls[c].phase.Leading?
    ensures BooksOk(Next(s, Store(c)), s.flight.calls[c].key)
  {
    var t := Next(s, Store(c));
    var key := s.flight.calls[c].key;
    assert BooksOk(s, key) && F.CallOk(s.flight, c);
    assert s.flight.channels[s.flight.registry[key]].leader == c;
    assert LeaderPast(s, key) && !LeaderPast(t, key);
    if F.LostLeader(s.flight, key) { LostStaysLost(s, Store(c), key); }
  }

  /** An orphan that stores pays for whatever it overwrites. */
  lemma OrphanStoreBalances(s: State, c: nat)
    requires Inv(s) && Enabled(s, Store(c)) && s.flight.calls[c].phase.Orphaned?
    ensures BooksOk(Next(s, Store(c)), s.flight.calls[c].key)
  {
    var t := Next(s, Store(c));
    var key := s.flight.calls[c].key;
    assert BooksOk(s, key) && F.CallOk(s.flight, c);
    assert F.Dead(s.flight.channels[s.flight.calls[c].phase.ch]);
    assert F.LostLeader(s.flight, key);
    LostStaysLost(s, Store(c), key);
    if LeaderPast(t, key) { OthersPast(s, Store(c), key); }
  }

  lemma StoreBalances(s: State, c: nat, account: Account)
    requires Inv(s) && Enabled(s, Store(c))
    ensures BooksOk(Next(s, Store(c)), account)
  {
    if account != s.flight.calls[c].key {
      assert BooksOk(s, account);
      if F.LostLeader(s.flight, account) { LostStaysLost(s, Store(c), account); }
      if LeaderPast(Next(s, Store(c)), account) { OthersPast(s, Store(c), account); }
    } else if s.flight.calls[c].phase.Leading? {
      LeaderStoreBalances(s, c);
    } else {
      OrphanStoreBalances(s, c);
    }
  }

  /** A step of the flights takes no leader past the second check. */
  lemma FlightsDoNotPass(s: State, e: Event, account: Account)
    requires Inv(s) && Enabled(s, e) && LeaderPast(Next(s, e), account)
    requires FlightStep(s, e).Some? && !FlightStep(s, e).value.Arrive?
    ensures LeaderPast(s, account)
  {
    var f := FlightStep(s, e).value;
    FlightsStepToo(s, e);
    F.StepShape(s.flight, f);
    var t := Next(s, e);
    assert t.flight.registry[account] == s.flight.registry[account];
    assert F.EntryOk(s.flight, account);
    var l := s.flight.channels[s.flight.registry[account]].leader;
    assert t.flight.channels[t.flight.registry[account]].leader == l;
    assert t.stages[l] == s.stages[l];
  }

  /** No step but its own second check takes a leader past the check. */
  lemma OthersPast(s: State, e: Event, account: Account)
    requires Inv(s) && Enabled(s, e) && LeaderPast(Next(s, e), account)
    ensures LeaderPast(s, account) || (e.Check? && s.flight.calls[e.c].key == account && account !in s.cache)
  {
    if FlightStep(s, e).None? {
      assert F.EntryOk(s.flight, account) && F.ChannelOk(s.flight, s.flight.registry[account]);
    } else if e.Enter? {
      if account in s.flight.registry { assert F.EntryOk(s.flight, account); }
    } else {
      FlightsDoNotPass(s, e, account);
    }
  }

  lemma BooksKept(s: State, e: Event, account: Account)
    requires Inv(s) && Enabled(s, e)
    ensures BooksOk(Next(s, e), account)
  {
    if e.Store? {
      StoreBalances(s, e.c, account);
    } else {
      assert BooksOk(s, account);
      var t := Next(s, e);
      if F.LostLeader(s.flight, account) { LostStaysLost(s, e, account); }
      if LeaderPast(t, account) { OthersPast(s, e, account); }
    }
  }

  /** Every step keeps the invariant, cancellation at either await included. */
  lemma InvStep(s: State, e: Event)
    requires Inv(s) && Enabled(s, e)
    ensures Inv(Next(s, e))
  {
    var t := Next(s, e);
    FlightKept(s, e);
    forall c: nat | c < |t.stages| ensures StageOk(t, c) { StagesKept(s, e, c); }
    forall a: nat | a < |t.asks| ensures AskOk(t, a) { AsksKept(s, e, a); }
    forall account: Account ensures BooksOk(t, account) { BooksKept(s, e, account); }
    forall account | account in t.cache ensures t.cache[account].run < t.started {
      if e.Store? { assert StageOk(s, e.c); }
    }
  }

  lemma InitOk()
    ensures Inv(Init())
  {
  }

  lemma {:induction false} RunKeepsInv(s: State, es: seq<Event>)
    requires Inv(s) && CanRun(s, es)
    ensures Inv(After(s, es))
    decreases es
  {
    if es != [] {
      InvStep(s, es[0]);
      RunKeepsInv(Next(s, es[0]), es[1..]);
    }
  }

  // -------------------------------------------------------------------------
  // Conservation
  // -------------------------------------------------------------------------

  /** In every run, tokens stored = tokens invalidated + tokens overwritten + the one cached now. Only
      an orphan overwrites, and there is none unless a leader of the account was cancelled. */
  lemma BrokerRunsAreConserved(es: seq<Event>, account: Account)
    requires CanRun(Init(), es)
    ensures var s := After(Init(), es); var t := s.tally;
      t.stored[account] == t.removed[account] + t.overwritten[account] + One(account in s.cache) &&
      t.overwritten[account] <= t.alone[account] &&
      (!F.LostLeader(s.flight, account) ==> t.alone[account] == 0)
  {
    InitOk();
    RunKeepsInv(Init(), es);
    assert BooksOk(After(Init(), es), account);
  }

  lemma {:induction false} RunsJoin(s: State, es: seq<Event>, more: seq<Event>)
    requires CanRun(s, es) && CanRun(After(s, es), more)
    ensures CanRun(s, es + more) && After(s, es + more) == After(After(s, es), more)
    decreases es
  {
    if es == [] {
      assert es + more == more;
    } else {
      assert (es + more)[1..] == es[1..] + more;
      RunsJoin(Next(s, es[0]), es[1..], more);
    }
  }

  lemma OneMore(s: State, es: seq<Event>, e: Event) returns (more: seq<Event>)
    requires CanRun(s, es) && Enabled(After(s, es), e)
    ensures more == es + [e] && CanRun(s, more) && After(s, more) == Next(After(s, es), e)
  {
    assert CanRun(After(s, es), [e]);
    RunsJoin(s, es, [e]);
    more := es + [e];
  }

  /** Nothing of the account is cached or registered. */
  predicate Quiet(s: State, account: Account) {
    |s.stages| == |s.flight.calls| && account !in s.cache && account !in s.flight.registry
  }

  /** A new ask finds nothing, leads a flight and starts the broker. */
  lemma LeadsToBroker(s: State, account: Account) returns (es: seq<Event>)
    requires Quiet(s, account)
    ensures CanRun(s, es)
    ensures var t := After(s, es); var c := |s.flight.calls|;
      |t.stages| == |t.flight.calls| == c + 1 && t.cache == s.cache && t.tally == s.tally &&
      t.started == s.started + 1 && t.stages == s.stages + [Brokering(s.started)] &&
      t.flight == F.Arrived(s.flight, account)
  {
    es := OneMore(s, [], NewAsk(account));
    es := OneMore(s, es, LookUp(|s.asks|));
    es := OneMore(s, es, Enter(|s.asks|));
    es := OneMore(s, es, Check(|s.flight.calls|));
  }

  /** Call `c` has the broker running and nothing else of its account is going on, save that it may
      hold the guard. */
  predicate Asking(s: State, account: Account, c: nat) {
    |s.stages| == |s.flight.calls| && AtWork(s, c) && s.stages[c].Brokering? && s.flight.calls[c].key == account
  }

  /** Its answer is stored. */
  lemma AnswerIsStored(s: State, account: Account, c: nat) returns (es: seq<Event>)
    requires Asking(s, account, c)
    ensures CanRun(s, es)
    ensures var t := After(s, es); var p := s.flight.calls[c].phase;
      |t.stages| == |t.flight.calls| == |s.stages| && account in t.cache &&
      t.tally == Kept(s, account, Token("", s.stages[c].run), p.Orphaned?).tally &&
      t.flight == F.Next(s.flight, F.FinishWork(c, Obtained(Token("", s.stages[c].run)))) &&
      t.stages == s.stages[c := Idle]
  {
    es := OneMore(s, [], BrokerAnswers(c, ""));
    es := OneMore(s, es, Store(c));
  }

  /** A new ask leads a flight to its end; calls made earlier are where they were. */
  lemma LeadsAndStores(s: State, account: Account) returns (es: seq<Event>)
    requires Quiet(s, account)
    ensures CanRun(s, es)
    ensures var t := After(s, es); var token := Token("", s.started);
      |t.stages| == |t.flight.calls| > |s.stages| && account in t.cache && account !in t.flight.registry &&
      t.tally == Kept(s, account, token, false).tally && |t.flight.channels| >= |s.flight.channels| &&
      forall d: nat | d < |s.stages| :: t.stages[d] == s.stages[d] && t.flight.calls[d] == s.flight.calls[d]
  {
    var c := |s.flight.calls|;
    es := LeadsToBroker(s, account);
    var leading := After(s, es);
    var storing := AnswerIsStored(leading, account, c);
    RunsJoin(s, es, storing);
    es := OneMore(s, es + storing, Fly(F.Leave(c)));
  }

  /** A follower of a cancelled leader finds nothing in the cache and starts the broker. */
  lemma OrphanAsks(s: State, account: Account) returns (es: seq<Event>)
    requires Quiet(s, account)
    ensures CanRun(s, es)
    ensures var t := After(s, es); var c := |s.flight.calls| + 1;
      Quiet(t, account) && t.tally == s.tally && Asking(t, account, c) && t.flight.calls[c].phase.Orphaned?
  {
    var c := |s.flight.calls|;
    es := LeadsToBroker(s, account);
    var follower := FollowerIsLeft(After(s, es), account, c);
    RunsJoin(s, es, follower);
    es := es + follower;
  }

  lemma FollowerIsLeft(s: State, account: Account, l: nat) returns (es: seq<Event>)
    requires |s.stages| == |s.flight.calls| == l + 1 && account !in s.cache && s.stages[l].Brokering?
    requires s.flight.channels != [] && s.flight.calls[l] == F.Call(account, F.Leading(|s.flight.channels| - 1))
    requires s.flight.channels[|s.flight.channels| - 1] == F.Channel(account, l, None, 0, true)
    requires account in s.flight.registry && s.flight.registry[account] == |s.flight.channels| - 1
    ensures CanRun(s, es)
    ensures var t := After(s, es);
      Quiet(t, account) && t.tally == s.tally && Asking(t, account, l + 1) && t.flight.calls[l + 1].phase.Orphaned?
  {
    var a := |s.asks|;
    es := OneMore(s, [], NewAsk(account));
    es := OneMore(s, es, LookUp(a));
    es := OneMore(s, es, Enter(a));
    es := OneMore(s, es, Fly(F.Look(l + 1)));
    var left := LeaderGoes(After(s, es), account, l);
    RunsJoin(s, es, left);
    es := es + left;
  }

  lemma LeaderGoes(s: State, account: Account, l: nat) returns (es: seq<Event>)
    requires |s.stages| == |s.flight.calls| == l + 2 && account !in s.cache && s.stages[l].Brokering?
    requires s.flight.channels != [] && s.flight.calls[l] == F.Call(account, F.Leading(|s.flight.channels| - 1))
    requires s.flight.channels[|s.flight.channels| - 1] == F.Channel(account, l, None, 0, true)
    requires s.flight.calls[l + 1] == F.Call(account, F.Waiting(|s.flight.channels| - 1, 0, 1)) && s.stages[l + 1].Idle?
    ensures CanRun(s, es)
    ensures var t := After(s, es);
      Quiet(t, account) && t.tally == s.tally && Asking(t, account, l + 1) && t.flight.calls[l + 1].phase.Orphaned?
  {
    es := OneMore(s, [], Fly(F.Cancel(l)));
    es := OneMore(s, es, Fly(F.DropSender(l)));
    es := OneMore(s, es, Fly(F.Wake(l + 1)));
    es := OneMore(s, es, Check(l + 1));
  }

  /** An orphan overwrites what a later leader stored. */
  lemma OrphanOverwrites(s: State, account: Account) returns (es: seq<Event>)
    requires Quiet(s, account)
    ensures CanRun(s, es)
    ensures var t := After(s, es); var u := s.tally; var one := multiset{account};
      |t.stages| == |t.flight.calls| && account in t.cache && account !in t.flight.registry &&
      t.tally == Tally(u.stored + one + one, u.removed, u.overwritten + one, u.alone + one)
  {
    var c := |s.flight.calls| + 1;
    es := OrphanAsks(s, account);
    var orphaned := After(s, es);
    var leading := LeadsAndStores(orphaned, account);
    RunsJoin(s, es, leading);
    es := es + leading;
    var stored := After(s, es);
    var storing := AnswerIsStored(stored, account, c);
    RunsJoin(s, es, storing);
    es := es + storing;
  }

  /** The bound is reached: in some run `n` tokens were overwritten, each by an orphan, and no orphan
      stored any other; so the books are off by as much as orphans can make them. */
  lemma {:induction false} OverwritingIsUnbounded(account: Account, n: nat) returns (es: seq<Event>)
    ensures CanRun(Init(), es)
    ensures var s := After(Init(), es); var t := s.tally;
      t.overwritten[account] == t.alone[account] == n && |s.stages| == |s.flight.calls| &&
      account !in s.flight.registry
  {
    if n == 0 {
      es := [];
    } else {
      es := OverwritingIsUnbounded(account, n - 1);
      es := OneMore(Init(), es, Invalidate(account));
      var round := OrphanOverwrites(After(Init(), es), account);
      RunsJoin(Init(), es, round);
      es := es + round;
    }
  }

  // -------------------------------------------------------------------------
  // Freshness after an invalidation
  // -------------------------------------------------------------------------

  /** No token, or one from a broker run that started at or after number `since`. */
  predicate Fresh(o: Outcome, since: nat) { o.Obtained? ==> o.token.run >= since }

  predicate PhaseFresh(p: F.Phase<Outcome>, since: nat) {
    p.Finished? || p.Left? || p.Published? || p.Done? ==> Fresh(p.outcome, since)
  }

  predicate StageFresh(g: Stage, since: nat) {
    (g.Brokering? ==> g.run >= since) && (g.Holding? ==> g.token.run >= since)
  }

  /** Channel `i` can only carry something fresh. */
  ghost predicate FlightFresh(t: F.State<Account, Outcome>, i: nat, since: nat) {
    i < |t.channels| &&
    var h := t.channels[i];
    (h.value.Some? ==> Fresh(h.value.value, since)) &&
    h.leader < |t.calls| && PhaseFresh(t.calls[h.leader].phase, since)
  }

  ghost predicate ChannelFresh(s: State, i: nat, since: nat) { FlightFresh(s.flight, i, since) }

  /** Call `c` can only end with something fresh. */
  ghost predicate CallFresh(s: State, c: nat, since: nat) {
    c < |s.flight.calls| && ChannelFresh(s, s.flight.calls[c].phase.ch, since) &&
    PhaseFresh(s.flight.calls[c].phase, since)
  }

  ghost predicate AskFresh(s: State, a: nat, since: nat)
    requires a < |s.asks|
  {
    (s.asks[a].progress.Flying? ==> CallFresh(s, s.asks[a].progress.call, since)) &&
    (s.asks[a].progress.Answered? ==> Fresh(s.asks[a].progress.outcome, since))
  }

  /** Every way a token can reach an ask of `account` made at or after `first` is fresh. */
  ghost predicate AllFresh(s: State, account: Account, since: nat, first: nat) {
    && since <= s.started
    && (account in s.cache ==> s.cache[account].run >= since)
    && (forall c: nat | c < |s.stages| && c < |s.flight.calls| && s.flight.calls[c].key == account ::
        StageFresh(s.stages[c], since))
    && (account in s.flight.registry ==> ChannelFresh(s, s.flight.registry[account], since))
    && (forall a: nat | first <= a < |s.asks| && s.asks[a].account == account :: AskFresh(s, a, since))
  }

  /** Work of the account that ends while all is fresh ends with something fresh. */
  lemma WorkEndsFresh(s: State, e: Event, account: Account, since: nat, first: nat)
    requires Inv(s) && Enabled(s, e) && AllFresh(s, account, since, first)
    requires FlightStep(s, e).Some? && FlightStep(s, e).value.FinishWork?
    requires s.flight.calls[FlightStep(s, e).value.c].key == account
    ensures Fresh(FlightStep(s, e).value.outcome, since)
  {
    if e.Store? { assert StageFresh(s.stages[e.c], since); }
  }

  /** In the flights alone: a channel that can only carry something fresh stays so, if its leader's
      work ends with something fresh. */
  lemma FlightKeepsFresh(t: F.State<Account, Outcome>, f: F.Event<Account, Outcome>, i: nat, since: nat)
    requires F.Inv(t) && F.Enabled(t, f) && !f.Arrive? && FlightFresh(t, i, since)
    requires f.FinishWork? && t.calls[f.c].key == t.channels[i].key ==> Fresh(f.outcome, since)
    ensures FlightFresh(F.Next(t, f), i, since)
  {
    F.StepShape(t, f);
    assert F.ChannelOk(t, i);
    if t.channels[i].leader != f.c { assert F.CallOk(t, f.c); }
  }

  lemma ChannelStaysFresh(s: State, e: Event, account: Account, since: nat, first: nat, i: nat)
    requires Inv(s) && Enabled(s, e) && AllFresh(s, account, since, first)
    requires ChannelFresh(s, i, since) && s.flight.channels[i].key == account
    ensures ChannelFresh(Next(s, e), i, since)
  {
    FlightsStepToo(s, e);
    match FlightStep(s, e)
    case None =>
    case Some(f) =>
      if !f.Arrive? {
        if f.FinishWork? && s.flight.calls[f.c].key == account { WorkEndsFresh(s, e, account, since, first); }
        FlightKeepsFresh(s.flight, f, i, since);
      }
  }

  lemma CallStaysFresh(s: State, e: Event, account: Account, since: nat, first: nat, c: nat)
    requires Inv(s) && Enabled(s, e) && AllFresh(s, account, since, first)
    requires CallFresh(s, c, since) && s.flight.calls[c].key == account
    ensures CallFresh(Next(s, e), c, since)
  {
    var i := s.flight.calls[c].phase.ch;
    assert F.CallOk(s.flight, c);
    ChannelStaysFresh(s, e, account, since, first, i);
    FlightsStepToo(s, e);
    match FlightStep(s, e)
    case None =>
    case Some(f) =>
      if !f.Arrive? {
        F.StepShape(s.flight, f);
        if f.FinishWork? && f.c == c { WorkEndsFresh(s, e, account, since, first); }
      }
  }

  /** A call that arrives joins the registered flight, or leads one of its own. */
  lemma ArrivalIsFresh(s: State, a: nat, account: Account, since: nat, first: nat)
    requires Inv(s) && Enabled(s, Enter(a)) && AllFresh(s, account, since, first) && s.asks[a].account == account
    ensures CallFresh(Next(s, Enter(a)), |s.flight.calls|, since)
    ensures account in Next(s, Enter(a)).flight.registry &&
            ChannelFresh(Next(s, Enter(a)), Next(s, Enter(a)).flight.registry[account], since)
  {
    if account in s.flight.registry {
      assert F.EntryOk(s.flight, account);
      ChannelStaysFresh(s, Enter(a), account, since, first, s.flight.registry[account]);
    }
  }

  lemma RegistryStaysFresh(s: State, e: Event, account: Account, since: nat, first: nat)
    requires Inv(s) && Enabled(s, e) && AllFresh(s, account, since, first)
    requires account in Next(s, e).flight.registry
    ensures ChannelFresh(Next(s, e), Next(s, e).flight.registry[account], since)
  {
    if e.Enter? && s.asks[e.a].account == account {
      ArrivalIsFresh(s, e.a, account, since, first);
    } else {
      FlightsStepToo(s, e);
      if FlightStep(s, e).Some? && !FlightStep(s, e).value.Arrive? { F.StepShape(s.flight, FlightStep(s, e).value); }
      assert F.EntryOk(s.flight, account);
      ChannelStaysFresh(s, e, account, since, first, s.flight.registry[account]);
    }
  }

  lemma AskStaysFresh(s: State, e: Event, account: Account, since: nat, first: nat, a: nat)
    requires Inv(s) && Enabled(s, e) && AllFresh(s, account, since, first)
    requires first <= a < |Next(s, e).asks| && Next(s, e).asks[a].account == account
    ensures AskFresh(Next(s, e), a, since)
  {
    if a < |s.asks| {
      assert AskFresh(s, a, since) && AskOk(s, a);
      if e.Enter? && e.a == a {
        ArrivalIsFresh(s, a, account, since, first);
      } else if s.asks[a].progress.Flying? {
        CallStaysFresh(s, e, account, since, first, s.asks[a].progress.call);
      }
    }
  }

  lemma StageStaysFresh(s: State, e: Event, account: Account, since: nat, first: nat, c: nat)
    requires Inv(s) && Enabled(s, e) && AllFresh(s, account, since, first)
    requires c < |Next(s, e).stages| == |Next(s, e).flight.calls| && Next(s, e).flight.calls[c].key == account
    ensures StageFresh(Next(s, e).stages[c], since)
  {
    FlightKept(s, e);
    if c < |s.stages| { assert StageFresh(s.stages[c], since); }
  }

  lemma FreshStep(s: State, e: Event, account: Account, since: nat, first: nat)
    requires Inv(s) && Enabled(s, e) && AllFresh(s, account, since, first)
    ensures AllFresh(Next(s, e), account, since, first)
  {
    var t := Next(s, e);
    FlightKept(s, e);
    forall c: nat | c < |t.stages| && c < |t.flight.calls| && t.flight.calls[c].key == account
      ensures StageFresh(t.stages[c], since)
    {
      StageStaysFresh(s, e, account, since, first, c);
    }
    if account in t.flight.registry { RegistryStaysFresh(s, e, account, since, first); }
    forall a: nat | first <= a < |t.asks| && t.asks[a].account == account ensures AskFresh(t, a, since) {
      AskStaysFresh(s, e, account, since, first, a);
    }
  }

  lemma {:induction false} FreshRun(s: State, es: seq<Event>, account: Account, since: nat, first: nat)
    requires Inv(s) && CanRun(s, es) && AllFresh(s, account, since, first)
    ensures AllFresh(After(s, es), account, since, first)
    decreases es
  {
    if es != [] {
      InvStep(s, es[0]);
      FreshStep(s, es[0], account, since, first);
      FreshRun(Next(s, es[0]), es[1..], account, since, first);
    }
  }

  /** What `invalidate` promises: however things go on, an `access_token` that starts after it
      answers only with a token from a broker run that started after it. */
  ghost predicate Reobtains(s: State, account: Account) {
    forall es | CanRun(Next(s, Invalidate(account)), es) ::
      AnswersFresh(After(Next(s, Invalidate(account)), es), account, s.started, |s.asks|)
  }

  ghost predicate AnswersFresh(s: State, account: Account, since: nat, first: nat) {
    forall a: nat | first <= a < |s.asks| && s.asks[a].account == account && s.asks[a].progress.Answered? ::
      Fresh(s.asks[a].progress.outcome, since)
  }

  /** Call `c` is about to hand on a token that an invalidation now would not reach: its broker run
      is under way or over and not stored, or it still holds the guard over the token it got. */
  predicate InFlight(s: State, account: Account, c: nat) {
    c < |s.flight.calls| && c < |s.stages| && s.flight.calls[c].key == account &&
    (s.stages[c].Brokering? || s.stages[c].Holding? ||
     (s.flight.calls[c].phase.Finished? && s.flight.calls[c].phase.outcome.Obtained?))
  }

  lemma FreshFromNowOn(s: State, account: Account)
    requires Inv(s) && forall c: nat :: !InFlight(s, account, c)
    ensures Reobtains(s, account)
  {
    var t := Next(s, Invalidate(account));
    InvStep(s, Invalidate(account));
    assert AllFresh(t, account, s.started, |s.asks|) by {
      if account in s.flight.registry {
        assert F.EntryOk(s.flight, account);
        var i := s.flight.registry[account];
        assert F.ChannelOk(s.flight, i);
        assert !InFlight(s, account, s.flight.channels[i].leader);
      }
      forall c: nat | c < |s.stages| && s.flight.calls[c].key == account ensures StageFresh(s.stages[c], s.started) {
        assert !InFlight(s, account, c);
      }
    }
    forall es | CanRun(t, es) ensures AnswersFresh(After(t, es), account, s.started, |s.asks|) {
      FreshRun(t, es, account, s.started, |s.asks|);
      var u := After(t, es);
      forall a: nat | |s.asks| <= a < |u.asks| && u.asks[a].account == account && u.asks[a].progress.Answered?
        ensures Fresh(u.asks[a].progress.outcome, s.started)
      {
        assert AskFresh(u, a, s.started);
      }
    }
  }

  lemma RunsOf(s: State, e: Event, rest: seq<Event>)
    requires Enabled(s, e) && CanRun(Next(s, e), rest)
    ensures CanRun(s, [e] + rest) && After(s, [e] + rest) == After(Next(s, e), rest)
  {
    assert ([e] + rest)[1..] == rest;
  }

  /** A token in hand is stored, and the next ask finds it in the cache. */
  lemma HandedOn(s: State, account: Account, c: nat) returns (es: seq<Event>)
    requires |s.stages| == |s.flight.calls| && AtWork(s, c) && s.flight.calls[c].key == account && s.stages[c].Holding?
    ensures CanRun(s, es) && |After(s, es).asks| == |s.asks| + 1
    ensures After(s, es).asks[|s.asks|] == Ask(account, Answered(Obtained(s.stages[c].token)))
  {
    var a := |s.asks|;
    var s3 := Next(s, Store(c));
    var s4 := Next(s3, NewAsk(account));
    RunsOf(s4, LookUp(a), []);
    RunsOf(s3, NewAsk(account), [LookUp(a)] + []);
    RunsOf(s, Store(c), [NewAsk(account)] + ([LookUp(a)] + []));
    es := [Store(c)] + ([NewAsk(account)] + ([LookUp(a)] + []));
  }

  /** A broker run under way when the cache is emptied fills it again, and the next ask gets that. */
  lemma RunningBrokerIsStale(s: State, account: Account, c: nat) returns (es: seq<Event>)
    requires Inv(s) && c < |s.stages| && s.flight.calls[c].key == account
    requires s.stages[c].Brokering? || s.stages[c].Holding?
    ensures CanRun(Next(s, Invalidate(account)), es)
    ensures !AnswersFresh(After(Next(s, Invalidate(account)), es), account, s.started, |s.asks|)
  {
    var s1 := Next(s, Invalidate(account));
    assert StageOk(s, c) && F.CallOk(s.flight, c);
    if s.stages[c].Holding? {
      es := HandedOn(s1, account, c);
    } else {
      var rest := HandedOn(Next(s1, BrokerAnswers(c, "")), account, c);
      RunsOf(s1, BrokerAnswers(c, ""), rest);
      es := [BrokerAnswers(c, "")] + rest;
    }
    assert After(s1, es).asks[|s.asks|].progress.outcome.token.run < s.started;
  }

  /** A follower that has just joined a leader holding its outcome ends with that outcome. */
  lemma JoinedFollowerShares(s: State, l: nat, c: nat, a: nat) returns (es: seq<Event>)
    requires |s.stages| == |s.flight.calls| && l != c && F.InRange(s.flight, l) && F.InRange(s.flight, c)
    requires s.flight.calls[l].phase.Finished?
    requires s.flight.calls[c].phase == F.Joined(s.flight.calls[l].phase.ch, 0, 0)
    requires a < |s.asks| && s.asks[a].progress == Flying(c)
    ensures CanRun(s, es)
    ensures After(s, es).asks == s.asks[a := s.asks[a].(progress := Answered(s.flight.calls[l].phase.outcome))]
  {
    es := OneMore(s, [], Fly(F.Leave(l)));
    es := OneMore(s, es, Fly(F.Send(l)));
    var looking := FollowerLooks(After(s, es), c, a, s.flight.calls[l].phase.outcome);
    RunsJoin(s, es, looking);
    es := es + looking;
  }

  lemma FollowerLooks(s: State, c: nat, a: nat, outcome: Outcome) returns (es: seq<Event>)
    requires |s.stages| == |s.flight.calls| && F.InRange(s.flight, c) && s.flight.calls[c].phase.Joined?
    requires s.flight.channels[s.flight.calls[c].phase.ch].value == Some(outcome)
    requires a < |s.asks| && s.asks[a].progress == Flying(c)
    ensures CanRun(s, es)
    ensures After(s, es).asks == s.asks[a := s.asks[a].(progress := Answered(outcome))]
  {
    es := OneMore(s, [], Fly(F.Look(c)));
    es := OneMore(s, es, Answer(a));
  }

  /** A leader that has its token and not yet left shares it with an ask that starts only now. */
  lemma HeldTokenIsStale(s: State, account: Account, l: nat) returns (es: seq<Event>)
    requires Inv(s) && l < |s.flight.calls| && s.flight.calls[l].key == account
    requires s.flight.calls[l].phase.Finished? && s.flight.calls[l].phase.outcome.Obtained?
    ensures CanRun(Next(s, Invalidate(account)), es)
    ensures !AnswersFresh(After(Next(s, Invalidate(account)), es), account, s.started, |s.asks|)
  {
    assert StageOk(s, l) && F.CallOk(s.flight, l);
    var a, c := |s.asks|, |s.flight.calls|;
    var s1 := Next(s, Invalidate(account));
    var s2 := Next(s1, NewAsk(account));
    var s3 := Next(s2, LookUp(a));
    var s4 := Next(s3, Enter(a));
    var shared := JoinedFollowerShares(s4, l, c, a);
    RunsOf(s3, Enter(a), shared);
    RunsOf(s2, LookUp(a), [Enter(a)] + shared);
    RunsOf(s1, NewAsk(account), [LookUp(a)] + ([Enter(a)] + shared));
    es := [NewAsk(account)] + ([LookUp(a)] + ([Enter(a)] + shared));
    assert After(s1, es).asks[a].progress.outcome.token.run < s.started;
  }

  /** `invalidate` keeps its promise exactly when no token of the account is in flight: neither in
      a broker run that has started, nor in the hands of a leader still registered. */
  lemma InvalidationIsHonouredUnlessInFlight(s: State, account: Account)
    requires Inv(s)
    ensures Reobtains(s, account) <==> forall c: nat :: !InFlight(s, account, c)
  {
    if c: nat :| InFlight(s, account, c) {
      assert StageOk(s, c);
      var es;
      if s.flight.calls[c].phase.Finished? {
        es := HeldTokenIsStale(s, account, c);
      } else {
        es := RunningBrokerIsStale(s, account, c);
      }
    } else {
      FreshFromNowOn(s, account);
    }
  }

  /** The promise is broken in runs from the start: the token source gets by `before` to a state where
      the promise holds no more, and `rest` is a continuation with a stale answer. */
  ghost predicate BreaksPromise(before: seq<Event>, account: Account, rest: seq<Event>) {
    CanRun(Init(), before) && CanRun(Next(After(Init(), before), Invalidate(account)), rest) &&
    var s := After(Init(), before);
    !AnswersFresh(After(Next(s, Invalidate(account)), rest), account, s.started, |s.asks|)
  }

  /** One run, whole: events up to the invalidation, the invalidation, and events after it. */
  lemma BreakIsOneRun(before: seq<Event>, account: Account, rest: seq<Event>)
    requires BreaksPromise(before, account, rest)
    ensures var es := before + ([Invalidate(account)] + rest);
      CanRun(Init(), es) &&
      !AnswersFresh(After(Init(), es), account, After(Init(), before).started, |After(Init(), before).asks|)
  {
    RunsOf(After(Init(), before), Invalidate(account), rest);
    RunsJoin(Init(), before, [Invalidate(account)] + rest);
  }

  /** One ask, and an invalidation while its broker runs: the next ask gets what that run printed. */
  lemma RunningBrokerBreaksPromise(account: Account) returns (before: seq<Event>, rest: seq<Event>)
    ensures BreaksPromise(before, account, rest) && InFlight(After(Init(), before), account, 0)
    ensures After(Init(), before).stages == [Brokering(0)]
  {
    before := LeadsToBroker(Init(), account);
    InitOk();
    RunKeepsInv(Init(), before);
    rest := RunningBrokerIsStale(After(Init(), before), account, 0);
  }

  /** One ask, and an invalidation between the end of its work and its leaving the registry: the next
      ask joins it, and gets the token that was to be forgotten. */
  lemma HeldTokenBreaksPromise(account: Account) returns (before: seq<Event>, rest: seq<Event>)
    ensures BreaksPromise(before, account, rest) && InFlight(After(Init(), before), account, 0)
    ensures After(Init(), before).stages == [Idle] && account in After(Init(), before).cache
  {
    before := LeadsToBroker(Init(), account);
    var stored := AnswerIsStored(After(Init(), before), account, 0);
    RunsJoin(Init(), before, stored);
    before := before + stored;
    InitOk();
    RunKeepsInv(Init(), before);
    rest := HeldTokenIsStale(After(Init(), before), account, 0);
  }

  // -------------------------------------------------------------------------
  // Where every answer comes from
  // -------------------------------------------------------------------------

  ghost predicate IsRun(ss: seq<State>, es: seq<Event>) {
    |ss| == |es| + 1 && ss[0] == Init() &&
    forall i | 0 <= i < |es| :: Enabled(ss[i], es[i]) && ss[i + 1] == Next(ss[i], es[i])
  }

  lemma {:induction false} StatesKeepInv(ss: seq<State>, es: seq<Event>, n: nat)
    requires IsRun(ss, es) && n < |ss|
    ensures Inv(ss[n])
  {
    if n == 0 {
      InitOk();
    } else {
      StatesKeepInv(ss, es, n - 1);
      InvStep(ss[n - 1], es[n - 1]);
    }
  }

  /** At step `m` a call of the account has the broker running, as that run number. */
  ghost predicate BrokerOf(s: State, account: Account, c: nat, run: nat) {
    c < |s.stages| && c < |s.flight.calls| && s.flight.calls[c].key == account && s.stages[c] == Brokering(run)
  }

  /** In the first `n` steps the broker, run for the account, printed the token. */
  ghost predicate Printed(ss: seq<State>, es: seq<Event>, account: Account, token: Token, n: nat)
    requires n <= |es| && |ss| == |es| + 1
  {
    exists m, c: nat | 0 <= m < n :: es[m] == BrokerAnswers(c, token.text) && BrokerOf(ss[m], account, c, token.run)
  }

  /** In the first `n` steps the broker, run for the account, failed. */
  ghost predicate BrokerFailed(ss: seq<State>, es: seq<Event>, account: Account, n: nat)
    requires n <= |es| && |ss| == |es| + 1
  {
    exists m, c: nat, run: nat | 0 <= m < n :: es[m] == BrokerFails(c) && BrokerOf(ss[m], account, c, run)
  }

  ghost predicate ComesFromBroker(ss: seq<State>, es: seq<Event>, account: Account, o: Outcome, n: nat)
    requires n <= |es| && |ss| == |es| + 1
  {
    match o
    case Obtained(token) => Printed(ss, es, account, token, n)
    case Failed => BrokerFailed(ss, es, account, n)
  }

  predicate HasOutcome(p: F.Phase<Outcome>) { p.Finished? || p.Left? || p.Published? || p.Done? }

  /** Every token and every failure there is, wherever it is, came from the account's broker. */
  ghost predicate Traced(ss: seq<State>, es: seq<Event>, s: State, n: nat)
    requires n <= |es| && |ss| == |es| + 1
  {
    && (forall account | account in s.cache :: Printed(ss, es, account, s.cache[account], n))
    && (forall c: nat | c < |s.stages| && c < |s.flight.calls| && s.stages[c].Holding? ::
          Printed(ss, es, s.flight.calls[c].key, s.stages[c].token, n))
    && (forall c: nat | c < |s.flight.calls| && HasOutcome(s.flight.calls[c].phase) ::
          ComesFromBroker(ss, es, s.flight.calls[c].key, s.flight.calls[c].phase.outcome, n))
    && (forall i: nat | i < |s.flight.channels| && s.flight.channels[i].value.Some? ::
          ComesFromBroker(ss, es, s.flight.channels[i].key, s.flight.channels[i].value.value, n))
    && (forall a: nat | a < |s.asks| && s.asks[a].progress.Answered? ::
          ComesFromBroker(ss, es, s.asks[a].account, s.asks[a].progress.outcome, n))
  }

  lemma {:induction false} ComesFromBrokerStill(ss: seq<State>, es: seq<Event>, account: Account, o: Outcome, n: nat)
    requires n < |es| && |ss| == |es| + 1 && ComesFromBroker(ss, es, account, o, n)
    ensures ComesFromBroker(ss, es, account, o, n + 1)
  {
  }

  /** A step that ends work, ends it with something from the broker. */
  lemma {:induction false} WorkEndsTraced(ss: seq<State>, es: seq<Event>, n: nat)
    requires IsRun(ss, es) && n < |es| && Inv(ss[n]) && Traced(ss, es, ss[n], n)
    requires FlightStep(ss[n], es[n]).Some? && FlightStep(ss[n], es[n]).value.FinishWork?
    ensures var f := FlightStep(ss[n], es[n]).value; var calls := ss[n].flight.calls;
      f.c < |calls| && ComesFromBroker(ss, es, calls[f.c].key, f.outcome, n + 1)
  {
    var s, e := ss[n], es[n];
    var key := s.flight.calls[e.c].key;
    if e.BrokerFails? {
      assert es[n] == BrokerFails(e.c) && BrokerOf(ss[n], key, e.c, s.stages[e.c].run);
    } else if e.Check? {
      ComesFromBrokerStill(ss, es, key, Obtained(s.cache[key]), n);
    } else {
      ComesFromBrokerStill(ss, es, key, Obtained(s.stages[e.c].token), n);
    }
  }

  lemma {:induction false} CacheTraced(ss: seq<State>, es: seq<Event>, n: nat, account: Account)
    requires IsRun(ss, es) && n < |es| && Inv(ss[n]) && Traced(ss, es, ss[n], n) && account in ss[n + 1].cache
    ensures Printed(ss, es, account, ss[n + 1].cache[account], n + 1)
  {
    assert Enabled(ss[n], es[n]) && ss[n + 1] == Next(ss[n], es[n]);
    if es[n].Store? { assert Printed(ss, es, ss[n].flight.calls[es[n].c].key, ss[n].stages[es[n].c].token, n); }
    ComesFromBrokerStill(ss, es, account, Obtained(ss[n + 1].cache[account]), n);
  }

  lemma {:induction false} StageTraced(ss: seq<State>, es: seq<Event>, n: nat, c: nat)
    requires IsRun(ss, es) && n < |es| && Inv(ss[n]) && Traced(ss, es, ss[n], n)
    requires c < |ss[n + 1].stages| && c < |ss[n + 1].flight.calls| && ss[n + 1].stages[c].Holding?
    ensures Printed(ss, es, ss[n + 1].flight.calls[c].key, ss[n + 1].stages[c].token, n + 1)
  {
    var s, e := ss[n], es[n];
    assert Enabled(s, e) && ss[n + 1] == Next(s, e);
    FlightKept(s, e);
    if e.BrokerAnswers? && e.c == c {
      assert es[n] == BrokerAnswers(c, e.text) && BrokerOf(ss[n], s.flight.calls[c].key, c, s.stages[c].run);
    } else {
      assert c < |s.stages| && s.stages[c] == ss[n + 1].stages[c];
      ComesFromBrokerStill(ss, es, s.flight.calls[c].key, Obtained(s.stages[c].token), n);
    }
  }

  lemma {:induction false} AskTraced(ss: seq<State>, es: seq<Event>, n: nat, a: nat)
    requires IsRun(ss, es) && n < |es| && Inv(ss[n]) && Traced(ss, es, ss[n], n)
    requires a < |ss[n + 1].asks| && ss[n + 1].asks[a].progress.Answered?
    ensures ComesFromBroker(ss, es, ss[n + 1].asks[a].account, ss[n + 1].asks[a].progress.outcome, n + 1)
  {
    var s, e := ss[n], es[n];
    assert Enabled(s, e) && ss[n + 1] == Next(s, e);
    assert a < |s.asks| && AskOk(s, a);
    var o := ss[n + 1].asks[a].progress.outcome;
    assert ComesFromBroker(ss, es, s.asks[a].account, o, n);
    ComesFromBrokerStill(ss, es, s.asks[a].account, o, n);
  }

  /** In the flights: a step moves outcomes about, and only the end of work brings a new one. */
  lemma {:induction false} OutcomeMoves(t: F.State<Account, Outcome>, f: F.Event<Account, Outcome>, c: nat)
    requires F.Inv(t) && F.Enabled(t, f) && c < |F.Next(t, f).calls| && HasOutcome(F.Next(t, f).calls[c].phase)
    ensures var o := F.Next(t, f).calls[c].phase.outcome; var key := F.Next(t, f).calls[c].key;
      (c < |t.calls| && t.calls[c].key == key && HasOutcome(t.calls[c].phase) && t.calls[c].phase.outcome == o) ||
      (exists i: nat :: i < |t.channels| && t.channels[i].key == key && t.channels[i].value == Some(o)) ||
      (c < |t.calls| && t.calls[c].key == key && f == F.FinishWork(c, o))
  {
    if !f.Arrive? {
      F.StepShape(t, f);
      assert F.CallOk(t, c);
      var i := t.calls[c].phase.ch;
      assert i < |t.channels| && t.channels[i].key == t.calls[c].key;
    }
  }

  lemma {:induction false} ValueMoves(t: F.State<Account, Outcome>, f: F.Event<Account, Outcome>, i: nat)
    requires F.Inv(t) && F.Enabled(t, f) && i < |F.Next(t, f).channels| && F.Next(t, f).channels[i].value.Some?
    ensures var o := F.Next(t, f).channels[i].value.value; var key := F.Next(t, f).channels[i].key;
      i < |t.channels| && t.channels[i].key == key &&
      (t.channels[i].value == Some(o) ||
       exists c: nat :: c < |t.calls| && t.calls[c].key == key && HasOutcome(t.calls[c].phase) &&
                        t.calls[c].phase.outcome == o)
  {
    if !f.Arrive? {
      F.StepShape(t, f);
      assert F.CallOk(t, f.c);
    }
  }

  lemma {:induction false} CallTraced(ss: seq<State>, es: seq<Event>, n: nat, c: nat)
    requires IsRun(ss, es) && n < |es| && Inv(ss[n]) && Traced(ss, es, ss[n], n)
    requires c < |ss[n + 1].flight.calls| && HasOutcome(ss[n + 1].flight.calls[c].phase)
    ensures ComesFromBroker(ss, es, ss[n + 1].flight.calls[c].key, ss[n + 1].flight.calls[c].phase.outcome, n + 1)
  {
    var s, e := ss[n], es[n];
    assert Enabled(s, e) && ss[n + 1] == Next(s, e);
    var call := ss[n + 1].flight.calls[c];
    FlightsStepToo(s, e);
    match FlightStep(s, e)
    case None =>
      ComesFromBrokerStill(ss, es, call.key, call.phase.outcome, n);
    case Some(f) =>
      OutcomeMoves(s.flight, f, c);
      if f == F.FinishWork(c, call.phase.outcome) {
        WorkEndsTraced(ss, es, n);
      } else {
        assert ComesFromBroker(ss, es, call.key, call.phase.outcome, n);
        ComesFromBrokerStill(ss, es, call.key, call.phase.outcome, n);
      }
  }

  lemma {:induction false} ChannelTraced(ss: seq<State>, es: seq<Event>, n: nat, i: nat)
    requires IsRun(ss, es) && n < |es| && Inv(ss[n]) && Traced(ss, es, ss[n], n)
    requires i < |ss[n + 1].flight.channels| && ss[n + 1].flight.channels[i].value.Some?
    ensures ComesFromBroker(ss, es, ss[n + 1].flight.channels[i].key, ss[n + 1].flight.channels[i].value.value, n + 1)
  {
    var s, e := ss[n], es[n];
    assert Enabled(s, e) && ss[n + 1] == Next(s, e);
    var h := ss[n + 1].flight.channels[i];
    FlightsStepToo(s, e);
    if FlightStep(s, e).Some? { ValueMoves(s.flight, FlightStep(s, e).value, i); }
    assert ComesFromBroker(ss, es, h.key, h.value.value, n);
    ComesFromBrokerStill(ss, es, h.key, h.value.value, n);
  }

  lemma {:induction false} EverythingIsTraced(ss: seq<State>, es: seq<Event>, n: nat)
    requires IsRun(ss, es) && n < |ss|
    ensures Traced(ss, es, ss[n], n)
  {
    if n > 0 {
      EverythingIsTraced(ss, es, n - 1);
      StatesKeepInv(ss, es, n - 1);
      var t := ss[n];
      forall account | account in t.cache ensures Printed(ss, es, account, t.cache[account], n) {
        CacheTraced(ss, es, n - 1, account);
      }
      forall c: nat | c < |t.stages| && c < |t.flight.calls| && t.stages[c].Holding?
        ensures Printed(ss, es, t.flight.calls[c].key, t.stages[c].token, n)
      {
        StageTraced(ss, es, n - 1, c);
      }
      forall c: nat | c < |t.flight.calls| && HasOutcome(t.flight.calls[c].phase)
        ensures ComesFromBroker(ss, es, t.flight.calls[c].key, t.flight.calls[c].phase.outcome, n)
      {
        CallTraced(ss, es, n - 1, c);
      }
      forall i: nat | i < |t.flight.channels| && t.flight.channels[i].value.Some?
        ensures ComesFromBroker(ss, es, t.flight.channels[i].key, t.flight.channels[i].value.value, n)
      {
        ChannelTraced(ss, es, n - 1, i);
      }
      forall a: nat | a < |t.asks| && t.asks[a].progress.Answered?
        ensures ComesFromBroker(ss, es, t.asks[a].account, t.asks[a].progress.outcome, n)
      {
        AskTraced(ss, es, n - 1, a);
      }
    }
  }

  /** In every run, an ask that was answered with a token was answered with what the broker, run for
      its account, printed in that very run; and one that was answered with a failure, after the broker,
      run for its account, failed. */
  lemma {:induction false} AnswersComeFromTheBroker(ss: seq<State>, es: seq<Event>, n: nat, a: nat)
    requires IsRun(ss, es) && n < |ss| && a < |ss[n].asks| && ss[n].asks[a].progress.Answered?
    ensures match ss[n].asks[a].progress.outcome
      case Obtained(token) => Printed(ss, es, ss[n].asks[a].account, token, n)
      case Failed => BrokerFailed(ss, es, ss[n].asks[a].account, n)
  {
    EverythingIsTraced(ss, es, n);
  }

  /** Ask `a` waits for its call `c`, or was answered with what that came to. */
  ghost predicate Follows(s: State, a: nat, account: Account, c: nat) {
    a < |s.asks| && s.asks[a].account == account &&
    (s.asks[a].progress == Flying(c) ||
     (c < |s.flight.calls| && s.flight.calls[c].phase.Done? &&
      s.asks[a].progress == Answered(s.flight.calls[c].phase.outcome)))
  }

  lemma {:induction false} StillFollows(s: State, e: Event, a: nat, account: Account, c: nat)
    requires Inv(s) && Enabled(s, e) && Follows(s, a, account, c)
    ensures Follows(Next(s, e), a, account, c)
  {
    DoneStaysDone(s, e, c);
  }

  /** An ask that went into a flight is answered with what its call came to. */
  lemma {:induction false} AsksAnswerWithTheirCalls(ss: seq<State>, es: seq<Event>, k: nat, n: nat, a: nat)
    requires IsRun(ss, es) && k <= n < |ss| && a < |ss[k].asks| && ss[k].asks[a].progress.Flying?
    ensures Follows(ss[n], a, ss[k].asks[a].account, ss[k].asks[a].progress.call)
    decreases n
  {
    if k < n {
      AsksAnswerWithTheirCalls(ss, es, k, n - 1, a);
      StatesKeepInv(ss, es, n - 1);
      StillFollows(ss[n - 1], es[n - 1], a, ss[k].asks[a].account, ss[k].asks[a].progress.call);
    }
  }

  lemma {:induction false} DoneStaysDone(s: State, e: Event, c: nat)
    requires Inv(s) && Enabled(s, e)
    ensures c < |s.flight.calls| && s.flight.calls[c].phase.Done? ==>
      c < |Next(s, e).flight.calls| && Next(s, e).flight.calls[c] == s.flight.calls[c]
  {
    FlightsStepToo(s, e);
    if FlightStep(s, e).Some? && !FlightStep(s, e).value.Arrive? { F.StepShape(s.flight, FlightStep(s, e).value); }
  }

  // -------------------------------------------------------------------------
  // The tally is the history
  // -------------------------------------------------------------------------

  /** How many tokens calls of the account put in the cache in the first `n` steps. */
  ghost function Stores(ss: seq<State>, es: seq<Event>, account: Account, n: nat): nat
    requires n <= |es| && |ss| == |es| + 1
  {
    if n == 0 then 0
    else
      var s, e := ss[n - 1], es[n - 1];
      Stores(ss, es, account, n - 1) +
      One(e.Store? && e.c < |s.flight.calls| && s.flight.calls[e.c].key == account)
  }

  /** How many of these were put in by a follower whose leader was gone. */
  ghost function AloneStores(ss: seq<State>, es: seq<Event>, account: Account, n: nat): nat
    requires n <= |es| && |ss| == |es| + 1
  {
    if n == 0 then 0
    else
      var s, e := ss[n - 1], es[n - 1];
      AloneStores(ss, es, account, n - 1) +
      One(e.Store? && e.c < |s.flight.calls| && s.flight.calls[e.c].key == account &&
          s.flight.calls[e.c].phase.Orphaned?)
  }

  /** How many invalidations of the account found a token in the first `n` steps. */
  ghost function Removals(ss: seq<State>, es: seq<Event>, account: Account, n: nat): nat
    requires n <= |es| && |ss| == |es| + 1
  {
    if n == 0 then 0
    else
      Removals(ss, es, account, n - 1) + One(es[n - 1] == Invalidate(account) && account in ss[n - 1].cache)
  }

  lemma {:induction false} TallyIsHistory(ss: seq<State>, es: seq<Event>, account: Account, n: nat)
    requires IsRun(ss, es) && n < |ss|
    ensures ss[n].tally.stored[account] == Stores(ss, es, account, n)
    ensures ss[n].tally.removed[account] == Removals(ss, es, account, n)
    ensures ss[n].tally.alone[account] == AloneStores(ss, es, account, n)
  {
    if n > 0 {
      TallyIsHistory(ss, es, account, n - 1);
      assert Enabled(ss[n - 1], es[n - 1]) && ss[n] == Next(ss[n - 1], es[n - 1]);
    }
  }

  /** In every run, told by its events alone: tokens stored = tokens invalidated + the one cached now,
      and at most as many more as orphans stored; none more if no leader of the account was lost. */
  lemma {:induction false} EventsAreConserved(ss: seq<State>, es: seq<Event>, account: Account, n: nat)
    requires IsRun(ss, es) && n < |ss|
    ensures var extra := Stores(ss, es, account, n) - Removals(ss, es, account, n) - One(account in ss[n].cache);
      0 <= extra <= AloneStores(ss, es, account, n) &&
      (!F.LostLeader(ss[n].flight, account) ==> AloneStores(ss, es, account, n) == 0)
  {
    TallyIsHistory(ss, es, account, n);
    StatesKeepInv(ss, es, n);
    assert BooksOk(ss[n], account);
  }

  // -------------------------------------------------------------------------
  // The critical sections themselves
  // -------------------------------------------------------------------------

  /** The token source: its cache, the flights it goes through, and where each of its calls is.
      Each method is one stretch of `access_token` or `invalidate` and does exactly its step. */
  class Source {
    const obtaining: F.Registry<Account, Outcome>
    var cache: map<Account, Token>
    var stages: seq<Stage>
    var asks: seq<Ask>
    var started: nat
    ghost var tally: Tally

    ghost function Now(): State
      reads this, obtaining
    {
      State(obtaining.Now(), stages, cache, asks, started, tally)
    }

    constructor ()
      ensures Now() == Init() && Inv(Now()) && fresh(obtaining)
    {
      obtaining := new F.Registry();
      cache, stages, asks, started := map[], [], [], 0;
      tally := Init().tally;
    }

    method NewAsk(account: Account) returns (a: nat)
      requires Inv(Now())
      modifies `asks
      ensures a == |old(asks)| && Now() == Next(old(Now()), Event.NewAsk(account)) && Inv(Now())
    {
      ghost var before := Now();
      a := |asks|;
      asks := asks + [Ask(account, Looking)];
      InvStep(before, Event.NewAsk(account));
    }

    /** `cached`, outside the flight. */
    method LookUp(a: nat)
      requires Inv(Now()) && Enabled(Now(), Event.LookUp(a))
      modifies `asks
      ensures Now() == Next(old(Now()), Event.LookUp(a)) && Inv(Now())
    {
      ghost var before := Now();
      var account := asks[a].account;
      var found := Missed;
      if account in cache {
        found := Answered(Obtained(cache[account]));
      }
      asks := asks[a := asks[a].(progress := found)];
      InvStep(before, Event.LookUp(a));
    }

    /** Into the flight: to lead one, or to follow the one under way. */
    method Enter(a: nat)
      requires Inv(Now()) && Enabled(Now(), Event.Enter(a))
      modifies `asks, `stages, obtaining
      ensures Now() == Next(old(Now()), Event.Enter(a)) && Inv(Now())
    {
      ghost var before := Now();
      var account := asks[a].account;
      var leads := account !in obtaining.inflight;
      var c := obtaining.Arrive(account);
      stages := stages + [if leads then Checking else Idle];
      asks := asks[a := asks[a].(progress := Flying(c))];
      InvStep(before, Event.Enter(a));
    }

    /** `cached`, inside the flight; past it the broker is started. */
    method Check(c: nat)
      requires Inv(Now()) && Enabled(Now(), Event.Check(c))
      modifies `stages, `started, obtaining
      ensures Now() == Next(old(Now()), Event.Check(c)) && Inv(Now())
    {
      ghost var before := Now();
      var account := obtaining.calls[c].key;
      if account in cache {
        obtaining.FinishWork(c, Obtained(cache[account]));
        stages := stages[c := Idle];
      } else {
        stages := stages[c := Brokering(started)];
        started := started + 1;
      }
      InvStep(before, Event.Check(c));
    }

    method BrokerFails(c: nat)
      requires Inv(Now()) && Enabled(Now(), Event.BrokerFails(c))
      modifies `stages, obtaining
      ensures Now() == Next(old(Now()), Event.BrokerFails(c)) && Inv(Now())
    {
      ghost var before := Now();
      obtaining.FinishWork(c, Failed);
      stages := stages[c := Idle];
      InvStep(before, Event.BrokerFails(c));
    }

    method BrokerAnswers(c: nat, text: string)
      requires Inv(Now()) && Enabled(Now(), Event.BrokerAnswers(c, text))
      modifies `stages
      ensures Now() == Next(old(Now()), Event.BrokerAnswers(c, text)) && Inv(Now())
    {
      ghost var before := Now();
      stages := stages[c := Holding(Token(text, stages[c].run))];
      InvStep(before, Event.BrokerAnswers(c, text));
    }

    /** The answer goes into the cache and the work is over. */
    method Store(c: nat)
      requires Inv(Now()) && Enabled(Now(), Event.Store(c))
      modifies `stages, `cache, `tally, obtaining
      ensures Now() == Next(old(Now()), Event.Store(c)) && Inv(Now())
    {
      ghost var before := Now();
      var account := obtaining.calls[c].key;
      var token := stages[c].token;
      tally := Kept(before, account, token, obtaining.calls[c].phase.Orphaned?).tally;
      cache := cache[account := token];
      obtaining.FinishWork(c, Obtained(token));
      stages := stages[c := Idle];
      InvStep(before, Event.Store(c));
    }

    method Answer(a: nat)
      requires Inv(Now()) && Enabled(Now(), Event.Answer(a))
      modifies `asks
      ensures Now() == Next(old(Now()), Event.Answer(a)) && Inv(Now())
    {
      ghost var before := Now();
      asks := asks[a := asks[a].(progress := Answered(obtaining.calls[asks[a].progress.call].phase.outcome))];
      InvStep(before, Event.Answer(a));
    }

    method Invalidate(account: Account)
      requires Inv(Now())
      modifies `cache, `tally
      ensures Now() == Next(old(Now()), Event.Invalidate(account)) && Inv(Now())
      ensures account !in cache
    {
      ghost var before := Now();
      tally := Next(before, Event.Invalidate(account)).tally;
      cache := cache - {account};
      InvStep(before, Event.Invalidate(account));
    }
  }
}
