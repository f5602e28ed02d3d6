/**
 * `with_credential`: one credential presented, and one more try with a different one if the server
 * refused the first. Any number of such calls share one token source.
 */
module Credentials {
  import opened Options
  import F = SingleFlight
  import B = BrokerTokens

  /** What the server said about an attempt. */
  datatype Verdict = Welcome | Rejected | OtherError

  datatype Ending =
    | NoCredential                // no credential to present
    | Said(verdict: Verdict)      // what the server said last
    | GoneAway                    // the caller went away while the server was being asked

  datatype Stage =
    | Asking(ask: nat)            // waiting for `access_token`
    | Trying                      // the first attempt is under way
    | Refused                     // rejected, the cache not yet told
    | Emptied                     // told
    | AskingAgain(ask: nat)
    | Retrying                    // the second attempt is under way
    | Ended(ending: Ending)

  /** A call: the credentials it presented, the rejections of its first that it saw, and the
      invalidations it made. */
  datatype Session = Session(account: B.Account, stage: Stage, presented: seq<B.Token>, rejected: nat, invalidated: nat)

  datatype State = State(source: B.State, sessions: seq<Session>)

  datatype Event =
    | Open(account: B.Account)
    | Take(i: nat)
    | Judge(i: nat, verdict: Verdict)
    | Empty(i: nat)
    | AskAgain(i: nat)
    | Quit(i: nat)
    | Inside(step: B.Event)

  function Init(): State { State(B.Init(), []) }

  /** `access_token` answered the session's ask. */
  predicate Ready(s: State, ask: nat) {
    ask < |s.source.asks| && s.source.asks[ask].progress.Answered?
  }

  predicate Enabled(s: State, e: Event) {
    match e
    case Open(_) => true
    case Take(i) =>
      i < |s.sessions| && (s.sessions[i].stage.Asking? || s.sessions[i].stage.AskingAgain?) &&
      Ready(s, s.sessions[i].stage.ask)
    case Judge(i, _) => i < |s.sessions| && (s.sessions[i].stage.Trying? || s.sessions[i].stage.Retrying?)
    case Empty(i) => i < |s.sessions| && s.sessions[i].stage.Refused?
    case AskAgain(i) => i < |s.sessions| && s.sessions[i].stage.Emptied?
    case Quit(i) => i < |s.sessions| && (s.sessions[i].stage.Trying? || s.sessions[i].stage.Retrying?)
    case Inside(f) => !f.NewAsk? && !f.Invalidate? && B.Enabled(s.source, f)
  }

  /** The credential arrived, or there is none. The second is presented only if it differs from the
      first. */
  function Taken(x: Session, o: B.Outcome): Session {
    if o.Failed? then x.(stage := Ended(NoCredential))
    else if x.stage.Asking? then x.(stage := Trying, presented := x.presented + [o.token])
    else if |x.presented| > 0 && o.token.text == x.presented[0].text then x.(stage := Ended(Said(Rejected)))
    else x.(stage := Retrying, presented := x.presented + [o.token])
  }

  /** The server answered an attempt. */
  function Judged(x: Session, verdict: Verdict): Session {
    if x.stage.Trying? && verdict.Rejected? then x.(stage := Refused, rejected := x.rejected + 1)
    else x.(stage := Ended(Said(verdict)))
  }

  function Put(s: State, i: nat, x: Session): State
    requires i < |s.sessions|
  {
    s.(sessions := s.sessions[i := x])
  }

  function Next(s: State, e: Event): State
    requires Enabled(s, e)
  {
    match e
    case Open(account) =>
      State(B.Next(s.source, B.NewAsk(account)),
            s.sessions + [Session(account, Asking(|s.source.asks|), [], 0, 0)])
    case Take(i) => Put(s, i, Taken(s.sessions[i], s.source.asks[s.sessions[i].stage.ask].progress.outcome))
    case Judge(i, verdict) => Put(s, i, Judged(s.sessions[i], verdict))
    case Empty(i) =>
      var x := s.sessions[i];
      Put(s.(source := B.Next(s.source, B.Invalidate(x.account))), i,
          x.(stage := Emptied, invalidated := x.invalidated + 1))
    case AskAgain(i) =>
      var x := s.sessions[i];
      Put(s.(source := B.Next(s.source, B.NewAsk(x.account))), i, x.(stage := AskingAgain(|s.source.asks|)))
    case Quit(i) => Put(s, i, s.sessions[i].(stage := Ended(GoneAway)))
    case Inside(f) => s.(source := B.Next(s.source, f))
  }

  predicate CanRun(s: State, es: seq<Event>)
    decreases es
  {
    es == [] || (Enabled(s, es[0]) && CanRun(Next(s, es[0]), es[1..]))
  }

  function After(s: State, es: seq<Event>): State
    requires CanRun(s, es)
    decreases es
  {
    if es == [] then s else After(Next(s, es[0]), es[1..])
  }

  // -------------------------------------------------------------------------
  // What every step keeps
  // -------------------------------------------------------------------------

  /** The rules of one call: two attempts at most, the second with other bytes and only after the
      first was rejected and the cache told, once. */
  predicate SessionOk(x: Session) {
    x.invalidated <= x.rejected <= 1 &&
    (|x.presented| == 2 ==> x.presented[0].text != x.presented[1].text && x.invalidated == 1) &&
    match x.stage
    case Asking(_) => x.presented == [] && x.rejected == 0
    case Trying => |x.presented| == 1 && x.rejected == 0
    case Refused => |x.presented| == 1 && x.rejected == 1 && x.invalidated == 0
    case Emptied => |x.presented| == 1 && x.invalidated == 1
    case AskingAgain(_) => |x.presented| == 1 && x.invalidated == 1
    case Retrying => |x.presented| == 2
    case Ended(_) => |x.presented| <= 2
  }

  /** A sum over the calls for `account`. */
  function Total(xs: seq<Session>, account: B.Account, of: Session -> nat): nat {
    if xs == [] then 0
    else Total(xs[..|xs| - 1], account, of) + (if xs[|xs| - 1].account == account then of(xs[|xs| - 1]) else 0)
  }

  function Invalidations(xs: seq<Session>, account: B.Account): nat {
    Total(xs, account, (x: Session) => x.invalidated)
  }

  function Rejections(xs: seq<Session>, account: B.Account): nat { Total(xs, account, (x: Session) => x.rejected) }

  function Attempts(xs: seq<Session>): nat {
    if xs == [] then 0 else Attempts(xs[..|xs| - 1]) + |xs[|xs| - 1].presented|
  }

  lemma {:induction false} TotalUpdate(xs: seq<Session>, i: nat, x: Session, account: B.Account, of: Session -> nat)
    requires i < |xs| && x.account == xs[i].account
    ensures Total(xs[i := x], account, of) + (if x.account == account then of(xs[i]) else 0)
         == Total(xs, account, of) + (if x.account == account then of(x) else 0)
  {
    var n := |xs| - 1;
    if i == n {
      assert xs[i := x][..n] == xs[..n];
    } else {
      assert xs[i := x][..n] == xs[..n][i := x];
      TotalUpdate(xs[..n], i, x, account, of);
    }
  }

  ghost predicate Inv(s: State) {
    B.Inv(s.source) &&
    (forall x | x in s.sessions :: SessionOk(x)) &&
    (forall account: B.Account :: s.source.tally.removed[account] <= Invalidations(s.sessions, account))
  }

  lemma SourceKept(s: State, e: Event)
    requires Inv(s) && Enabled(s, e)
    ensures B.Inv(Next(s, e).source)
    ensures !e.Empty? ==> Next(s, e).source.tally.removed == s.source.tally.removed
  {
    match e
    case Open(account) => B.InvStep(s.source, B.NewAsk(account));
    case Empty(i) => B.InvStep(s.source, B.Invalidate(s.sessions[i].account));
    case AskAgain(i) => B.InvStep(s.source, B.NewAsk(s.sessions[i].account));
    case Inside(f) => B.InvStep(s.source, f);
    case _ =>
  }

  lemma SessionsKept(s: State, e: Event, x: Session)
    requires Inv(s) && Enabled(s, e) && x in Next(s, e).sessions
    ensures SessionOk(x)
  {
    if !e.Open? && !e.Inside? { assert SessionOk(s.sessions[e.i]); }
  }

  lemma RemovalsKept(s: State, e: Event, account: B.Account)
    requires Inv(s) && Enabled(s, e)
    ensures Next(s, e).source.tally.removed[account] <= Invalidations(Next(s, e).sessions, account)
  {
    SourceKept(s, e);
    var t := Next(s, e);
    var of := (x: Session) => x.invalidated;
    if e.Open? {
      assert t.sessions[..|t.sessions| - 1] == s.sessions;
    } else if !e.Inside? {
      TotalUpdate(s.sessions, e.i, t.sessions[e.i], account, of);
    }
  }

  lemma InvStep(s: State, e: Event)
    requires Inv(s) && Enabled(s, e)
    ensures Inv(Next(s, e))
  {
    SourceKept(s, e);
    forall x | x in Next(s, e).sessions ensures SessionOk(x) { SessionsKept(s, e, x); }
    forall account: B.Account
      ensures Next(s, e).source.tally.removed[account] <= Invalidations(Next(s, e).sessions, account)
    {
      RemovalsKept(s, e, account);
    }
  }

  lemma {:induction false} RunKeepsInv(s: State, es: seq<Event>)
    requires Inv(s) && CanRun(s, es)
    ensures Inv(After(s, es))
    decreases es
  {
    if es != [] {
      InvStep(s, es[0]);
      RunKeepsInv(Next(s, es[0]), es[1..]);
    }
  }

  lemma {:induction false} SessionBounds(xs: seq<Session>, account: B.Account)
    requires forall x | x in xs :: SessionOk(x)
    ensures Attempts(xs) <= 2 * |xs|
    ensures Invalidations(xs, account) <= Rejections(xs, account) <= |xs|
  {
    if xs != [] {
      assert SessionOk(xs[|xs| - 1]);
      SessionBounds(xs[..|xs| - 1], account);
    }
  }

  // -------------------------------------------------------------------------
  // The whole of it
  // -------------------------------------------------------------------------

  /** However many calls share one source and however they interleave: at most two attempts each,
      the second with a credential of other bytes and only after a rejection; and the broker's
      successful runs number at most one more than the rejections, plus those of followers whose
      leader went away, of which there are none unless a leader was cancelled. */
  lemma StampedeIsBounded(es: seq<Event>, account: B.Account)
    requires CanRun(Init(), es)
    ensures var s := After(Init(), es); var t := s.source.tally;
      Attempts(s.sessions) <= 2 * |s.sessions| &&
      t.removed[account] <= Invalidations(s.sessions, account) <= Rejections(s.sessions, account) <= |s.sessions| &&
      (forall x | x in s.sessions && |x.presented| == 2 ::
         x.rejected == 1 && x.presented[0].text != x.presented[1].text) &&
      t.stored[account] <= 1 + Rejections(s.sessions, account) + t.alone[account] &&
      (!F.LostLeader(s.source.flight, account) ==> t.stored[account] <= 1 + Rejections(s.sessions, account))
  {
    B.InitOk();
    RunKeepsInv(Init(), es);
    var s := After(Init(), es);
    SessionBounds(s.sessions, account);
    assert B.BooksOk(s.source, account);
    forall x | x in s.sessions && |x.presented| == 2
      ensures x.rejected == 1 && x.presented[0].text != x.presented[1].text
    {
      assert SessionOk(x);
    }
  }

  // -------------------------------------------------------------------------
  // How calls end
  // -------------------------------------------------------------------------

  ghost predicate IsRun(ss: seq<State>, es: seq<Event>) {
    |ss| == |es| + 1 && ss[0] == Init() &&
    forall i | 0 <= i < |es| :: Enabled(ss[i], es[i]) && ss[i + 1] == Next(ss[i], es[i])
  }

  lemma {:induction false} StatesKeepInv(ss: seq<State>, es: seq<Event>, n: nat)
    requires IsRun(ss, es) && n < |ss|
    ensures Inv(ss[n])
  {
    if n == 0 {
      B.InitOk();
    } else {
      StatesKeepInv(ss, es, n - 1);
      InvStep(ss[n - 1], es[n - 1]);
    }
  }

  /** What the server said to session `i` in the first `n` steps, in order. */
  function Verdicts(es: seq<Event>, i: nat, n: nat): seq<Verdict>
    requires n <= |es|
  {
    if n == 0 then []
    else
      var e := es[n - 1];
      Verdicts(es, i, n - 1) + if e.Judge? && e.i == i then [e.verdict] else []
  }

  /** How often session `i` emptied the cache in the first `n` steps. */
  function Emptyings(es: seq<Event>, i: nat, n: nat): nat
    requires n <= |es|
  {
    if n == 0 then 0 else Emptyings(es, i, n - 1) + if es[n - 1] == Empty(i) then 1 else 0
  }

  /** In the first `n` steps session `i` came to know that there is no credential. */
  ghost predicate WasRefusedOne(ss: seq<State>, es: seq<Event>, i: nat, n: nat)
    requires n <= |es| && |ss| == |es| + 1
  {
    exists m | 0 <= m < n :: es[m] == Take(i) && i < |ss[m].sessions| && Answer(ss[m], i) == Some(B.Failed)
  }

  /** And in the first `n` steps, that the next credential has the bytes of the first. */
  ghost predicate GotTheSame(ss: seq<State>, es: seq<Event>, i: nat, text: string, n: nat)
    requires n <= |es| && |ss| == |es| + 1
  {
    exists m, token: B.Token | 0 <= m < n :: es[m] == Take(i) && i < |ss[m].sessions| &&
      ss[m].sessions[i].stage.AskingAgain? && Answer(ss[m], i) == Some(B.Obtained(token)) && token.text == text
  }

  /** What the source answered to the ask that session `i` waits for. */
  function Answer(s: State, i: nat): Option<B.Outcome>
    requires i < |s.sessions|
  {
    var stage := s.sessions[i].stage;
    if !stage.Asking? && !stage.AskingAgain? then None
    else if stage.ask < |s.source.asks| && s.source.asks[stage.ask].progress.Answered? then
      Some(s.source.asks[stage.ask].progress.outcome)
    else None
  }

  /** How a session that is over came to its end, by what was said to it and by nothing of its own. */
  ghost predicate EndedRightly(ss: seq<State>, es: seq<Event>, x: Session, i: nat, n: nat)
    requires n <= |es| && |ss| == |es| + 1 && x.stage.Ended?
  {
    var said := Verdicts(es, i, n);
    match x.stage.ending
    case Said(verdict) =>
      |said| == |x.presented| && said != [] && verdict == said[|said| - 1] &&
      (said[0] == Rejected <==> |said| == 2 || GotTheSame(ss, es, i, x.presented[0].text, n))
    case NoCredential =>
      |said| == |x.presented| <= 1 && (said == [] || said == [Rejected]) && WasRefusedOne(ss, es, i, n)
    case GoneAway => |x.presented| == |said| + 1 && exists m | 0 <= m < n :: es[m] == Quit(i)
  }

  ghost predicate SessionTraced(ss: seq<State>, es: seq<Event>, x: Session, i: nat, n: nat)
    requires n <= |es| && |ss| == |es| + 1
  {
    var said := Verdicts(es, i, n);
    x.rejected == (if said != [] && said[0] == Rejected then 1 else 0) && x.invalidated == Emptyings(es, i, n) &&
    match x.stage
    case Asking(_) => said == []
    case Trying => said == []
    case Refused => said == [Rejected]
    case Emptied => said == [Rejected]
    case AskingAgain(_) => said == [Rejected]
    case Retrying => said == [Rejected]
    case Ended(_) => EndedRightly(ss, es, x, i, n)
  }

  /** What other steps leave as it is. */
  lemma {:induction false} TracedStill(ss: seq<State>, es: seq<Event>, x: Session, i: nat, n: nat)
    requires n < |es| && |ss| == |es| + 1 && SessionTraced(ss, es, x, i, n)
    requires Verdicts(es, i, n + 1) == Verdicts(es, i, n) && Emptyings(es, i, n + 1) == Emptyings(es, i, n)
    requires x.stage.Ended? && x.stage.ending.Said? ==>
      forall text :: GotTheSame(ss, es, i, text, n + 1) ==> GotTheSame(ss, es, i, text, n)
    ensures SessionTraced(ss, es, x, i, n + 1)
  {
  }

  /** A session that is not waiting for its second credential is not given one. */
  lemma {:induction false} SameOnlyWhenAsking(ss: seq<State>, es: seq<Event>, i: nat, text: string, n: nat)
    requires n < |es| && |ss| == |es| + 1 && GotTheSame(ss, es, i, text, n + 1)
    requires es[n] == Take(i) && i < |ss[n].sessions| ==> !ss[n].sessions[i].stage.AskingAgain?
    ensures GotTheSame(ss, es, i, text, n)
  {
  }

  /** A session is given its second credential once, and not before its first is rejected. */
  lemma {:induction false} NotTheSameYet(ss: seq<State>, es: seq<Event>, i: nat, text: string, n: nat)
    requires IsRun(ss, es) && n < |ss|
    requires i < |ss[n].sessions| ==> !ss[n].sessions[i].stage.Ended? && !ss[n].sessions[i].stage.Retrying?
    ensures !GotTheSame(ss, es, i, text, n)
  {
    if n > 0 {
      var s, e := ss[n - 1], es[n - 1];
      assert Enabled(s, e) && ss[n] == Next(s, e);
      NotTheSameYet(ss, es, i, text, n - 1);
      if GotTheSame(ss, es, i, text, n) { SameOnlyWhenAsking(ss, es, i, text, n - 1); }
    }
  }

  lemma {:induction false} SessionsStay(ss: seq<State>, es: seq<Event>, n: nat)
    requires IsRun(ss, es) && n < |es|
    ensures |ss[n].sessions| <= |ss[n + 1].sessions|
    ensures forall i | 0 <= i < |ss[n].sessions| :: ss[n + 1].sessions[i].account == ss[n].sessions[i].account
  {
    assert Enabled(ss[n], es[n]) && ss[n + 1] == Next(ss[n], es[n]);
  }

  lemma {:induction false} NothingBefore(ss: seq<State>, es: seq<Event>, i: nat, n: nat)
    requires IsRun(ss, es) && n < |ss| && i >= |ss[n].sessions|
    ensures Verdicts(es, i, n) == [] && Emptyings(es, i, n) == 0
  {
    if n > 0 {
      SessionsStay(ss, es, n - 1);
      NothingBefore(ss, es, i, n - 1);
      assert Enabled(ss[n - 1], es[n - 1]);
    }
  }

  /** The step was the session's own. */
  predicate Moves(e: Event, i: nat) { (e.Take? || e.Judge? || e.Empty? || e.AskAgain? || e.Quit?) && e.i == i }

  lemma {:induction false} OtherStepTraced(ss: seq<State>, es: seq<Event>, i: nat, n: nat)
    requires IsRun(ss, es) && n < |es| && i < |ss[n].sessions| && !Moves(es[n], i)
    requires SessionTraced(ss, es, ss[n].sessions[i], i, n)
    ensures i < |ss[n + 1].sessions| && SessionTraced(ss, es, ss[n + 1].sessions[i], i, n + 1)
  {
    assert Enabled(ss[n], es[n]) && ss[n + 1] == Next(ss[n], es[n]);
    var x := ss[n].sessions[i];
    forall text | GotTheSame(ss, es, i, text, n + 1) ensures GotTheSame(ss, es, i, text, n) {
      SameOnlyWhenAsking(ss, es, i, text, n);
    }
    TracedStill(ss, es, x, i, n);
    assert ss[n + 1].sessions[i] == x;
  }

  lemma {:induction false} TakeTraced(ss: seq<State>, es: seq<Event>, i: nat, n: nat)
    requires IsRun(ss, es) && n < |es| && i < |ss[n].sessions| && es[n] == Take(i) && SessionOk(ss[n].sessions[i])
    requires SessionTraced(ss, es, ss[n].sessions[i], i, n)
    ensures i < |ss[n + 1].sessions| && SessionTraced(ss, es, ss[n + 1].sessions[i], i, n + 1)
  {
    var s := ss[n];
    assert Enabled(s, es[n]) && ss[n + 1] == Next(s, es[n]);
    var x, y := s.sessions[i], ss[n + 1].sessions[i];
    assert Verdicts(es, i, n + 1) == Verdicts(es, i, n);
    assert Answer(s, i) == Some(s.source.asks[x.stage.ask].progress.outcome);
    if y.stage == Ended(Said(Rejected)) {
      var token := Answer(s, i).value.token;
      assert es[n] == Take(i) && token.text == y.presented[0].text && Answer(ss[n], i) == Some(B.Obtained(token));
      assert GotTheSame(ss, es, i, y.presented[0].text, n + 1);
    }
  }

  lemma {:induction false} JudgeTraced(ss: seq<State>, es: seq<Event>, i: nat, n: nat)
    requires IsRun(ss, es) && n < |es| && i < |ss[n].sessions| && es[n].Judge? && es[n].i == i
    requires SessionOk(ss[n].sessions[i]) && SessionTraced(ss, es, ss[n].sessions[i], i, n)
    ensures i < |ss[n + 1].sessions| && SessionTraced(ss, es, ss[n + 1].sessions[i], i, n + 1)
  {
    var s := ss[n];
    assert Enabled(s, es[n]) && ss[n + 1] == Next(s, es[n]);
    var x, y := s.sessions[i], ss[n + 1].sessions[i];
    assert Verdicts(es, i, n + 1) == Verdicts(es, i, n) + [es[n].verdict];
    if x.stage.Trying? && y.stage.Ended? {
      NotTheSameYet(ss, es, i, y.presented[0].text, n);
      if GotTheSame(ss, es, i, y.presented[0].text, n + 1) { SameOnlyWhenAsking(ss, es, i, y.presented[0].text, n); }
    }
  }

  lemma {:induction false} OwnStepTraced(ss: seq<State>, es: seq<Event>, i: nat, n: nat)
    requires IsRun(ss, es) && n < |es| && i < |ss[n].sessions| && Moves(es[n], i)
    requires SessionOk(ss[n].sessions[i]) && SessionTraced(ss, es, ss[n].sessions[i], i, n)
    ensures i < |ss[n + 1].sessions| && SessionTraced(ss, es, ss[n + 1].sessions[i], i, n + 1)
  {
    var s, e := ss[n], es[n];
    assert Enabled(s, e) && ss[n + 1] == Next(s, e);
    match e
    case Take(_) => TakeTraced(ss, es, i, n);
    case Judge(_, _) => JudgeTraced(ss, es, i, n);
    case Empty(_) => assert Emptyings(es, i, n + 1) == Emptyings(es, i, n) + 1;
    case AskAgain(_) =>
    case Quit(_) => assert es[n] == Quit(i);
    case _ =>
  }

  /** In every run, whatever the interleaving: what each call has come to is what was said to it. One
      that ended with the server's word ended with its last word, after a second attempt or for want of
      another credential if the first word was a rejection; one that ended with no credential was
      refused one, after at most one attempt, and that rejected. */
  lemma {:induction false} SessionsEndRightly(ss: seq<State>, es: seq<Event>, i: nat, n: nat)
    requires IsRun(ss, es) && n < |ss| && i < |ss[n].sessions|
    ensures SessionTraced(ss, es, ss[n].sessions[i], i, n)
  {
    if n > 0 {
      SessionsStay(ss, es, n - 1);
      if i < |ss[n - 1].sessions| {
        SessionsEndRightly(ss, es, i, n - 1);
        StatesKeepInv(ss, es, n - 1);
        assert ss[n - 1].sessions[i] in ss[n - 1].sessions;
        if Moves(es[n - 1], i) { OwnStepTraced(ss, es, i, n - 1); } else { OtherStepTraced(ss, es, i, n - 1); }
      } else {
        NothingBefore(ss, es, i, n - 1);
        assert Enabled(ss[n - 1], es[n - 1]) && ss[n] == Next(ss[n - 1], es[n - 1]);
      }
    }
  }

  // -------------------------------------------------------------------------
  // What calls present
  // -------------------------------------------------------------------------

  /** The ask a session waits for is for its account, and what it presented was answered to such asks. */
  ghost predicate PresentsAnswers(s: State, x: Session) {
    (x.stage.Asking? || x.stage.AskingAgain? ==>
       x.stage.ask < |s.source.asks| && s.source.asks[x.stage.ask].account == x.account) &&
    forall token | token in x.presented ::
      exists a: nat :: a < |s.source.asks| && s.source.asks[a] == B.Ask(x.account, B.Answered(B.Obtained(token)))
  }

  /** Asks keep their account, and their answer once they have it. */
  ghost predicate AsksStand(s: B.State, t: B.State) {
    |s.asks| <= |t.asks| &&
    forall a | 0 <= a < |s.asks| ::
      t.asks[a].account == s.asks[a].account && (s.asks[a].progress.Answered? ==> t.asks[a] == s.asks[a])
  }

  lemma {:induction false} AnswersStay(s: B.State, e: B.Event)
    requires B.Enabled(s, e)
    ensures AsksStand(s, B.Next(s, e))
  {
  }

  lemma {:induction false} StillPresentsAnswers(s: State, t: State, x: Session)
    requires PresentsAnswers(s, x) && AsksStand(s.source, t.source)
    ensures PresentsAnswers(t, x)
  {
    forall token | token in x.presented
      ensures exists a: nat ::
        a < |t.source.asks| && t.source.asks[a] == B.Ask(x.account, B.Answered(B.Obtained(token)))
    {
      var a: nat :| a < |s.source.asks| && s.source.asks[a] == B.Ask(x.account, B.Answered(B.Obtained(token)));
      assert t.source.asks[a] == s.source.asks[a];
    }
  }

  lemma {:induction false} AsksStay(s: State, e: Event)
    requires Enabled(s, e)
    ensures AsksStand(s.source, Next(s, e).source)
  {
    if e.Inside? { AnswersStay(s.source, e.step); }
  }

  lemma {:induction false} PresentsStep(s: State, e: Event, i: nat)
    requires Enabled(s, e) && i < |Next(s, e).sessions|
    requires i < |s.sessions| ==> PresentsAnswers(s, s.sessions[i])
    ensures PresentsAnswers(Next(s, e), Next(s, e).sessions[i])
  {
    AsksStay(s, e);
    if i < |s.sessions| {
      var t, x := Next(s, e), s.sessions[i];
      StillPresentsAnswers(s, t, x);
      if e == Take(i) {
        var a := x.stage.ask;
        assert t.source.asks[a] == B.Ask(x.account, B.Answered(s.source.asks[a].progress.outcome));
      }
    }
  }

  /** In every run, a credential that a call presents is one the source answered for its account. */
  lemma {:induction false} PresentedWasAnswered(ss: seq<State>, es: seq<Event>, i: nat, n: nat)
    requires IsRun(ss, es) && n < |ss| && i < |ss[n].sessions|
    ensures PresentsAnswers(ss[n], ss[n].sessions[i])
  {
    if n > 0 {
      assert Enabled(ss[n - 1], es[n - 1]) && ss[n] == Next(ss[n - 1], es[n - 1]);
      if i < |ss[n - 1].sessions| { PresentedWasAnswered(ss, es, i, n - 1); }
      PresentsStep(ss[n - 1], es[n - 1], i);
    }
  }

  /** The source under a run of calls is in a run of its own. */
  lemma {:induction false} SourceIsInARun(ss: seq<State>, es: seq<Event>, n: nat)
    returns (sources: seq<B.State>, steps: seq<B.Event>)
    requires IsRun(ss, es) && n < |ss|
    ensures B.IsRun(sources, steps) && sources[|steps|] == ss[n].source
  {
    if n == 0 {
      sources, steps := [B.Init()], [];
    } else {
      sources, steps := SourceIsInARun(ss, es, n - 1);
      var s, e := ss[n - 1], es[n - 1];
      assert Enabled(s, e) && ss[n] == Next(s, e);
      var step := match e
        case Open(account) => Some(B.NewAsk(account))
        case Empty(i) => Some(B.Invalidate(s.sessions[i].account))
        case AskAgain(i) => Some(B.NewAsk(s.sessions[i].account))
        case Inside(f) => Some(f)
        case _ => None;
      if step.Some? {
        sources, steps := sources + [ss[n].source], steps + [step.value];
      }
    }
  }

  /** So whatever a call presents, the broker printed for its account. */
  lemma {:induction false} PresentedWasPrinted(ss: seq<State>, es: seq<Event>, i: nat, n: nat, token: B.Token)
    returns (sources: seq<B.State>, steps: seq<B.Event>)
    requires IsRun(ss, es) && n < |ss| && i < |ss[n].sessions| && token in ss[n].sessions[i].presented
    ensures B.IsRun(sources, steps) && sources[|steps|] == ss[n].source
    ensures B.Printed(sources, steps, ss[n].sessions[i].account, token, |steps|)
  {
    sources, steps := SourceIsInARun(ss, es, n);
    PresentedWasAnswered(ss, es, i, n);
    var account := ss[n].sessions[i].account;
    var a: nat :| a < |ss[n].source.asks| && ss[n].source.asks[a] == B.Ask(account, B.Answered(B.Obtained(token)));
    B.AnswersComeFromTheBroker(sources, steps, |steps|, a);
  }

  // -------------------------------------------------------------------------
  // The bound is reached
  // -------------------------------------------------------------------------

  lemma {:induction false} RunsJoin(s: State, es: seq<Event>, more: seq<Event>)
    requires CanRun(s, es) && CanRun(After(s, es), more)
    ensures CanRun(s, es + more) && After(s, es + more) == After(After(s, es), more)
    decreases es
  {
    if es == [] {
      assert es + more == more;
    } else {
      assert (es + more)[1..] == es[1..] + more;
      RunsJoin(Next(s, es[0]), es[1..], more);
    }
  }

  lemma {:induction false} OneMore(s: State, es: seq<Event>, e: Event) returns (more: seq<Event>)
    requires CanRun(s, es) && Enabled(After(s, es), e)
    ensures more == es + [e] && CanRun(s, more) && After(s, more) == Next(After(s, es), e)
  {
    assert CanRun(After(s, es), [e]);
    RunsJoin(s, es, [e]);
    more := es + [e];
  }

  /** Steps of the token source that no session takes. */
  predicate AllInside(es: seq<B.Event>) { forall i | 0 <= i < |es| :: !es[i].NewAsk? && !es[i].Invalidate? }

  lemma {:induction false} SourceRuns(s: State, steps: seq<B.Event>) returns (es: seq<Event>)
    requires B.CanRun(s.source, steps) && AllInside(steps)
    ensures CanRun(s, es) && After(s, es) == s.(source := B.After(s.source, steps))
    decreases steps
  {
    if steps == [] {
      es := [];
    } else {
      var t := Next(s, Inside(steps[0]));
      var rest := SourceRuns(t, steps[1..]);
      es := [Inside(steps[0])] + rest;
      assert es[1..] == rest;
    }
  }

  /** A leader whose work is over leaves, sends and returns, and its ask has the outcome. */
  lemma {:induction false} OutcomeComes(s: B.State, account: B.Account, a: nat, c: nat) returns (es: seq<B.Event>)
    requires |s.stages| == |s.flight.calls| && F.InRange(s.flight, c) && s.flight.calls[c].phase.Finished?
    requires s.flight.calls[c].key == account && a < |s.asks| && s.asks[a] == B.Ask(account, B.Flying(c))
    ensures B.CanRun(s, es) && AllInside(es)
    ensures var t := B.After(s, es); var p := s.flight.calls[c].phase;
      |t.stages| == |t.flight.calls| && t.flight.registry == s.flight.registry - {account} &&
      t.asks == s.asks[a := B.Ask(account, B.Answered(p.outcome))] && t.started == s.started &&
      t.cache == s.cache && t.tally == s.tally && |t.flight.channels| == |s.flight.channels| &&
      t.flight.channels[p.ch].value == Some(p.outcome) &&
      forall i: nat | i < |s.flight.channels| && i != p.ch :: t.flight.channels[i] == s.flight.channels[i]
  {
    es := B.OneMore(s, [], B.Fly(F.Leave(c)));
    es := B.OneMore(s, es, B.Fly(F.Send(c)));
    es := B.OneMore(s, es, B.Fly(F.Return(c)));
    es := B.OneMore(s, es, B.Answer(a));
  }

  /** A leader with the broker running gets its answer and stores it. */
  lemma {:induction false} WorkIsAnswered(s: B.State, account: B.Account, a: nat, c: nat, text: string)
    returns (es: seq<B.Event>)
    requires B.Asking(s, account, c) && s.flight.calls[c].phase.Leading?
    requires a < |s.asks| && s.asks[a] == B.Ask(account, B.Flying(c))
    ensures B.CanRun(s, es) && AllInside(es)
    ensures var t := B.After(s, es); var token := B.Token(text, s.stages[c].run); var ch := s.flight.calls[c].phase.ch;
      |t.stages| == |t.flight.calls| && t.flight.registry == s.flight.registry - {account} &&
      t.asks == s.asks[a := B.Ask(account, B.Answered(B.Obtained(token)))] && t.started == s.started &&
      t.cache == s.cache[account := token] && t.tally == B.Kept(s, account, token, false).tally &&
      |t.flight.channels| == |s.flight.channels| && t.flight.channels[ch].value.Some? &&
      forall i: nat | i < |s.flight.channels| && i != ch :: t.flight.channels[i] == s.flight.channels[i]
  {
    es := B.OneMore(s, [], B.BrokerAnswers(c, text));
    es := B.OneMore(s, es, B.Store(c));
    var coming := OutcomeComes(B.After(s, es), account, a, c);
    B.RunsJoin(s, es, coming);
    es := es + coming;
  }

  /** An ask that is still looking finds nothing, leads a flight to its end and gets its token. */
  lemma {:induction false} AskGetsToken(s: B.State, account: B.Account, a: nat, text: string)
    returns (es: seq<B.Event>)
    requires B.Quiet(s, account) && a < |s.asks| && s.asks[a] == B.Ask(account, B.Looking)
    ensures B.CanRun(s, es) && AllInside(es)
    ensures var t := B.After(s, es); var token := B.Token(text, s.started);
      |t.stages| == |t.flight.calls| && account !in t.flight.registry && account in t.cache &&
      t.asks == s.asks[a := B.Ask(account, B.Answered(B.Obtained(token)))] && t.started == s.started + 1 &&
      t.cache == s.cache[account := token] && t.tally == B.Kept(s, account, token, false).tally &&
      (F.LostLeader(t.flight, account) ==> F.LostLeader(s.flight, account))
  {
    var c := |s.flight.calls|;
    es := B.OneMore(s, [], B.LookUp(a));
    es := B.OneMore(s, es, B.Enter(a));
    es := B.OneMore(s, es, B.Check(c));
    var u := B.After(s, es);
    var answered := WorkIsAnswered(u, account, a, c, text);
    B.RunsJoin(s, es, answered);
    es := es + answered;
    var t := B.After(s, es);
    if i: nat :| i < |t.flight.channels| && t.flight.channels[i].key == account && F.Dead(t.flight.channels[i]) {
      assert i < |s.flight.channels| && t.flight.channels[i] == s.flight.channels[i];
    }
  }

  /** The one token every session presents first, and where each then is. */
  const EXPIRED := B.Token("expired", 0)

  function Presenting(account: B.Account): Session { Session(account, Trying, [EXPIRED], 0, 0) }

  /** Turned away once, and let in with a fresh token. */
  predicate LetInAgain(x: Session, account: B.Account) {
    x.account == account && x.stage == Ended(Said(Welcome)) && x.rejected == 1 && x.invalidated == 1 &&
    |x.presented| == 2 && x.presented[0] == EXPIRED && x.presented[1].text != EXPIRED.text
  }

  /** `n` sessions presented the expired token, the first `k` were let in again, and a token of the
      account is cached. */
  ghost predicate Midway(s: State, account: B.Account, n: nat, k: nat) {
    k <= n == |s.sessions| &&
    (forall i | 0 <= i < k :: LetInAgain(s.sessions[i], account)) &&
    (forall i | k <= i < n :: s.sessions[i] == Presenting(account)) &&
    |s.source.stages| == |s.source.flight.calls| && account in s.source.cache &&
    account !in s.source.flight.registry && !F.LostLeader(s.source.flight, account) &&
    s.source.tally.stored[account] == k + 1 && s.source.tally.removed[account] == k
  }

  lemma {:induction false} FirstPresents(account: B.Account) returns (es: seq<Event>)
    ensures CanRun(Init(), es) && Midway(After(Init(), es), account, 1, 0)
    ensures After(Init(), es).source.cache[account] == EXPIRED
  {
    es := OneMore(Init(), [], Open(account));
    var u := After(Init(), es);
    var steps := AskGetsToken(u.source, account, 0, EXPIRED.text);
    var inside := SourceRuns(u, steps);
    RunsJoin(Init(), es, inside);
    es := OneMore(Init(), es + inside, Take(0));
  }

  /** One more session presents the cached token. */
  lemma {:induction false} OneMorePresents(s: State, account: B.Account, n: nat) returns (es: seq<Event>)
    requires Midway(s, account, n, 0) && s.source.cache[account] == EXPIRED
    ensures CanRun(s, es) && Midway(After(s, es), account, n + 1, 0)
    ensures After(s, es).source.cache[account] == EXPIRED
  {
    var a := |s.source.asks|;
    es := OneMore(s, [], Open(account));
    es := OneMore(s, es, Inside(B.LookUp(a)));
    es := OneMore(s, es, Take(n));
  }

  lemma {:induction false} AllPresent(account: B.Account, n: nat) returns (es: seq<Event>)
    requires n > 0
    ensures CanRun(Init(), es) && Midway(After(Init(), es), account, n, 0)
    ensures After(Init(), es).source.cache[account] == EXPIRED
  {
    if n == 1 {
      es := FirstPresents(account);
    } else {
      es := AllPresent(account, n - 1);
      var more := OneMorePresents(After(Init(), es), account, n - 1);
      RunsJoin(Init(), es, more);
      es := es + more;
    }
  }

  /** Session `k` is turned away, empties the cache of whatever is in it, asks again and is let in. */
  lemma {:induction false} OneIsLetIn(s: State, account: B.Account, n: nat, k: nat) returns (es: seq<Event>)
    requires Midway(s, account, n, k) && k < n
    ensures CanRun(s, es) && Midway(After(s, es), account, n, k + 1)
  {
    es := TurnedAway(s, account, n, k);
    var u := After(s, es);
    var a := |s.source.asks|;
    var steps := AskGetsToken(u.source, account, a, "fresh");
    var inside := SourceRuns(u, steps);
    RunsJoin(s, es, inside);
    es := OneMore(s, es + inside, Take(k));
    es := OneMore(s, es, Judge(k, Welcome));
  }

  lemma {:induction false} TurnedAway(s: State, account: B.Account, n: nat, k: nat) returns (es: seq<Event>)
    requires Midway(s, account, n, k) && k < n
    ensures CanRun(s, es)
    ensures var t := After(s, es); var a := |s.source.asks|;
      t.sessions == s.sessions[k := Session(account, AskingAgain(a), [EXPIRED], 1, 1)] &&
      t.source.asks == s.source.asks + [B.Ask(account, B.Looking)] && B.Quiet(t.source, account) &&
      t.source.flight == s.source.flight && t.source.tally.stored == s.source.tally.stored &&
      t.source.tally.removed == s.source.tally.removed + multiset{account}
  {
    es := OneMore(s, [], Judge(k, Rejected));
    es := OneMore(s, es, Empty(k));
    es := OneMore(s, es, AskAgain(k));
  }

  lemma {:induction false} ManyAreLetIn(account: B.Account, n: nat, k: nat) returns (es: seq<Event>)
    requires k <= n && n > 0
    ensures CanRun(Init(), es) && Midway(After(Init(), es), account, n, k)
  {
    if k == 0 {
      es := AllPresent(account, n);
    } else {
      es := ManyAreLetIn(account, n, k - 1);
      var more := OneIsLetIn(After(Init(), es), account, n, k - 1);
      RunsJoin(Init(), es, more);
      es := es + more;
    }
  }

  lemma {:induction false} SumsOfLetIn(xs: seq<Session>, account: B.Account)
    requires forall i | 0 <= i < |xs| :: LetInAgain(xs[i], account)
    ensures Attempts(xs) == 2 * |xs| && Rejections(xs, account) == Invalidations(xs, account) == |xs|
  {
    if xs != [] { SumsOfLetIn(xs[..|xs| - 1], account); }
  }

  /** Every bound is reached at once, and with nobody cancelled: `n` sessions present one expired token,
      each in turn throws out the token the one before it was just let in with, and the broker is run
      `n + 1` times where two runs would have done. */
  lemma {:induction false} StampedeIsReached(account: B.Account, n: nat) returns (es: seq<Event>)
    requires n > 0
    ensures CanRun(Init(), es)
    ensures var s := After(Init(), es); var t := s.source.tally;
      |s.sessions| == n && (forall i | 0 <= i < n :: LetInAgain(s.sessions[i], account)) &&
      Attempts(s.sessions) == 2 * n && Rejections(s.sessions, account) == n &&
      t.removed[account] == Invalidations(s.sessions, account) == n &&
      t.stored[account] == n + 1 && !F.LostLeader(s.source.flight, account)
  {
    es := ManyAreLetIn(account, n, n);
    SumsOfLetIn(After(Init(), es).sessions, account);
  }

  /** Where a session that starts with ask number `ask` ends up, for what its four awaits came to; its
      second ask, if it makes one, is number `again`. */
  function Course(account: B.Account, ask: nat, first: B.Outcome, said: Verdict,
                  again: nat, second: B.Outcome, saidAgain: Verdict): Session
  {
    var x0 := Taken(Session(account, Asking(ask), [], 0, 0), first);
    var x1 := if x0.stage.Trying? then Judged(x0, said) else x0;
    var x2 := if x1.stage.Refused? then Taken(x1.(stage := AskingAgain(again), invalidated := 1), second) else x1;
    if x2.stage.Retrying? then Judged(x2, saidAgain) else x2
  }

  /** `with_credential` itself, for what its four awaits came to: the first credential, the server's
      word on it, the second credential, and the server's word on that. Whatever the numbers of its
      asks, it ends where the session's steps end. */
  method WithCredential(account: B.Account, first: B.Outcome, said: Verdict, second: B.Outcome, saidAgain: Verdict)
    returns (ending: Ending, presented: seq<B.Token>, told: nat)
    ensures forall ask: nat, again: nat ::
      Course(account, ask, first, said, again, second, saidAgain) ==
      Session(account, Ended(ending), presented, told, told)
    ensures |presented| <= 2 && told <= 1
    ensures first.Failed? <==> presented == []
    ensures told == 1 <==> first.Obtained? && said.Rejected?
    ensures |presented| == 2 <==> told == 1 && second.Obtained? && second.token.text != first.token.text
    ensures presented ==
      (if first.Obtained? then [first.token] else []) +
      if |presented| == 2 then [second.token] else []
    ensures first.Failed? || (said.Rejected? && second.Failed?) <==> ending == NoCredential
    ensures first.Obtained? && !said.Rejected? ==> ending == Said(said)
    ensures first.Obtained? && said.Rejected? && second.Obtained? ==>
      ending == Said(if second.token.text == first.token.text then Rejected else saidAgain)
  {
    presented, told := [], 0;
    if first.Failed? {
      return NoCredential, presented, told;
    }
    var credential := first.token;
    presented := presented + [credential];
    if !said.Rejected? {
      return Said(said), presented, told;
    }
    told := told + 1;
    if second.Failed? {
      return NoCredential, presented, told;
    }
    var refreshed := second.token;
    if refreshed.text == credential.text {
      return Said(Rejected), presented, told;
    }
    presented := presented + [refreshed];
    ending := Said(saidAgain);
  }
}
