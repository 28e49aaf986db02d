/** Token refresh as a protocol of atomic steps (packages/api-client/src/tokens.ts). */
module TokenProtocol {
  import opened Basics

  type Token = string

  /** What the underlying refresh comes back with: a token, null, or an error. */
  datatype Outcome = Issued(token: Token) | NoToken | Threw

  function Resolved(outcome: Outcome): Option<Token> {
    if outcome.Issued? then Some(outcome.token) else None
  }

  /** The stages of one flight's promise chain. */
  datatype Phase =
    | Scheduled
    | Running
    | Settled(result: Option<Token>)
    | Finished(result: Option<Token>)

  /** `flights` holds every flight ever made, by number; the two fields are the manager's own. */
  datatype System = System(canRefresh: bool, inFlight: Option<nat>, lastRefreshed: Option<Token>, flights: seq<Phase>)

  datatype Reply = Unconfigured | Current(token: Token) | Joined(flight: nat)

  /** One atomic step: a call, a continuation of a flight, or a sign-out. */
  datatype Event =
    | Call(stale: Option<Token>)
    | Begin(flight: nat)
    | Settle(flight: nat, outcome: Outcome)
    | Finally(flight: nat)
    | Reset

  function Initial(canRefresh: bool): System {
    System(canRefresh, None, None, [])
  }

  predicate Superseded(sys: System, stale: Option<Token>) {
    sys.lastRefreshed.Some? && sys.lastRefreshed != stale
  }

  /** Continuations run in order; calls and resets may come at any time. */
  predicate Enabled(sys: System, e: Event) {
    match e
    case Begin(f) => f < |sys.flights| && sys.flights[f].Scheduled?
    case Settle(f, _) => f < |sys.flights| && sys.flights[f].Running?
    case Finally(f) => f < |sys.flights| && sys.flights[f].Settled?
    case _ => true
  }

  function ReplyTo(sys: System, stale: Option<Token>): Reply {
    if !sys.canRefresh then Unconfigured
    else if Superseded(sys, stale) then Current(sys.lastRefreshed.value)
    else if sys.inFlight.Some? then Joined(sys.inFlight.value)
    else Joined(|sys.flights|)
  }

  function Step(sys: System, e: Event): System
    requires Enabled(sys, e)
  {
    match e
    case Call(stale) =>
      if sys.canRefresh && !Superseded(sys, stale) && sys.inFlight.None? then
        sys.(inFlight := Some(|sys.flights|), flights := sys.flights + [Scheduled])
      else sys
    case Begin(f) => sys.(flights := sys.flights[f := Running])
    case Settle(f, outcome) =>
      sys.(lastRefreshed := if outcome.Issued? then Some(outcome.token) else sys.lastRefreshed,
           flights := sys.flights[f := Settled(Resolved(outcome))])
    case Finally(f) =>
      sys.(inFlight := if sys.inFlight == Some(f) then None else sys.inFlight,
           flights := sys.flights[f := Finished(sys.flights[f].result)])
    case Reset => sys.(inFlight := None, lastRefreshed := None)
  }

  /** An interleaving: each step is enabled where it happens. */
  predicate Feasible(sys: System, es: seq<Event>)
    decreases |es|
  {
    es == [] || (Enabled(sys, es[0]) && Feasible(Step(sys, es[0]), es[1..]))
  }

  function Run(sys: System, es: seq<Event>): System
    requires Feasible(sys, es)
    decreases |es|
  {
    if es == [] then sys else Run(Step(sys, es[0]), es[1..])
  }

  function Resets(es: seq<Event>): nat {
    if es == [] then 0 else (if es[0].Reset? then 1 else 0) + Resets(es[1..])
  }

  // ---- single flight -----------------------------------------------------

  /** The flights whose underlying refresh is scheduled, running, or not yet cleaned up after. */
  function Unfinished(sys: System): set<nat> {
    set f | 0 <= f < |sys.flights| && !sys.flights[f].Finished?
  }

  function Orphans(sys: System): set<nat> {
    if sys.inFlight.Some? then Unfinished(sys) - {sys.inFlight.value} else Unfinished(sys)
  }

  ghost predicate FlightInv(sys: System) {
    sys.inFlight.Some? ==> sys.inFlight.value in Unfinished(sys)
  }

  lemma StepFlights(sys: System, e: Event)
    requires FlightInv(sys) && Enabled(sys, e)
    ensures FlightInv(Step(sys, e))
    ensures Orphans(Step(sys, e)) <= Orphans(sys)
      + (if e.Reset? && sys.inFlight.Some? then {sys.inFlight.value} else {})
  {
  }

  lemma StepOrphans(sys: System, e: Event)
    requires FlightInv(sys) && Enabled(sys, e)
    ensures FlightInv(Step(sys, e))
    ensures |Orphans(Step(sys, e))| <= |Orphans(sys)| + (if e.Reset? then 1 else 0)
  {
    hide Step, Enabled, Unfinished, Orphans;
    StepFlights(sys, e);
    var extra: set<nat> := if e.Reset? && sys.inFlight.Some? then {sys.inFlight.value} else {};
    SubsetSize(Orphans(Step(sys, e)), Orphans(sys) + extra);
    UnionSize(Orphans(sys), extra);
  }

  lemma UnionSize(a: set<nat>, b: set<nat>)
    ensures |a + b| <= |a| + |b|
  {
    assert a + b == a + (b - a);
    SubsetSize(b - a, b);
  }

  lemma {:induction false} RunOrphans(sys: System, es: seq<Event>)
    requires FlightInv(sys) && Feasible(sys, es)
    ensures FlightInv(Run(sys, es)) && |Orphans(Run(sys, es))| <= |Orphans(sys)| + Resets(es)
    decreases |es|
  {
    hide Step, Enabled, Orphans, FlightInv;
    if es != [] {
      StepOrphans(sys, es[0]);
      RunOrphans(Step(sys, es[0]), es[1..]);
    }
  }

  /**
   * Over every interleaving at most one refresh is under way, plus one for each sign-out;
   * without sign-outs, at most one.
   */
  lemma SingleFlight(canRefresh: bool, es: seq<Event>)
    requires Feasible(Initial(canRefresh), es)
    ensures |Unfinished(Run(Initial(canRefresh), es))| <= 1 + Resets(es)
  {
    hide Run, Feasible;
    var sys := Initial(canRefresh);
    assert Orphans(sys) == {};
    RunOrphans(sys, es);
    var last := Run(sys, es);
    if last.inFlight.Some? {
      assert Unfinished(last) == Orphans(last) + {last.inFlight.value};
    }
  }

  /** The flight a caller may join stays until its own `finally`, or a sign-out: no older `finally` clears it. */
  lemma {:induction false} ClearedOnlyByItself(sys: System, es: seq<Event>, g: nat)
    requires Feasible(sys, es) && sys.inFlight == Some(g) && Resets(es) == 0
    requires forall e :: e in es ==> e != Finally(g)
    ensures Run(sys, es).inFlight == Some(g)
    decreases |es|
  {
    if es != [] {
      assert es[0] in es;
      forall e | e in es[1..] ensures e != Finally(g) { assert e in es; }
      ClearedOnlyByItself(Step(sys, es[0]), es[1..], g);
    }
  }

  // ---- answers -----------------------------------------------------------

  /** What a caller is told in the end, once it can be. */
  function AnswerOf(sys: System, reply: Reply): Option<Option<Token>> {
    match reply
    case Unconfigured => Some(None)
    case Current(token) => Some(Some(token))
    case Joined(f) => if f < |sys.flights| && sys.flights[f].Finished? then Some(sys.flights[f].result) else None
  }

  predicate HasResult(sys: System, f: nat, result: Option<Token>) {
    f < |sys.flights| && (sys.flights[f] == Settled(result) || sys.flights[f] == Finished(result))
  }

  lemma {:induction false} ResultsAreFinal(sys: System, es: seq<Event>, f: nat, result: Option<Token>)
    requires Feasible(sys, es) && HasResult(sys, f, result)
    ensures HasResult(Run(sys, es), f, result)
    decreases |es|
  {
    if es != [] { ResultsAreFinal(Step(sys, es[0]), es[1..], f, result); }
  }

  /** A run stopped anywhere is a run, and going on from there reaches the same end. */
  lemma {:induction false} RunSplits(sys: System, es: seq<Event>, n: nat)
    requires Feasible(sys, es) && n <= |es|
    ensures Feasible(sys, es[..n]) && Feasible(Run(sys, es[..n]), es[n..])
    ensures Run(sys, es) == Run(Run(sys, es[..n]), es[n..])
    decreases |es|
  {
    hide Step, Enabled;
    if n == 0 {
      assert es[..0] == [] && es[0..] == es;
    } else {
      RunSplits(Step(sys, es[0]), es[1..], n - 1);
      assert es[..n][0] == es[0] && es[..n][1..] == es[1..][..n - 1] && es[n..] == es[1..][n - 1..];
    }
  }

  /** A flight's result is the outcome of whatever settle it had. */
  lemma {:induction false} SettleDecides(sys: System, es: seq<Event>, f: nat, outcome: Outcome)
    requires Feasible(sys, es) && Settle(f, outcome) in es
    ensures HasResult(Run(sys, es), f, Resolved(outcome))
    decreases |es|
  {
    if es[0] == Settle(f, outcome) {
      ResultsAreFinal(Step(sys, es[0]), es[1..], f, Resolved(outcome));
    } else {
      SettleDecides(Step(sys, es[0]), es[1..], f, outcome);
    }
  }

  /** A result that was not there at the start came from a settle of that flight. */
  lemma {:induction false} ResultFromSettle(sys: System, es: seq<Event>, f: nat, result: Option<Token>)
    requires Feasible(sys, es) && HasResult(Run(sys, es), f, result) && !HasResult(sys, f, result)
    ensures exists outcome :: Settle(f, outcome) in es && Resolved(outcome) == result
    decreases |es|
  {
    var next := Step(sys, es[0]);
    if HasResult(next, f, result) {
      assert es[0].Settle? && es[0].flight == f;
      assert es[0] == Settle(f, es[0].outcome);
    } else {
      ResultFromSettle(next, es[1..], f, result);
      var outcome :| Settle(f, outcome) in es[1..] && Resolved(outcome) == result;
      assert Settle(f, outcome) in es;
    }
  }

  predicate IsFinished(sys: System, f: nat) {
    f < |sys.flights| && sys.flights[f].Finished?
  }

  lemma {:induction false} FinishedByFinally(sys: System, es: seq<Event>, f: nat)
    requires Feasible(sys, es)
    ensures IsFinished(Run(sys, es), f) <==> IsFinished(sys, f) || Finally(f) in es
    decreases |es|
  {
    if es != [] {
      FinishedByFinally(Step(sys, es[0]), es[1..], f);
      assert Finally(f) in es <==> es[0] == Finally(f) || Finally(f) in es[1..];
    }
  }

  /** What the caller of step `k` is replied at once. */
  ghost function ReplyAt(canRefresh: bool, es: seq<Event>, k: nat): Reply
    requires Feasible(Initial(canRefresh), es) && k < |es| && es[k].Call?
  {
    RunSplits(Initial(canRefresh), es, k);
    ReplyTo(Run(Initial(canRefresh), es[..k]), es[k].stale)
  }

  /** What that caller has been told in the end, by step `n`. */
  ghost function ToldBy(canRefresh: bool, es: seq<Event>, k: nat, n: nat): Option<Option<Token>>
    requires Feasible(Initial(canRefresh), es) && k < |es| && es[k].Call? && n <= |es|
  {
    RunSplits(Initial(canRefresh), es, n);
    AnswerOf(Run(Initial(canRefresh), es[..n]), ReplyAt(canRefresh, es, k))
  }

  /** The token that the last successful refresh since the last sign-out came back with, or else `start`. */
  function LastIssued(es: seq<Event>, start: Option<Token>): Option<Token> {
    if es == [] then start
    else
      match es[|es| - 1]
      case Settle(_, Issued(token)) => Some(token)
      case Reset => None
      case _ => LastIssued(es[..|es| - 1], start)
  }

  lemma {:induction false} RemembersLastIssued(sys: System, es: seq<Event>)
    requires Feasible(sys, es)
    ensures Run(sys, es).lastRefreshed == LastIssued(es, sys.lastRefreshed)
    decreases |es|
  {
    if es != [] {
      var n := |es| - 1;
      RunSplits(sys, es, n);
      RemembersLastIssued(sys, es[..n]);
      assert es[n..] == [es[n]] && [es[n]][1..] == [];
    }
  }

  lemma {:induction false} RunKeepsConfiguration(sys: System, es: seq<Event>)
    requires Feasible(sys, es)
    ensures Run(sys, es).canRefresh == sys.canRefresh
    decreases |es|
  {
    if es != [] { RunKeepsConfiguration(Step(sys, es[0]), es[1..]); }
  }

  /** After a sign-out only flights made since then can be joined. */
  lemma {:induction false} JoinableIsNew(sys: System, es: seq<Event>, made: nat)
    requires Feasible(sys, es) && made <= |sys.flights| && (sys.inFlight.Some? ==> made <= sys.inFlight.value)
    ensures var last := Run(sys, es);
            made <= |last.flights| && (last.inFlight.Some? ==> made <= last.inFlight.value)
    decreases |es|
  {
    if es != [] { JoinableIsNew(Step(sys, es[0]), es[1..], made); }
  }

  /** How many flights a run makes. */
  ghost function FlightsMade(canRefresh: bool, es: seq<Event>, k: nat): nat
    requires Feasible(Initial(canRefresh), es) && k <= |es|
  {
    RunSplits(Initial(canRefresh), es, k);
    |Run(Initial(canRefresh), es[..k]).flights|
  }

  /**
   * Over every interleaving, who is answered at once and with what.  A caller is told null exactly
   * if no refresh is configured; it is told the token last issued since the last sign-out exactly
   * if there is one and it is not the token the caller presents.
   */
  lemma AnsweredAtOnceExactly(canRefresh: bool, es: seq<Event>, k: nat, n: nat)
    requires Feasible(Initial(canRefresh), es) && k < |es| && es[k].Call? && n <= |es|
    ensures var reply, issued := ReplyAt(canRefresh, es, k), LastIssued(es[..k], None);
            && (reply == Unconfigured <==> !canRefresh)
            && (reply.Current? <==> canRefresh && issued.Some? && issued != es[k].stale)
            && (!reply.Joined? ==> ToldBy(canRefresh, es, k, n) == Some(if canRefresh then issued else None))
  {
    hide Step, Enabled, Run, Feasible, LastIssued;
    RunSplits(Initial(canRefresh), es, k);
    RemembersLastIssued(Initial(canRefresh), es[..k]);
    RunKeepsConfiguration(Initial(canRefresh), es[..k]);
  }

  /** And over every interleaving, a caller only joins a flight not yet finished, and made since the last sign-out. */
  lemma JoinsLiveFlightsOnly(canRefresh: bool, es: seq<Event>, k: nat, f: nat, j: nat)
    requires Feasible(Initial(canRefresh), es) && k < |es| && es[k].Call?
    requires ReplyAt(canRefresh, es, k) == Joined(f)
    ensures Finally(f) !in es[..k]
    ensures f <= FlightsMade(canRefresh, es, k)
    ensures j < k && es[j].Reset? ==> f >= FlightsMade(canRefresh, es, j)
  {
    hide Step, Enabled, Run, Feasible;
    var start, until := Initial(canRefresh), es[..k];
    RunSplits(start, es, k);
    RunOrphans(start, until);
    FinishedByFinally(start, until, f);
    if j < k && es[j].Reset? { ResetForgetsFlights(canRefresh, es, k, j); }
  }

  lemma ResetForgetsFlights(canRefresh: bool, es: seq<Event>, k: nat, j: nat)
    requires j < k <= |es| && es[j].Reset?
    requires Feasible(Initial(canRefresh), es) && Feasible(Initial(canRefresh), es[..k])
    ensures var sys := Run(Initial(canRefresh), es[..k]);
            var made := FlightsMade(canRefresh, es, j);
            made <= |sys.flights| && (sys.inFlight.Some? ==> made <= sys.inFlight.value)
  {
    hide Run, Feasible;
    var start, until := Initial(canRefresh), es[..k];
    RunSplits(start, es, j);
    RunSplits(start, until, j);
    assert until[..j] == es[..j] && until[j] == es[j];
    var before := Run(start, es[..j]);
    RunOnce(before, until[j..]);
    JoinableIsNew(Step(before, Reset), until[j..][1..], |before.flights|);
  }

  lemma RunOnce(sys: System, es: seq<Event>)
    requires es != [] && Feasible(sys, es)
    ensures Enabled(sys, es[0]) && Feasible(Step(sys, es[0]), es[1..])
    ensures Run(sys, es) == Run(Step(sys, es[0]), es[1..])
  {
  }

  /**
   * Over every interleaving, sign-outs included, a caller that joined a flight, whether it made
   * the flight or came later, is answered once the flight's `finally` has run, and with that
   * flight's own outcome: the token issued to it, or null if it got none or threw.
   */
  lemma JoinerGetsTheOutcome(canRefresh: bool, es: seq<Event>, k: nat, n: nat, f: nat)
    requires Feasible(Initial(canRefresh), es) && k < |es| && es[k].Call? && n <= |es|
    requires ReplyAt(canRefresh, es, k) == Joined(f)
    ensures ToldBy(canRefresh, es, k, n).Some? <==> Finally(f) in es[..n]
    ensures ToldBy(canRefresh, es, k, n).Some? ==>
              && (exists outcome :: Settle(f, outcome) in es)
              && forall outcome :: Settle(f, outcome) in es ==>
                   ToldBy(canRefresh, es, k, n).value == if outcome.Issued? then Some(outcome.token) else None
  {
    hide Step, Enabled, Run, Feasible;
    var start, until := Initial(canRefresh), es[..n];
    RunSplits(start, es, n);
    FinishedByFinally(start, until, f);
    if ToldBy(canRefresh, es, k, n).Some? {
      var result := ToldBy(canRefresh, es, k, n).value;
      ResultFromSettle(start, until, f, result);
      var settled :| Settle(f, settled) in until && Resolved(settled) == result;
      assert Settle(f, settled) in es;
      ResultsAreFinal(Run(start, until), es[n..], f, result);
      forall outcome | Settle(f, outcome) in es ensures result == Resolved(outcome) {
        SettleDecides(start, es, f, outcome);
      }
    }
  }

  /** So any two callers that joined one flight, whenever they joined and whenever they ask, are told the same. */
  lemma JoinersShareTheResult(canRefresh: bool, es: seq<Event>, k: nat, l: nat, m: nat, n: nat, f: nat)
    requires Feasible(Initial(canRefresh), es) && m <= |es| && n <= |es|
    requires k < |es| && es[k].Call? && ReplyAt(canRefresh, es, k) == Joined(f)
    requires l < |es| && es[l].Call? && ReplyAt(canRefresh, es, l) == Joined(f)
    requires ToldBy(canRefresh, es, k, m).Some? && ToldBy(canRefresh, es, l, n).Some?
    ensures ToldBy(canRefresh, es, k, m) == ToldBy(canRefresh, es, l, n)
  {
    hide Feasible, ReplyAt, ToldBy;
    JoinerGetsTheOutcome(canRefresh, es, k, m, f);
    JoinerGetsTheOutcome(canRefresh, es, l, n, f);
    var outcome :| Settle(f, outcome) in es;
  }

  // ---- no token is spent twice -------------------------------------------

  /** Every token presented so far, and which flights, not yet settled, it was presented to. */
  datatype History = History(presented: set<Option<Token>>, spent: set<(Option<Token>, nat)>)

  predicate Pending(sys: System, f: nat) {
    f < |sys.flights| && (sys.flights[f].Scheduled? || sys.flights[f].Running?)
  }

  predicate Succeeded(sys: System, f: nat) {
    f < |sys.flights| && (sys.flights[f].Settled? || sys.flights[f].Finished?) && sys.flights[f].result.Some?
  }

  function Recorded(h: History, sys: System, e: Event): History
    requires Enabled(sys, e)
  {
    if !e.Call? then h
    else
      var reply := ReplyTo(sys, e.stale);
      History(
        h.presented + {e.stale},
        if reply.Joined? && Pending(Step(sys, e), reply.flight) then h.spent + {(e.stale, reply.flight)} else h.spent)
  }

  /** Issued tokens are fresh: nobody presented one before it was issued. */
  predicate FreshTokens(sys: System, h: History, es: seq<Event>)
    requires Feasible(sys, es)
    decreases |es|
  {
    es != [] ==>
      && (es[0].Settle? && es[0].outcome.Issued? ==> Some(es[0].outcome.token) !in h.presented)
      && FreshTokens(Step(sys, es[0]), Recorded(h, sys, es[0]), es[1..])
  }

  function HistoryRun(sys: System, h: History, es: seq<Event>): History
    requires Feasible(sys, es)
    decreases |es|
  {
    if es == [] then h else HistoryRun(Step(sys, es[0]), Recorded(h, sys, es[0]), es[1..])
  }

  /** A flight that succeeded or may still. */
  predicate Alive(sys: System, f: nat) {
    Pending(sys, f) || Succeeded(sys, f)
  }

  ghost predicate SpendInv(sys: System, h: History) {
    && (forall f: nat :: Pending(sys, f) ==> sys.inFlight == Some(f))
    && (sys.inFlight.Some? ==> sys.inFlight.value < |sys.flights|)
    && (forall p :: p in h.spent ==> p.0 in h.presented && p.1 < |sys.flights|)
    && (forall p :: p in h.spent && Succeeded(sys, p.1) ==> sys.lastRefreshed.Some? && sys.lastRefreshed != p.0)
    && (forall p, q :: p in h.spent && q in h.spent && p.0 == q.0 && Alive(sys, p.1) && Alive(sys, q.1) ==> p.1 == q.1)
  }

  lemma CallSpends(sys: System, h: History, e: Event)
    requires SpendInv(sys, h) && e.Call?
    ensures SpendInv(Step(sys, e), Recorded(h, sys, e))
  {
    var next := Step(sys, e);
    assert forall f: nat :: f < |sys.flights| ==> next.flights[f] == sys.flights[f];
  }

  lemma SettleSpends(sys: System, h: History, e: Event)
    requires SpendInv(sys, h) && e.Settle? && Enabled(sys, e)
    requires e.outcome.Issued? ==> Some(e.outcome.token) !in h.presented
    ensures SpendInv(Step(sys, e), h)
  {
    var next := Step(sys, e);
    assert forall f: nat :: f < |sys.flights| && f != e.flight ==> next.flights[f] == sys.flights[f];
  }

  lemma OtherSpends(sys: System, h: History, e: Event)
    requires SpendInv(sys, h) && Enabled(sys, e) && (e.Begin? || e.Finally?)
    ensures SpendInv(Step(sys, e), h)
  {
    var next := Step(sys, e);
    assert forall f: nat :: f < |sys.flights| && f != e.flight ==> next.flights[f] == sys.flights[f];
  }

  lemma {:induction false} RunSpends(sys: System, h: History, es: seq<Event>)
    requires SpendInv(sys, h) && Feasible(sys, es) && Resets(es) == 0 && FreshTokens(sys, h, es)
    ensures SpendInv(Run(sys, es), HistoryRun(sys, h, es))
    decreases |es|
  {
    hide SpendInv;
    if es != [] {
      var e := es[0];
      if e.Call? {
        CallSpends(sys, h, e);
      } else if e.Settle? {
        SettleSpends(sys, h, e);
      } else {
        OtherSpends(sys, h, e);
      }
      RunSpends(Step(sys, es[0]), Recorded(h, sys, es[0]), es[1..]);
    }
  }

  /**
   * Over every interleaving without sign-outs, if issued tokens are fresh, each stale token is
   * spent in at most one refresh that succeeds.
   */
  lemma SpentAtMostOnce(canRefresh: bool, es: seq<Event>, stale: Option<Token>, f: nat, g: nat)
    requires Feasible(Initial(canRefresh), es) && Resets(es) == 0
    requires FreshTokens(Initial(canRefresh), History({}, {}), es)
    requires (stale, f) in HistoryRun(Initial(canRefresh), History({}, {}), es).spent
    requires (stale, g) in HistoryRun(Initial(canRefresh), History({}, {}), es).spent
    requires Succeeded(Run(Initial(canRefresh), es), f) && Succeeded(Run(Initial(canRefresh), es), g)
    ensures f == g
  {
    hide Run, Feasible, HistoryRun, FreshTokens;
    RunSpends(Initial(canRefresh), History({}, {}), es);
  }

  // ---- what does not hold ------------------------------------------------

  /**
   * Without sign-outs the flight at hand is the only unfinished one, and once it settles its token is the
   * current one.
   */
  ghost predicate CurrentInv(sys: System) {
    && (forall f :: 0 <= f < |sys.flights| && !sys.flights[f].Finished? ==> sys.inFlight == Some(f) && sys.canRefresh)
    && (forall f :: 0 <= f < |sys.flights| && sys.flights[f].Settled? && sys.flights[f].result.Some? ==>
          sys.lastRefreshed == sys.flights[f].result)
  }

  lemma {:induction false} RunCurrent(sys: System, es: seq<Event>)
    requires Feasible(sys, es) && Resets(es) == 0 && CurrentInv(sys)
    ensures CurrentInv(Run(sys, es))
    decreases |es|
  {
    hide CurrentInv;
    if es != [] {
      StepCurrent(sys, es[0]);
      RunCurrent(Step(sys, es[0]), es[1..]);
    }
  }

  lemma StepCurrent(sys: System, e: Event)
    requires Enabled(sys, e) && !e.Reset? && CurrentInv(sys)
    ensures CurrentInv(Step(sys, e))
  {
  }

  /**
   * Over every interleaving without sign-outs: while a flight has settled with a token but its
   * `finally` has not run, a caller joins it exactly if it presents that very token, and is then
   * handed back the token it presented.
   */
  lemma LateJoinerGetsItsOwnToken(canRefresh: bool, es: seq<Event>, stale: Option<Token>, f: nat, token: Token)
    requires Feasible(Initial(canRefresh), es) && Resets(es) == 0
    requires f < |Run(Initial(canRefresh), es).flights|
    requires Run(Initial(canRefresh), es).flights[f] == Settled(Some(token))
    ensures ReplyTo(Run(Initial(canRefresh), es), stale) == Joined(f) <==> stale == Some(token)
    ensures AnswerOf(Step(Run(Initial(canRefresh), es), Finally(f)), Joined(f)) == Some(Some(token))
  {
    hide Run, Feasible;
    RunCurrent(Initial(canRefresh), es);
  }

  lemma {:induction false} OneMore(sys: System, es: seq<Event>, e: Event)
    requires Feasible(sys, es) && Enabled(Run(sys, es), e)
    ensures Feasible(sys, es + [e]) && Run(sys, es + [e]) == Step(Run(sys, es), e)
    decreases |es|
  {
    hide Step, Enabled;
    if es == [] {
      assert [] + [e] == [e] && [e][1..] == [];
    } else {
      OneMore(Step(sys, es[0]), es[1..], e);
      assert (es + [e])[0] == es[0] && (es + [e])[1..] == es[1..] + [e];
    }
  }

  /** A first call, its flight's refresh, and the token it issues. */
  lemma IssueRun(token: Token) returns (es: seq<Event>)
    ensures es == [Call(None), Begin(0), Settle(0, Issued(token))] && Feasible(Initial(true), es)
    ensures Run(Initial(true), es) == System(true, Some(0), Some(token), [Settled(Some(token))])
  {
    es := [];
    OneMore(Initial(true), es, Call(None));
    es := es + [Call(None)];
    OneMore(Initial(true), es, Begin(0));
    es := es + [Begin(0)];
    OneMore(Initial(true), es, Settle(0, Issued(token)));
    es := es + [Settle(0, Issued(token))];
  }

  /** Such a run: a caller refused with the token just issued joins its flight and is told that token. */
  lemma LateJoinHappens(token: Token)
    ensures var es := [Call(None), Begin(0), Settle(0, Issued(token)), Call(Some(token)), Finally(0)];
            && Feasible(Initial(true), es)
            && ReplyAt(true, es, 3) == Joined(0) && ToldBy(true, es, 3, 5) == Some(Some(token))
  {
    var issued := IssueRun(token);
    var joined := issued + [Call(Some(token))];
    OneMore(Initial(true), issued, Call(Some(token)));
    OneMore(Initial(true), joined, Finally(0));
    var es := [Call(None), Begin(0), Settle(0, Issued(token)), Call(Some(token)), Finally(0)];
    assert es == joined + [Finally(0)] && es[..3] == issued && es[..5] == es;
  }

  /** Only flights that were made before the sign-out move on. */
  predicate OldFlightsOnly(n: nat, es: seq<Event>) {
    forall e :: e in es ==> !e.Call? && !e.Reset? && e.flight < n
  }

  lemma {:induction false} NothingLeftToIssue(sys: System, es: seq<Event>)
    requires Feasible(sys, es) && OldFlightsOnly(|sys.flights|, es) && sys.lastRefreshed.None?
    requires forall f: nat :: !Pending(sys, f)
    ensures Run(sys, es).lastRefreshed.None?
    decreases |es|
  {
    if es != [] {
      var e, next := es[0], Step(sys, es[0]);
      assert e in es;
      forall x | x in es[1..] ensures x in es {}
      assert !e.Settle? by { if e.Settle? { assert Pending(sys, e.flight); } }
      forall f: nat ensures !Pending(next, f) { assert !Pending(sys, f); }
      NothingLeftToIssue(next, es[1..]);
    }
  }

  /**
   * A sign-out forgets the session for good exactly if no flight was pending: otherwise the old
   * flight's continuation may still store its token afterwards.
   */
  lemma ResetForgetsExactly(sys: System)
    ensures (forall es :: OldFlightsOnly(|sys.flights|, es) && Feasible(Step(sys, Reset), es) ==>
      Run(Step(sys, Reset), es).lastRefreshed.None?)
        <==> forall f: nat :: !Pending(sys, f)
  {
    var after := Step(sys, Reset);
    if forall f: nat :: !Pending(sys, f) {
      assert forall f: nat :: Pending(after, f) ==> Pending(sys, f);
      forall es | OldFlightsOnly(|sys.flights|, es) && Feasible(after, es) ensures Run(after, es).lastRefreshed.None? {
        NothingLeftToIssue(after, es);
      }
    } else {
      var f: nat :| Pending(sys, f);
      OldFlightIssues(after, f, "old session");
    }
  }

  lemma RunningFlightIssues(sys: System, f: nat, token: Token)
    requires f < |sys.flights| && sys.flights[f].Running?
    ensures Feasible(sys, [Settle(f, Issued(token))])
    ensures Run(sys, [Settle(f, Issued(token))]).lastRefreshed == Some(token)
  {
    assert [Settle(f, Issued(token))][1..] == [];
  }

  lemma OldFlightIssues(sys: System, f: nat, token: Token)
    requires Pending(sys, f)
    ensures exists es ::
              OldFlightsOnly(|sys.flights|, es) && Feasible(sys, es) && Run(sys, es).lastRefreshed == Some(token)
  {
    var settle := Settle(f, Issued(token));
    if sys.flights[f].Running? {
      RunningFlightIssues(sys, f, token);
      assert OldFlightsOnly(|sys.flights|, [settle]);
    } else {
      var es := [Begin(f), settle];
      RunningFlightIssues(Step(sys, Begin(f)), f, token);
      assert es[1..] == [settle];
      assert OldFlightsOnly(|sys.flights|, es);
      assert Feasible(sys, es) && Run(sys, es) == Run(Step(sys, Begin(f)), [settle]);
    }
  }

  /** Such a run: a refresh is under way when the user signs out, and its token is stored afterwards. */
  lemma OldTokenSurvivesReset(token: Token)
    ensures var es := [Call(None), Begin(0), Reset, Settle(0, Issued(token))];
            Feasible(Initial(true), es) && Run(Initial(true), es).lastRefreshed == Some(token)
  {
    var es: seq<Event> := [];
    OneMore(Initial(true), es, Call(None));
    es := es + [Call(None)];
    OneMore(Initial(true), es, Begin(0));
    es := es + [Begin(0)];
    OneMore(Initial(true), es, Reset);
    es := es + [Reset];
    OneMore(Initial(true), es, Settle(0, Issued(token)));
    assert es + [Settle(0, Issued(token))] == [Call(None), Begin(0), Reset, Settle(0, Issued(token))];
  }
}

/** The token manager's own fields, with every continuation a method. */
module TokenManagers {
  import opened Basics
  import opened TokenProtocol

  class TokenManager {
    const canRefresh: bool
    var inFlight: Option<nat>
    var lastRefreshed: Option<Token>

    /** Promise identities are drawn from here. */
    var created: nat
    ghost var flights: seq<Phase>

    ghost predicate Valid()
      reads this
    {
      |flights| == created
    }

    ghost function State(): System
      reads this
    {
      System(canRefresh, inFlight, lastRefreshed, flights)
    }

    constructor (canRefresh: bool)
      ensures Valid() && State() == Initial(canRefresh)
    {
      this.canRefresh := canRefresh;
      inFlight, lastRefreshed, created, flights := None, None, 0, [];
    }

    /** The synchronous part of `refresh`, which is all of it. */
    method Refresh(stale: Option<Token>) returns (reply: Reply)
      requires Valid()
      modifies this
      ensures Valid() && State() == Step(old(State()), Call(stale)) && reply == ReplyTo(old(State()), stale)
    {
      if !canRefresh { return Unconfigured; }
      if lastRefreshed.Some? && lastRefreshed != stale { return Current(lastRefreshed.value); }
      if inFlight.Some? { return Joined(inFlight.value); }
      var flight := created;
      created, flights := created + 1, flights + [Scheduled];
      inFlight := Some(flight);
      return Joined(flight);
    }

    /** `.then(() => refreshAccessToken())`: the underlying refresh is called. */
    ghost method OnBegin(flight: nat)
      requires Valid() && Enabled(State(), Begin(flight))
      modifies this`flights
      ensures Valid() && State() == Step(old(State()), Begin(flight))
    {
      flights := flights[flight := Running];
    }

    /** The `then` and `catch` continuations. */
    method OnSettle(flight: nat, outcome: Outcome)
      requires Valid() && Enabled(State(), Settle(flight, outcome))
      modifies this
      ensures Valid() && State() == Step(old(State()), Settle(flight, outcome))
    {
      if outcome.Issued? { lastRefreshed := Some(outcome.token); }
      flights := flights[flight := Settled(Resolved(outcome))];
    }

    /** The `finally` continuation. */
    method OnFinally(flight: nat)
      requires Valid() && Enabled(State(), Finally(flight))
      modifies this
      ensures Valid() && State() == Step(old(State()), Finally(flight))
    {
      if inFlight == Some(flight) { inFlight := None; }
      flights := flights[flight := Finished(flights[flight].result)];
    }

    method Forget()
      requires Valid()
      modifies this
      ensures Valid() && State() == Step(old(State()), Reset)
    {
      inFlight, lastRefreshed := None, None;
    }
  }
}
