/** A token source that shares one refresh among all its callers. The sections under the source's mutex, the reply of the
    token endpoint, the update callback, and each caller's wake-up are the steps; times, replies, failures, cancellations and
    the schedule are arbitrary. */
module TokenRefresh {
  import opened Wrappers
  import opened Text

  datatype Token = Token(access: string, refresh: string, tokenType: string, expiresAt: Option<int>, scope: string)

  /** Present, and not within `early` of its expiry; without an expiry it is valid until rejected. */
  predicate Valid(t: Token, now: int, early: int) {
    TrimSpace(t.access) != "" && (t.expiresAt.None? || now + early < t.expiresAt.value)
  }

  /** What a caller finds under the mutex. */
  datatype Decision = UseCurrent | NoRefreshToken | Join | Lead

  function Decide(t: Token, inFlight: bool, now: int, early: int): Decision {
    if Valid(t, now, early) then UseCurrent
    else if TrimSpace(t.refresh) == "" then NoRefreshToken
    else if inFlight then Join
    else Lead
  }

  /** A reply that leaves out the refresh token or the type keeps the old refresh token and is a bearer token. */
  function Completed(reply: Token, refreshToken: string): Token {
    reply.(refresh := if reply.refresh == "" then refreshToken else reply.refresh,
           tokenType := if reply.tokenType == "" then "Bearer" else reply.tokenType)
  }

  // ---- the protocol ----

  datatype Outcome = RefreshFailed | Refreshed(access: string)

  datatype Phase = Exchanging | Updating(token: Token) | Finishing(result: Option<Token>)

  /** The goroutine of one refresh. */
  datatype Task = Task(refreshToken: string, phase: Phase)

  datatype Result = Got(access: string) | Failed | Unavailable | Cancelled

  /** A caller waits for the refresh it joined or started, or has returned. */
  datatype Caller = Waiting(id: nat) | Returned(joined: Option<nat>, result: Result)

  /** What the session's update callback wrote. */
  datatype Saved = Saved(access: string, refresh: string, expiresAt: Option<int>)

  /** `outcomes` holds every refresh ever started, with its outcome once its `done` is closed; `store` is absent without an
      update callback. */
  datatype State = State(
    token: Token,
    refreshing: Option<nat>,
    started: nat,
    outcomes: map<nat, Option<Outcome>>,
    tasks: map<nat, Task>,
    callers: map<nat, Caller>,
    store: Option<Saved>)

  datatype Step =
    | CallToken(caller: nat, cancelled: bool, now: int, early: int)
    | Reply(id: nat, reply: Option<Token>)
    | Update(id: nat, ok: bool)
    | Finish(id: nat)
    | WakeUp(caller: nat)
    | CancelWait(caller: nat)

  function SavedOf(t: Token): Saved {
    Saved(t.access, t.refresh, t.expiresAt)
  }

  function Init(initial: Token, hasStore: bool): State {
    State(initial, None, 0, map[], map[], map[], if hasStore then Some(SavedOf(initial)) else None)
  }

  predicate Enabled(s: State, step: Step) {
    match step
    case CallToken(caller, _, _, _) => caller !in s.callers
    case Reply(id, _) => id in s.tasks && s.tasks[id].phase.Exchanging?
    case Update(id, _) => id in s.tasks && s.tasks[id].phase.Updating?
    case Finish(id) => id in s.tasks && s.tasks[id].phase.Finishing?
    case WakeUp(caller) =>
      caller in s.callers && s.callers[caller].Waiting?
      && s.callers[caller].id in s.outcomes && s.outcomes[s.callers[caller].id].Some?
    case CancelWait(caller) => caller in s.callers && s.callers[caller].Waiting?
  }

  function ResultOf(o: Outcome): Result {
    match o
    case RefreshFailed => Failed
    case Refreshed(access) => Got(access)
  }

  function OutcomeOf(result: Option<Token>): Outcome {
    match result
    case None => RefreshFailed
    case Some(t) => Refreshed(t.access)
  }

  function CallNext(s: State, caller: nat, now: int, early: int): State {
    match Decide(s.token, s.refreshing.Some?, now, early)
    case UseCurrent => s.(callers := s.callers[caller := Returned(None, Got(s.token.access))])
    case NoRefreshToken => s.(callers := s.callers[caller := Returned(None, Unavailable)])
    case Join =>
      if s.refreshing.Some? then s.(callers := s.callers[caller := Waiting(s.refreshing.value)]) else s
    case Lead =>
      var id := s.started;
      s.(refreshing := Some(id), started := id + 1, outcomes := s.outcomes[id := None],
         tasks := s.tasks[id := Task(s.token.refresh, Exchanging)], callers := s.callers[caller := Waiting(id)])
  }

  function AfterReply(s: State, task: Task, reply: Option<Token>): Phase {
    match reply
    case None => Finishing(None)
    case Some(r) =>
      var t := Completed(r, task.refreshToken);
      if s.store.Some? then Updating(t) else Finishing(Some(t))
  }

  function Next(s: State, step: Step): State
    requires Enabled(s, step)
  {
    match step
    case CallToken(caller, cancelled, now, early) =>
      if cancelled then s.(callers := s.callers[caller := Returned(None, Cancelled)]) else CallNext(s, caller, now, early)
    case Reply(id, reply) =>
      s.(tasks := s.tasks[id := s.tasks[id].(phase := AfterReply(s, s.tasks[id], reply))])
    case Update(id, ok) =>
      var t := s.tasks[id].phase.token;
      if ok then s.(store := Some(SavedOf(t)), tasks := s.tasks[id := s.tasks[id].(phase := Finishing(Some(t)))])
      else s.(tasks := s.tasks[id := s.tasks[id].(phase := Finishing(None))])
    case Finish(id) =>
      var result := s.tasks[id].phase.result;
      s.(token := if result.Some? then result.value else s.token, refreshing := None,
         outcomes := s.outcomes[id := Some(OutcomeOf(result))], tasks := s.tasks - {id})
    case WakeUp(caller) =>
      var id := s.callers[caller].id;
      s.(callers := s.callers[caller := Returned(Some(id), ResultOf(s.outcomes[id].value))])
    case CancelWait(caller) =>
      s.(callers := s.callers[caller := Returned(Some(s.callers[caller].id), Cancelled)])
  }

  // ---- what a call and a reply do ----

  /** A caller is handed the current token exactly when it is not blank and not within `early` of its expiry. Otherwise it is
      told that there is no refresh token, or waits for the refresh in flight, or starts one with the current refresh token;
      nothing else changes. */
  lemma CallMeans(s: State, step: Step)
    requires Enabled(s, step) && step.CallToken?
    ensures var t, c := s.token, step.caller;
            var usable := TrimSpace(t.access) != "" && (t.expiresAt == None || step.now + step.early < t.expiresAt.value);
            Next(s, step) ==
            if step.cancelled then s.(callers := s.callers[c := Returned(None, Cancelled)])
            else if usable then s.(callers := s.callers[c := Returned(None, Got(t.access))])
            else if TrimSpace(t.refresh) == "" then s.(callers := s.callers[c := Returned(None, Unavailable)])
            else if s.refreshing.Some? then s.(callers := s.callers[c := Waiting(s.refreshing.value)])
            else s.(refreshing := Some(s.started), started := s.started + 1, outcomes := s.outcomes[s.started := None],
                    tasks := s.tasks[s.started := Task(t.refresh, Exchanging)], callers := s.callers[c := Waiting(s.started)])
  {
    hide TrimSpace;
  }

  /** A token received by a caller, whichever way, is the current token that is usable at that moment, or the one that the
      refresh it waited for brought. */
  lemma GotMeans(s: State, step: Step, caller: nat)
    requires Enabled(s, step) && (caller !in s.callers || s.callers[caller].Waiting?)
    requires caller in Next(s, step).callers && Next(s, step).callers[caller].Returned?
    requires Next(s, step).callers[caller].result.Got?
    ensures var access := Next(s, step).callers[caller].result.access;
            || (&& step.CallToken? && access == s.token.access && TrimSpace(access) != ""
                && (s.token.expiresAt == None || step.now + step.early < s.token.expiresAt.value))
            || (step.WakeUp? && s.callers[caller].Waiting? && s.outcomes[s.callers[caller].id] == Some(Refreshed(access)))
  {
    hide TrimSpace;
  }

  /** A reply's token keeps its access token, expiry and scope; an empty refresh token is replaced by the one that was sent,
      and an empty type by "Bearer". It is saved before it is published where there is an update callback. */
  lemma ReplyMeans(s: State, step: Step)
    requires Enabled(s, step) && step.Reply?
    ensures var after := Next(s, step);
            && after == s.(tasks := after.tasks) && after.tasks.Keys == s.tasks.Keys
            && (forall id | id in s.tasks && id != step.id :: after.tasks[id] == s.tasks[id])
            && after.tasks[step.id].refreshToken == s.tasks[step.id].refreshToken
            && (step.reply == None ==> after.tasks[step.id].phase == Finishing(None))
            && (step.reply.Some? ==>
              var r := step.reply.value;
              var t := Token(r.access, if r.refresh == "" then s.tasks[step.id].refreshToken else r.refresh,
                             if r.tokenType == "" then "Bearer" else r.tokenType, r.expiresAt, r.scope);
              after.tasks[step.id].phase == if s.store == None then Finishing(Some(t)) else Updating(t))
  {
  }

  /** The callback that accepts saves access token, refresh token and expiry; the one that fails makes the refresh fail. */
  lemma UpdateMeans(s: State, step: Step)
    requires Enabled(s, step) && step.Update?
    ensures var after, t := Next(s, step), s.tasks[step.id].phase.token;
            && after.tasks == s.tasks[step.id := Task(s.tasks[step.id].refreshToken, Finishing(if step.ok then Some(t) else None))]
            && after.store == (if step.ok then Some(Saved(t.access, t.refresh, t.expiresAt)) else s.store)
            && after.token == s.token && after.refreshing == s.refreshing
            && after.callers == s.callers && after.outcomes == s.outcomes
  {
  }

  /** Finishing publishes the token, if there is one, and the outcome that the waiters return, and clears the refresh. */
  lemma FinishMeans(s: State, step: Step)
    requires Enabled(s, step) && step.Finish?
    ensures var after, result := Next(s, step), s.tasks[step.id].phase.result;
            && after.token == (if result == None then s.token else result.value)
            && after.outcomes == s.outcomes[step.id := Some(if result == None then RefreshFailed else Refreshed(result.value.access))]
            && after.refreshing == None && after.tasks == s.tasks - {step.id}
            && after.callers == s.callers && after.store == s.store
  {
  }

  /** A waiter returns what its refresh brought, or that it was cancelled. */
  lemma WaiterMeans(s: State, step: Step)
    requires Enabled(s, step) && (step.WakeUp? || step.CancelWait?)
    ensures var c, id := step.caller, s.callers[step.caller].id;
            Next(s, step) == s.(callers := s.callers[c := Returned(Some(id),
              if step.CancelWait? then Cancelled
              else if s.outcomes[id] == Some(RefreshFailed) then Failed
              else Got(s.outcomes[id].value.access))])
  {
  }

  // ---- what every step keeps ----

  ghost predicate OneTask(s: State) {
    && s.tasks.Keys == (if s.refreshing.Some? then {s.refreshing.value} else {})
    && (forall id | id in s.tasks :: id in s.outcomes)
    && (forall id | id in s.outcomes :: id < s.started && (s.outcomes[id].None? <==> id in s.tasks))
  }

  ghost predicate CallersServed(s: State) {
    && (forall c | c in s.callers && s.callers[c].Waiting? :: s.callers[c].id in s.outcomes)
    && (forall c | c in s.callers && s.callers[c].Returned? && s.callers[c].joined.Some? && !s.callers[c].result.Cancelled? ::
          var id := s.callers[c].joined.value;
          id in s.outcomes && s.outcomes[id].Some? && s.callers[c].result == ResultOf(s.outcomes[id].value))
  }

  ghost predicate TaskAgrees(s: State, task: Task) {
    && task.refreshToken == s.token.refresh && task.refreshToken != ""
    && match task.phase
       case Exchanging => s.store.Some? ==> s.store.value == SavedOf(s.token)
       case Updating(t) => t.refresh != "" && s.store == Some(SavedOf(s.token))
       case Finishing(Some(t)) => t.refresh != "" && (s.store.Some? ==> s.store.value == SavedOf(t))
       case Finishing(None) => s.store.Some? ==> s.store.value == SavedOf(s.token)
  }

  ghost predicate TokensAgree(s: State) {
    && (forall id | id in s.tasks :: TaskAgrees(s, s.tasks[id]))
    && (s.tasks == map[] && s.store.Some? ==> s.store.value == SavedOf(s.token))
  }

  ghost predicate Inv(s: State) {
    OneTask(s) && CallersServed(s) && TokensAgree(s)
  }

  lemma InitHolds(initial: Token, hasStore: bool)
    ensures Inv(Init(initial, hasStore))
  {
  }

  predicate Leads(s: State, step: Step) {
    step.CallToken? && !step.cancelled && Decide(s.token, s.refreshing.Some?, step.now, step.early).Lead?
  }

  lemma LeadKeeps(s: State, step: Step)
    requires Inv(s) && Enabled(s, step) && Leads(s, step)
    ensures Inv(Next(s, step))
  {
    hide TrimSpace, Valid;
    assert TrimSpace("") == "" by { NothingLeft(); }
    assert s.tasks == map[];
    assert Next(s, step).tasks.Keys == {s.started};
  }

  lemma OtherCallKeeps(s: State, step: Step)
    requires Inv(s) && Enabled(s, step) && step.CallToken? && !Leads(s, step)
    ensures Inv(Next(s, step))
  {
    hide TrimSpace, Valid;
  }

  lemma NothingLeft()
    ensures TrimSpace("") == ""
  {
  }

  lemma FinishKeeps(s: State, id: nat)
    requires Inv(s) && Enabled(s, Finish(id))
    ensures Inv(Next(s, Finish(id)))
  {
    var t := Next(s, Finish(id));
    assert s.tasks.Keys == {id};
    assert t.tasks == map[];
    assert TaskAgrees(s, s.tasks[id]);
  }

  lemma TaskStepKeeps(s: State, step: Step)
    requires Inv(s) && Enabled(s, step) && (step.Reply? || step.Update?)
    ensures Inv(Next(s, step))
  {
    assert s.tasks.Keys == {step.id};
    assert Next(s, step).tasks.Keys == s.tasks.Keys;
    assert TaskAgrees(s, s.tasks[step.id]);
  }

  lemma NextKeeps(s: State, step: Step)
    requires Inv(s) && Enabled(s, step)
    ensures Inv(Next(s, step))
  {
    match step
    case CallToken(_, _, _, _) =>
      hide Inv, Next;
      if Leads(s, step) {
        LeadKeeps(s, step);
      } else {
        OtherCallKeeps(s, step);
      }
    case Reply(_, _) =>
      hide Inv, Next;
      TaskStepKeeps(s, step);
    case Update(_, _) =>
      hide Inv, Next;
      TaskStepKeeps(s, step);
    case Finish(id) =>
      hide Inv, Next;
      FinishKeeps(s, id);
    case WakeUp(_) =>
      hide OneTask;
    case CancelWait(_) =>
      hide OneTask;
  }

  /** The visible token changes only when a refresh finishes after its update callback, if there is one, has saved exactly the
      new token; and a refresh token that is not empty never becomes empty. */
  lemma TokenChangesAfterUpdate(s: State, step: Step)
    requires Inv(s) && Enabled(s, step)
    ensures var t := Next(s, step);
            && (t.token != s.token ==>
              && step.Finish? && s.tasks[step.id].phase == Finishing(Some(t.token))
              && (s.store.Some? ==> s.store.value == SavedOf(t.token)))
            && (s.token.refresh != "" ==> t.token.refresh != "")
  {
    hide OneTask, CallersServed;
    if step.Finish? {
      assert TaskAgrees(s, s.tasks[step.id]);
    }
  }

  /** An outcome is written once. */
  lemma OutcomesStay(s: State, step: Step, id: nat)
    requires Inv(s) && Enabled(s, step) && id in s.outcomes && s.outcomes[id].Some?
    ensures id in Next(s, step).outcomes && Next(s, step).outcomes[id] == s.outcomes[id]
  {
    hide CallersServed, TokensAgree;
  }

  // ---- runs ----

  ghost predicate ValidRun(s: State, steps: seq<Step>)
    decreases |steps|
  {
    steps == [] || (Enabled(s, steps[0]) && ValidRun(Next(s, steps[0]), steps[1..]))
  }

  ghost function Run(s: State, steps: seq<Step>): State
    requires ValidRun(s, steps)
    decreases |steps|
  {
    if steps == [] then s else Run(Next(s, steps[0]), steps[1..])
  }

  lemma {:induction false} RunKeeps(s: State, steps: seq<Step>)
    requires Inv(s) && ValidRun(s, steps)
    ensures Inv(Run(s, steps))
    ensures s.token.refresh != "" ==> Run(s, steps).token.refresh != ""
    ensures Run(s, steps).store.Some? <==> s.store.Some?
    decreases |steps|
  {
    hide Inv, Next;
    if steps != [] {
      NextKeeps(s, steps[0]);
      TokenChangesAfterUpdate(s, steps[0]);
      StoreStays(s, steps[0]);
      RunKeeps(Next(s, steps[0]), steps[1..]);
    }
  }

  lemma StoreStays(s: State, step: Step)
    requires Inv(s) && Enabled(s, step)
    ensures Next(s, step).store.Some? <==> s.store.Some?
  {
    hide OneTask, CallersServed;
    if step.Update? {
      assert TaskAgrees(s, s.tasks[step.id]);
    }
  }

  /** In every run: at most one refresh runs, and every waiter's refresh is running or has an outcome; a waiter that was not
      cancelled returned the outcome of the refresh it joined; a refresh token is never lost; and whenever no refresh runs, the
      saved token is the one in memory. */
  lemma RefreshIsShared(initial: Token, hasStore: bool, steps: seq<Step>)
    requires ValidRun(Init(initial, hasStore), steps)
    ensures var s := Run(Init(initial, hasStore), steps);
            && |s.tasks| <= 1
            && (forall c | c in s.callers && s.callers[c].Waiting? ::
                  s.callers[c].id in s.tasks || (s.callers[c].id in s.outcomes && s.outcomes[s.callers[c].id].Some?))
            && (forall c | c in s.callers && s.callers[c].Returned? && s.callers[c].joined.Some? && !s.callers[c].result.Cancelled? ::
                  s.callers[c].joined.value in s.outcomes && s.outcomes[s.callers[c].joined.value].Some?
                  && s.callers[c].result == ResultOf(s.outcomes[s.callers[c].joined.value].value))
            && (initial.refresh != "" ==> s.token.refresh != "")
            && (hasStore && s.tasks == map[] ==> s.store == Some(SavedOf(s.token)))
  {
    hide Next;
    InitHolds(initial, hasStore);
    RunKeeps(Init(initial, hasStore), steps);
    var s := Run(Init(initial, hasStore), steps);
    assert |s.tasks| == |s.tasks.Keys|;
  }

  /** A refreshed source can refresh again unless the reply's refresh token was white space: only an empty one is replaced. */
  lemma RefreshableAgain(reply: Token, refreshToken: string)
    requires TrimSpace(refreshToken) != ""
    ensures TrimSpace(Completed(reply, refreshToken).refresh) != "" <==> reply.refresh == "" || TrimSpace(reply.refresh) != ""
  {
    NothingLeft();
  }

  /** Such a reply locks the source: once its access token has expired, callers get no token. */
  lemma BlankRefreshTokenLocks(reply: Token, refreshToken: string, now: int, early: int)
    requires reply.refresh == " " && !Valid(reply, now, early)
    ensures Decide(Completed(reply, refreshToken), false, now, early) == NoRefreshToken
  {
    assert TrimLeft(" ") == "";
  }

  // ---- the source as the object its methods update ----

  class RefreshState {
    var done: bool
    var outcome: Option<Outcome>

    constructor ()
      ensures !done && outcome == None
    {
      done, outcome := false, None;
    }
  }

  class Source {
    const earlyExpiry: int
    var token: Token
    var refreshing: RefreshState?

    constructor (initial: Token, earlyExpiry: int)
      ensures token == initial && refreshing == null && this.earlyExpiry == earlyExpiry
    {
      this.earlyExpiry := earlyExpiry;
      token, refreshing := initial, null;
    }

    /** The first section under the mutex: use the token, give up, join the refresh in flight, or start one. */
    method Begin(now: int) returns (decision: Decision, current: RefreshState?, refreshToken: string)
      modifies this`refreshing
      ensures decision.UseCurrent? <==>
        TrimSpace(token.access) != "" && (token.expiresAt.None? || now + earlyExpiry < token.expiresAt.value)
      ensures decision.NoRefreshToken? <==> !decision.UseCurrent? && TrimSpace(token.refresh) == ""
      ensures decision.Join? <==> !decision.UseCurrent? && TrimSpace(token.refresh) != "" && old(refreshing) != null
      ensures decision == old(Decide(token, refreshing != null, now, earlyExpiry))
      ensures decision.Join? ==> current == old(refreshing)
      ensures decision.Lead? ==> current != null && fresh(current) && !current.done && refreshToken == token.refresh
      ensures refreshing == if decision.Lead? then current else old(refreshing)
    {
      hide TrimSpace;
      current, refreshToken := null, "";
      if Valid(token, now, earlyExpiry) {
        return UseCurrent, current, refreshToken;
      }
      if TrimSpace(token.refresh) == "" {
        return NoRefreshToken, current, refreshToken;
      }
      if refreshing != null {
        return Join, refreshing, refreshToken;
      }
      current := new RefreshState();
      refreshing := current;
      return Lead, current, token.refresh;
    }

    /** The last section: publish the result, and let the next refresh start. */
    method Finish(current: RefreshState, result: Option<Token>)
      modifies this, current
      ensures token == (if result.Some? then result.value else old(token)) && refreshing == null
      ensures current.done
      ensures current.outcome == Some(if result.None? then RefreshFailed else Refreshed(result.value.access))
      ensures current.outcome == Some(OutcomeOf(result))
    {
      if result.Some? {
        token := result.value;
        current.outcome := Some(Refreshed(result.value.access));
      } else {
        current.outcome := Some(RefreshFailed);
      }
      refreshing := null;
      current.done := true;
    }
  }
}
