/**
 The action gateway: the one door to external effects. A proposal passes every gate or is refused, the
 connector runs at most once per action id in one process, and every retry gets the first record back. Records
 live in memory, so a restarted gateway starts over.
 */
module Gateway {
  import opened Wrappers

  /** A cited claim: action-eligible, or the reason it is not. */
  datatype Claim = Claim(eligible: bool, reason: string)

  datatype Proposal = Proposal(
    actionType: string,
    target: string,
    idempotencyKey: string,
    actor: string,
    branch: string,
    simulation: bool,
    evidence: seq<Claim>,
    evidenceKeys: seq<string>,
    trust: string)

  datatype Connector = Connector(simulated: bool, compensating: Option<string>)

  datatype Outcome =
    | Succeeded(receipt: string)
    | SucceededWithoutReceipt
    | Failed(reason: string)
    | Indeterminate(detail: string)

  datatype Status =
    | Refused(why: Refusal)
    | Success(receipt: string)
    | Failure(reason: string)
    | Unknown(detail: string)

  datatype Refusal =
    | KillSwitchOn
    | Ineligible(reason: string)
    | NoEvidence
    | PolicyDenied(rationale: string)
    | NoConnector
    | SimulationContained

  datatype Record = Record(
    id: string,
    actionType: string,
    target: string,
    actor: string,
    branch: string,
    policyVersion: string,
    justifiedBy: seq<string>,
    compensating: Option<string>,
    status: Status)

  datatype Verdict = Verdict(allowed: bool, version: string, rationale: string)

  datatype KillSwitch = KillSwitch(all: bool, tenants: set<string>)
  {
    predicate Disabled(tenant: string) { all || tenant in tenants }
  }

  /** A gateway's fixed parts: its tenant, its policy, its connectors, and how a key becomes an action id. */
  datatype Config = Config(
    tenant: string,
    connectors: map<string, Connector>,
    policy: (string, string, string) -> Verdict,
    idOf: string -> string)

  /** One call into the world. */
  datatype Call = Call(id: string, actionType: string, target: string, outcome: Outcome)

  /** Records and the switch of this process, every call ever made, and how many came before this process. */
  datatype State = State(done: map<string, Record>, kill: KillSwitch, calls: seq<Call>, since: nat)

  const START := State(map[], KillSwitch(false, {}), [], 0)

  // ---- the decision ----------------------------------------------------------------------------------------

  function FirstIneligible(evidence: seq<Claim>): Option<Claim> {
    if evidence == [] then None
    else if !evidence[0].eligible then Some(evidence[0])
    else FirstIneligible(evidence[1..])
  }

  function Blank(id: string, p: Proposal, version: string, status: Status): Record {
    Record(id, p.actionType, p.target, p.actor, p.branch, version, p.evidenceKeys, None, status)
  }

  /** An outcome told honestly: success needs its receipt, and unknown stays unknown. */
  function Translate(o: Outcome): Status {
    match o
    case Succeeded(receipt) => Success(receipt)
    case SucceededWithoutReceipt => Unknown("no receipt")
    case Failed(reason) => Failure(reason)
    case Indeterminate(detail) => Unknown(detail)
  }

  /** The gates in order; `None` lets the proposal through to its connector. */
  function Gate(cfg: Config, kill: KillSwitch, p: Proposal): Option<Refusal> {
    var verdict := cfg.policy(p.actor, p.actionType, p.trust);
    if kill.Disabled(cfg.tenant) then Some(KillSwitchOn)
    else if FirstIneligible(p.evidence).Some? then Some(Ineligible(FirstIneligible(p.evidence).value.reason))
    else if p.evidence == [] then Some(NoEvidence)
    else if !verdict.allowed then Some(PolicyDenied(verdict.rationale))
    else if p.actionType !in cfg.connectors then Some(NoConnector)
    else if p.simulation && !cfg.connectors[p.actionType].simulated then Some(SimulationContained)
    else None
  }

  function Decide(cfg: Config, kill: KillSwitch, id: string, p: Proposal, outcome: Outcome): Record {
    var version := cfg.policy(p.actor, p.actionType, p.trust).version;
    match Gate(cfg, kill, p)
    case Some(why) => Blank(id, p, if why.PolicyDenied? then version else "", Refused(why))
    case None =>
      if p.actionType in cfg.connectors
      then Blank(id, p, version, Translate(outcome)).(compensating := cfg.connectors[p.actionType].compensating)
      else Blank(id, p, "", Refused(NoConnector))
  }

  datatype Event =
    | Execute(p: Proposal, outcome: Outcome)   // `outcome` is what the connector answers, if it is called
    | DisableAll
    | EnableAll
    | DisableTenant(tenant: string)
    | Restart

  function Step(cfg: Config, s: State, ev: Event): State {
    match ev
    case Execute(p, outcome) =>
      var id := cfg.idOf(p.idempotencyKey);
      if id in s.done then s else
        s.(done := s.done[id := Decide(cfg, s.kill, id, p, outcome)],
           calls := s.calls + if Gate(cfg, s.kill, p).None? then [Call(id, p.actionType, p.target, outcome)] else [])
    case DisableAll => s.(kill := s.kill.(all := true))
    case EnableAll => s.(kill := s.kill.(all := false))
    case DisableTenant(tenant) => s.(kill := s.kill.(tenants := s.kill.tenants + {tenant}))
    case Restart => START.(calls := s.calls, since := |s.calls|)
  }

  /** What an execution hands back. */
  function Reply(cfg: Config, s: State, p: Proposal, outcome: Outcome): Record {
    var id := cfg.idOf(p.idempotencyKey);
    if id in s.done then s.done[id] else Decide(cfg, s.kill, id, p, outcome)
  }

  function Run(cfg: Config, s: State, events: seq<Event>): State {
    if events == [] then s else Step(cfg, Run(cfg, s, events[..|events| - 1]), events[|events| - 1])
  }

  // ---- the properties --------------------------------------------------------------------------------------

  /** Everything an effect has to pass, said without the order the code checks it in. */
  ghost predicate AllGates(cfg: Config, kill: KillSwitch, p: Proposal) {
    !kill.all && cfg.tenant !in kill.tenants && Passes(cfg, p)
  }

  /** What does not depend on the switch. */
  ghost predicate Passes(cfg: Config, p: Proposal) {
    && p.evidence != [] && (forall i :: 0 <= i < |p.evidence| ==> p.evidence[i].eligible)
    && cfg.policy(p.actor, p.actionType, p.trust).allowed
    && p.actionType in cfg.connectors
    && (p.simulation ==> cfg.connectors[p.actionType].simulated)
  }

  lemma {:induction false} EligibleIff(evidence: seq<Claim>)
    ensures FirstIneligible(evidence).None? <==> forall i :: 0 <= i < |evidence| ==> evidence[i].eligible
  {
    if evidence != [] {
      EligibleIff(evidence[1..]);
      assert forall i :: 0 < i < |evidence| ==> evidence[i] == evidence[1..][i - 1];
    }
  }

  lemma GateIsAllGates(cfg: Config, kill: KillSwitch, p: Proposal)
    ensures Gate(cfg, kill, p).None? <==> AllGates(cfg, kill, p)
  {
    EligibleIff(p.evidence);
  }

  /** Call `i` is the one call of this process that decided the record of its id. */
  ghost predicate Decided(s: State, i: int) {
    s.since <= i < |s.calls| && s.calls[i].id in s.done && s.done[s.calls[i].id].status == Translate(s.calls[i].outcome)
  }

  ghost predicate Inv(s: State) {
    && s.since <= |s.calls| && (forall i :: s.since <= i < |s.calls| ==> Decided(s, i))
    && (forall i, j :: s.since <= i < j < |s.calls| ==> s.calls[i].id != s.calls[j].id)
    && (forall id :: id in s.done ==> s.done[id].id == id && (!s.done[id].status.Refused? ==> exists i :: Decided(s, i) && s.calls[i].id == id))
  }

  lemma StepKeepsInv(cfg: Config, s: State, ev: Event)
    requires Inv(s)
    ensures Inv(Step(cfg, s, ev))
  {
    var s' := Step(cfg, s, ev);
    if ev.Execute? && cfg.idOf(ev.p.idempotencyKey) !in s.done {
      var id := cfg.idOf(ev.p.idempotencyKey);
      forall i | s.since <= i < |s.calls| ensures Decided(s', i) && s.calls[i].id != id { assert Decided(s, i); }
      forall other | other in s'.done && !s'.done[other].status.Refused?
        ensures exists i :: Decided(s', i) && s'.calls[i].id == other
      {
        if other == id {
          assert Decided(s', |s.calls|);
        } else {
          var i :| Decided(s, i) && s.calls[i].id == other;
          assert Decided(s', i);
        }
      }
      if Gate(cfg, s.kill, ev.p).None? { assert Decided(s', |s.calls|); }
    } else if !ev.Restart? {
      assert s'.done == s.done && s'.calls == s.calls && s'.since == s.since;
      forall i | s.since <= i < |s.calls| ensures Decided(s', i) { assert Decided(s, i); }
      forall id | id in s.done && !s.done[id].status.Refused? ensures exists i :: Decided(s', i) && s'.calls[i].id == id {
        var i :| Decided(s, i) && s.calls[i].id == id;
        assert Decided(s', i);
      }
    }
  }

  lemma {:induction false} RunInv(cfg: Config, events: seq<Event>)
    ensures Inv(Run(cfg, START, events))
  {
    if events != [] {
      RunInv(cfg, events[..|events| - 1]);
      hide Inv, Step;
      StepKeepsInv(cfg, Run(cfg, START, events[..|events| - 1]), events[|events| - 1]);
    }
  }

  ghost function CallsOf(calls: seq<Call>, id: string): nat {
    if calls == [] then 0 else CallsOf(calls[..|calls| - 1], id) + if calls[|calls| - 1].id == id then 1 else 0
  }

  ghost function Restarts(events: seq<Event>): nat {
    if events == [] then 0 else Restarts(events[..|events| - 1]) + if events[|events| - 1].Restart? then 1 else 0
  }

  lemma StepCounts(cfg: Config, s: State, ev: Event, id: string)
    ensures var s' := Step(cfg, s, ev);
            && CallsOf(s'.calls, id) <= CallsOf(s.calls, id) + (if id !in s.done && id in s'.done then 1 else 0)
            && (ev.Restart? || (id in s.done ==> id in s'.done))
  {
    var s' := Step(cfg, s, ev);
    assert s.calls + [] == s.calls;
    if s'.calls != s.calls { assert s'.calls[..|s'.calls| - 1] == s.calls; }
  }

  lemma {:induction false} OnePerProcess(cfg: Config, events: seq<Event>, id: string)
    ensures var s := Run(cfg, START, events);
            CallsOf(s.calls, id) <= Restarts(events) + if id in s.done then 1 else 0
  {
    if events != [] {
      var init, last := events[..|events| - 1], events[|events| - 1];
      OnePerProcess(cfg, init, id);
      hide CallsOf, Step;
      StepCounts(cfg, Run(cfg, START, init), last, id);
    }
  }

  /**
   At most one effect. Over every sequence of proposals, switch flips, connector answers and restarts: no action
   id is called twice by one process, nor more often in all than there were processes; a success is recorded
   only with the receipt its single call returned, and a refused action was not called by this process.
   */
  lemma AtMostOneEffect(cfg: Config, events: seq<Event>)
    ensures var s := Run(cfg, START, events);
            && s.since <= |s.calls|
            && (forall i, j :: s.since <= i < j < |s.calls| ==> s.calls[i].id != s.calls[j].id)
            && (forall id :: CallsOf(s.calls, id) <= Restarts(events) + 1)
            && (forall id :: id in s.done && s.done[id].status.Success? ==>
                  exists i :: s.since <= i < |s.calls| && s.calls[i].id == id && s.calls[i].outcome == Succeeded(s.done[id].status.receipt))
            && (forall id :: id in s.done && s.done[id].status.Refused? ==> forall i :: s.since <= i < |s.calls| ==> s.calls[i].id != id)
  {
    var s := Run(cfg, START, events);
    RunInv(cfg, events);
    hide Run, CallsOf, Restarts, Decided;
    ReceiptsAreCalls(s);
    hide Inv;
    forall id ensures CallsOf(s.calls, id) <= Restarts(events) + 1 { OnePerProcess(cfg, events, id); }
  }

  lemma ReceiptsAreCalls(s: State)
    requires Inv(s)
    ensures forall id :: id in s.done && s.done[id].status.Success? ==>
              exists i :: s.since <= i < |s.calls| && s.calls[i].id == id && s.calls[i].outcome == Succeeded(s.done[id].status.receipt)
    ensures forall id :: id in s.done && s.done[id].status.Refused? ==> forall i :: s.since <= i < |s.calls| ==> s.calls[i].id != id
  {
    forall id | id in s.done && s.done[id].status.Success?
      ensures exists i :: s.since <= i < |s.calls| && s.calls[i].id == id && s.calls[i].outcome == Succeeded(s.done[id].status.receipt)
    {
      var i :| Decided(s, i) && s.calls[i].id == id;
    }
    forall i | s.since <= i < |s.calls| ensures s.calls[i].id in s.done && !s.done[s.calls[i].id].status.Refused? { assert Decided(s, i); }
  }

  ghost predicate Executes(cfg: Config, ev: Event, id: string) {
    ev.Execute? && cfg.idOf(ev.p.idempotencyKey) == id
  }

  /** The running process has been asked for `id` before. */
  ghost predicate Asked(cfg: Config, events: seq<Event>, id: string) {
    exists i :: 0 <= i < |events| && Executes(cfg, events[i], id) && forall j :: i < j < |events| ==> !events[j].Restart?
  }

  lemma AskedMore(cfg: Config, init: seq<Event>, last: Event, id: string)
    ensures Asked(cfg, init + [last], id) <==> Executes(cfg, last, id) || (!last.Restart? && Asked(cfg, init, id))
  {
    var events := init + [last];
    assert forall j :: 0 <= j < |init| ==> events[j] == init[j];
    if Asked(cfg, events, id) {
      var i :| 0 <= i < |events| && Executes(cfg, events[i], id) && forall j :: i < j < |events| ==> !events[j].Restart?;
      if i < |init| { assert Executes(cfg, init[i], id) && !events[|init|].Restart?; }
    }
    if Executes(cfg, last, id) {
      assert Executes(cfg, events[|init|], id);
    } else if !last.Restart? && Asked(cfg, init, id) {
      var i :| 0 <= i < |init| && Executes(cfg, init[i], id) && forall j :: i < j < |init| ==> !init[j].Restart?;
      assert Executes(cfg, events[i], id);
    }
  }

  lemma {:induction false} DoneIsAsked(cfg: Config, events: seq<Event>, id: string)
    ensures id in Run(cfg, START, events).done <==> Asked(cfg, events, id)
  {
    if events != [] {
      var init, last := events[..|events| - 1], events[|events| - 1];
      DoneIsAsked(cfg, init, id);
      assert init + [last] == events;
      hide Asked, Decide, Gate;
      AskedMore(cfg, init, last, id);
    }
  }

  // ---- the switch, from the events alone ------------------------------------------------------------------------

  /** Everything was disabled, and neither an enabling nor a restart followed. */
  ghost predicate StoppedForAll(events: seq<Event>) {
    exists i :: 0 <= i < |events| && events[i].DisableAll? && forall j :: i < j < |events| ==> !events[j].EnableAll? && !events[j].Restart?
  }

  /** The tenant was disabled; only a restart takes that back. */
  ghost predicate StoppedFor(events: seq<Event>, tenant: string) {
    exists i :: 0 <= i < |events| && events[i] == DisableTenant(tenant) && forall j :: i < j < |events| ==> !events[j].Restart?
  }

  lemma StoppedMore(init: seq<Event>, last: Event, tenant: string)
    ensures StoppedForAll(init + [last]) <==> last.DisableAll? || (!last.EnableAll? && !last.Restart? && StoppedForAll(init))
    ensures StoppedFor(init + [last], tenant) <==> last == DisableTenant(tenant) || (!last.Restart? && StoppedFor(init, tenant))
  {
    var events := init + [last];
    assert events[|init|] == last && forall j :: 0 <= j < |init| ==> events[j] == init[j];
    if i :| 0 <= i < |init| && init[i].DisableAll? && forall j :: i < j < |init| ==> !init[j].EnableAll? && !init[j].Restart? {
      assert events[i].DisableAll?;
    }
    if i :| 0 <= i < |init| && init[i] == DisableTenant(tenant) && forall j :: i < j < |init| ==> !init[j].Restart? {
      assert events[i] == DisableTenant(tenant);
    }
  }

  lemma {:induction false} SwitchIsEvents(cfg: Config, events: seq<Event>, tenant: string)
    ensures Run(cfg, START, events).kill.all <==> StoppedForAll(events)
    ensures tenant in Run(cfg, START, events).kill.tenants <==> StoppedFor(events, tenant)
  {
    if events != [] {
      var init, last := events[..|events| - 1], events[|events| - 1];
      SwitchIsEvents(cfg, init, tenant);
      assert init + [last] == events;
      hide StoppedForAll, StoppedFor, Decide, Gate;
      StoppedMore(init, last, tenant);
    }
  }

  /**
   Exactly when an action is performed, from the events of any run: it is an execution whose id the running
   process was not asked for before, nothing disabled the gateway or its tenant since, and evidence, policy and
   connector let it through. What is performed is that proposal, once.
   */
  lemma CalledExactly(cfg: Config, events: seq<Event>, ev: Event)
    ensures var s := Run(cfg, START, events);
            Step(cfg, s, ev).calls ==
            if && ev.Execute? && !Asked(cfg, events, cfg.idOf(ev.p.idempotencyKey))
               && !StoppedForAll(events) && !StoppedFor(events, cfg.tenant) && Passes(cfg, ev.p)
            then s.calls + [Call(cfg.idOf(ev.p.idempotencyKey), ev.p.actionType, ev.p.target, ev.outcome)]
            else s.calls
  {
    var s := Run(cfg, START, events);
    EffectOnlyThroughGates(cfg, s, ev);
    SwitchIsEvents(cfg, events, cfg.tenant);
    if ev.Execute? {
      DoneIsAsked(cfg, events, cfg.idOf(ev.p.idempotencyKey));
      if cfg.idOf(ev.p.idempotencyKey) !in s.done && AllGates(cfg, s.kill, ev.p) { PassingIsCalled(cfg, s, ev.p, ev.outcome); }
    }
    hide Asked, Passes, StoppedForAll, StoppedFor, Run, Step;
  }

  // ---- what is recorded, from the events alone ---------------------------------------------------------------------

  /** Success needs its receipt, and what is not known stays unknown. */
  ghost predicate Tells(o: Outcome, status: Status) {
    && (o.Succeeded? ==> status == Success(o.receipt)) && (o.SucceededWithoutReceipt? ==> status == Unknown("no receipt"))
    && (o.Failed? ==> status == Failure(o.reason)) && (o.Indeterminate? ==> status == Unknown(o.detail))
  }

  /** The first claim that may not justify an action, and why. */
  ghost predicate FirstUnfit(evidence: seq<Claim>, reason: string) {
    exists k :: 0 <= k < |evidence| && !evidence[k].eligible && evidence[k].reason == reason && forall l :: 0 <= l < k ==> evidence[l].eligible
  }

  /** The record of a proposal: whose it is, what came of it and on what authority. */
  ghost predicate Answers(cfg: Config, stopped: bool, p: Proposal, outcome: Outcome, r: Record) {
    var verdict := cfg.policy(p.actor, p.actionType, p.trust);
    && r.id == cfg.idOf(p.idempotencyKey) && r.actionType == p.actionType && r.target == p.target
    && r.actor == p.actor && r.branch == p.branch && r.justifiedBy == p.evidenceKeys
    && (r.status.Refused? ==> r.compensating.None? && (r.policyVersion == if r.status.why.PolicyDenied? then verdict.version else ""))
    && if stopped then r.status == Refused(KillSwitchOn)
       else if Passes(cfg, p) then
         Tells(outcome, r.status) && r.policyVersion == verdict.version && r.compensating == cfg.connectors[p.actionType].compensating
       else
         && r.status.Refused?
         && match r.status.why
            case KillSwitchOn => false
            case Ineligible(reason) => FirstUnfit(p.evidence, reason)
            case NoEvidence => p.evidence == []
            case PolicyDenied(rationale) => Fit(p) && !verdict.allowed && rationale == verdict.rationale
            case NoConnector => Fit(p) && verdict.allowed && p.actionType !in cfg.connectors
            case SimulationContained => Fit(p) && verdict.allowed && p.actionType in cfg.connectors
  }

  ghost predicate Fit(p: Proposal) { p.evidence != [] && forall i :: 0 <= i < |p.evidence| ==> p.evidence[i].eligible }

  lemma {:induction false} UnfitIsFirst(evidence: seq<Claim>)
    requires FirstIneligible(evidence).Some?
    ensures FirstUnfit(evidence, FirstIneligible(evidence).value.reason)
  {
    if evidence[0].eligible {
      UnfitIsFirst(evidence[1..]);
      var reason := FirstIneligible(evidence).value.reason;
      var k :| && 0 <= k < |evidence[1..]| && !evidence[1..][k].eligible && evidence[1..][k].reason == reason
               && forall l :: 0 <= l < k ==> evidence[1..][l].eligible;
      assert forall l :: 0 < l <= k + 1 ==> evidence[l] == evidence[1..][l - 1];
    }
  }

  lemma DecisionAnswers(cfg: Config, kill: KillSwitch, p: Proposal, outcome: Outcome)
    ensures Answers(cfg, kill.all || cfg.tenant in kill.tenants, p, outcome, Decide(cfg, kill, cfg.idOf(p.idempotencyKey), p, outcome))
  {
    EligibleIff(p.evidence);
    if FirstIneligible(p.evidence).Some? { UnfitIsFirst(p.evidence); }
    hide FirstUnfit, FirstIneligible;
  }

  /** Event `i` was the running process's first execution of `id`, and `r` records it. */
  ghost predicate FirstAnswer(cfg: Config, events: seq<Event>, i: int, id: string, r: Record) {
    && 0 <= i < |events| && Executes(cfg, events[i], id) && !Asked(cfg, events[..i], id)
    && (forall j :: i < j < |events| ==> !events[j].Restart?)
    && Answers(cfg, StoppedForAll(events[..i]) || StoppedFor(events[..i], cfg.tenant), events[i].p, events[i].outcome, r)
  }

  /**
   What is on record, from the events of any run: the record of an id is that of the first execution the running
   process was asked for under it, judged by the switch as it then was and by the proposal's own evidence, policy
   and connector, whatever was proposed under the id since.
   */
  lemma {:induction false} RecordsTheFirst(cfg: Config, events: seq<Event>, id: string)
    requires id in Run(cfg, START, events).done
    ensures exists i :: FirstAnswer(cfg, events, i, id, Run(cfg, START, events).done[id])
  {
    var init, last := events[..|events| - 1], events[|events| - 1];
    var s, r := Run(cfg, START, init), Run(cfg, START, events).done[id];
    RecordedBy(cfg, s, last, id);
    hide FirstAnswer, Step, Decide;
    if id in s.done {
      RecordsTheFirst(cfg, init, id);
      var i :| FirstAnswer(cfg, init, i, id, s.done[id]);
      AnswerStays(cfg, events, i, id, r);
    } else {
      AnsweredNow(cfg, events, id);
    }
  }

  lemma RecordedBy(cfg: Config, s: State, ev: Event, id: string)
    requires id in Step(cfg, s, ev).done
    ensures !ev.Restart?
    ensures if id in s.done then Step(cfg, s, ev).done[id] == s.done[id]
            else Executes(cfg, ev, id) && Step(cfg, s, ev).done[id] == Decide(cfg, s.kill, id, ev.p, ev.outcome)
  {
    hide Decide, Gate;
  }

  lemma AnswerStays(cfg: Config, events: seq<Event>, i: int, id: string, r: Record)
    requires events != [] && !events[|events| - 1].Restart? && FirstAnswer(cfg, events[..|events| - 1], i, id, r)
    ensures FirstAnswer(cfg, events, i, id, r)
  {
    hide Answers, Asked, StoppedForAll, StoppedFor;
    var init := events[..|events| - 1];
    assert events[..i] == init[..i] && forall j :: 0 <= j < |init| ==> events[j] == init[j];
  }

  lemma AnsweredNow(cfg: Config, events: seq<Event>, id: string)
    requires events != [] && Executes(cfg, events[|events| - 1], id) && id !in Run(cfg, START, events[..|events| - 1]).done
    ensures var init, last := events[..|events| - 1], events[|events| - 1];
            FirstAnswer(cfg, events, |events| - 1, id, Decide(cfg, Run(cfg, START, init).kill, id, last.p, last.outcome))
  {
    var init, last := events[..|events| - 1], events[|events| - 1];
    DoneIsAsked(cfg, init, id);
    SwitchIsEvents(cfg, init, cfg.tenant);
    DecisionAnswers(cfg, Run(cfg, START, init).kill, last.p, last.outcome);
    hide Answers, Asked, Decide, Run, StoppedForAll, StoppedFor;
  }

  lemma PassingIsCalled(cfg: Config, s: State, p: Proposal, outcome: Outcome)
    requires cfg.idOf(p.idempotencyKey) !in s.done && AllGates(cfg, s.kill, p)
    ensures Step(cfg, s, Execute(p, outcome)).calls == s.calls + [Call(cfg.idOf(p.idempotencyKey), p.actionType, p.target, outcome)]
  {
    GateIsAllGates(cfg, s.kill, p);
    hide AllGates, Gate, Decide;
  }

  lemma CalledTwice(call: Call)
    ensures CallsOf([call, call], call.id) == 2
  {
    assert [call, call][..1] == [call] && [call][..0] == [];
    assert CallsOf([], call.id) == 0 && CallsOf([call], call.id) == 1;
  }

  /** The bound over all processes is met: a proposal that passes, a restart, and the same proposal once more. */
  lemma RestartCallsAgain(cfg: Config, p: Proposal, outcome: Outcome)
    requires AllGates(cfg, START.kill, p)
    ensures CallsOf(Run(cfg, START, [Execute(p, outcome), Restart, Execute(p, outcome)]).calls, cfg.idOf(p.idempotencyKey)) == 2
  {
    var run := Execute(p, outcome);
    var call := Call(cfg.idOf(p.idempotencyKey), p.actionType, p.target, outcome);
    var s1 := Step(cfg, START, run);
    var s2 := Step(cfg, s1, Restart);
    assert s2.done == map[] && s2.kill == START.kill && s2.calls == s1.calls;
    hide AllGates, Step, CallsOf;
    assert [run, Restart, run][..2] == [run, Restart] && [run, Restart][..1] == [run] && [run][..0] == [];
    assert Run(cfg, START, [run]) == s1 && Run(cfg, START, [run, Restart]) == s2;
    assert Run(cfg, START, [run, Restart, run]) == Step(cfg, s2, run);
    hide Run;
    PassingIsCalled(cfg, START, p, outcome);
    PassingIsCalled(cfg, s2, p, outcome);
    assert [] + [call] == [call] && [call] + [call] == [call, call];
    CalledTwice(call);
  }

  /** An effect happens only on a proposal's first execution, and exactly when every gate passes then. */
  lemma EffectOnlyThroughGates(cfg: Config, s: State, ev: Event)
    ensures Step(cfg, s, ev).calls != s.calls
            <==> ev.Execute? && cfg.idOf(ev.p.idempotencyKey) !in s.done && AllGates(cfg, s.kill, ev.p)
  {
    if ev.Execute? { GateIsAllGates(cfg, s.kill, ev.p); }
  }

  /** A decided record is never changed by anything that follows in the same process. */
  lemma {:induction false} RecordsAreFinal(cfg: Config, s: State, events: seq<Event>, id: string)
    requires id in s.done && forall i :: 0 <= i < |events| ==> !events[i].Restart?
    ensures id in Run(cfg, s, events).done && Run(cfg, s, events).done[id] == s.done[id]
  {
    if events != [] { RecordsAreFinal(cfg, s, events[..|events| - 1], id); }
  }

  /**
   Every retry in the same process returns the first record, however much later, whatever the switch says and whatever the
   connector would answer, and calls nothing.
   */
  lemma RetryReturnsFirst(cfg: Config, s: State, p: Proposal, first: Outcome, between: seq<Event>, retry: Proposal, second: Outcome)
    requires cfg.idOf(retry.idempotencyKey) == cfg.idOf(p.idempotencyKey)
    requires forall i :: 0 <= i < |between| ==> !between[i].Restart?
    ensures var later := Run(cfg, Step(cfg, s, Execute(p, first)), between);
            && Reply(cfg, later, retry, second) == Reply(cfg, s, p, first)
            && Step(cfg, later, Execute(retry, second)) == later
  {
    RecordsAreFinal(cfg, Step(cfg, s, Execute(p, first)), between, cfg.idOf(p.idempotencyKey));
  }

  /**
   Ids are a digest of the key, so this also covers a collision: a second key with the first one's id is
   answered with the other action's record and never performed.
   */
  lemma CollidingKeysShareARecord(cfg: Config, s: State, p: Proposal, q: Proposal, first: Outcome, second: Outcome)
    requires p.idempotencyKey != q.idempotencyKey && cfg.idOf(p.idempotencyKey) == cfg.idOf(q.idempotencyKey)
    requires cfg.idOf(p.idempotencyKey) !in s.done && p.target != q.target
    ensures var s1 := Step(cfg, s, Execute(p, first));
            Reply(cfg, s1, q, second).target == p.target && Step(cfg, s1, Execute(q, second)).calls == s1.calls
  {
    RetryReturnsFirst(cfg, s, p, first, [], q, second);
  }

  /** While the switch is on, nothing is called, however long and whatever is proposed. */
  lemma {:induction false} SwitchStopsEffects(cfg: Config, s: State, off: Event, events: seq<Event>)
    requires off == DisableAll || off == DisableTenant(cfg.tenant)
    requires forall i :: 0 <= i < |events| ==> !events[i].Restart? && (off.DisableAll? ==> !events[i].EnableAll?)
    ensures var later := Run(cfg, Step(cfg, s, off), events);
            && later.calls == s.calls
            && if off.DisableAll? then later.kill.all else cfg.tenant in later.kill.tenants
  {
    if events != [] { SwitchStopsEffects(cfg, s, off, events[..|events| - 1]); }
  }

  // ---- the code's form -----------------------------------------------------------------------------------------

  class ActionGateway {
    const cfg: Config
    var state: State

    constructor (cfg: Config)
      ensures this.cfg == cfg && state == START
    {
      this.cfg := cfg;
      state := START;
    }

    method CheckEvidence(evidence: seq<Claim>) returns (bad: Option<Claim>)
      ensures bad == FirstIneligible(evidence)
    {
      var i := 0;
      while i < |evidence|
        invariant 0 <= i <= |evidence| && FirstIneligible(evidence) == FirstIneligible(evidence[i..])
      {
        if !evidence[i].eligible { return Some(evidence[i]); }
        assert evidence[i..][1..] == evidence[i + 1..];
        i := i + 1;
      }
      bad := None;
    }

    /** The checks in order, then the one connector call, whose answer is `outcome`. */
    method DecideAndRun(id: string, p: Proposal, outcome: Outcome) returns (record: Record)
      modifies this
      ensures record == Decide(cfg, old(state).kill, id, p, outcome)
      ensures state == old(state).(calls := old(state).calls
                         + if Gate(cfg, old(state).kill, p).None? then [Call(id, p.actionType, p.target, outcome)] else [])
    {
      assert state.calls + [] == state.calls;
      if state.kill.Disabled(cfg.tenant) { return Blank(id, p, "", Refused(KillSwitchOn)); }
      var bad := CheckEvidence(p.evidence);
      if bad.Some? { return Blank(id, p, "", Refused(Ineligible(bad.value.reason))); }
      if p.evidence == [] { return Blank(id, p, "", Refused(NoEvidence)); }
      var verdict := cfg.policy(p.actor, p.actionType, p.trust);
      if !verdict.allowed { return Blank(id, p, verdict.version, Refused(PolicyDenied(verdict.rationale))); }
      if p.actionType !in cfg.connectors { return Blank(id, p, "", Refused(NoConnector)); }
      var connector := cfg.connectors[p.actionType];
      if p.simulation && !connector.simulated { return Blank(id, p, "", Refused(SimulationContained)); }
      state := state.(calls := state.calls + [Call(id, p.actionType, p.target, outcome)]);
      record := Blank(id, p, verdict.version, Translate(outcome)).(compensating := connector.compensating);
    }

    method ExecuteProposal(p: Proposal, outcome: Outcome) returns (record: Record)
      modifies this
      ensures record == Reply(cfg, old(state), p, outcome)
      ensures cfg.idOf(p.idempotencyKey) in state.done && record == state.done[cfg.idOf(p.idempotencyKey)]
      ensures state == Step(cfg, old(state), Execute(p, outcome))
    {
      var id := cfg.idOf(p.idempotencyKey);
      if id in state.done { return state.done[id]; }
      record := DecideAndRun(id, p, outcome);
      state := state.(done := state.done[id := record]);
    }
  }
}
