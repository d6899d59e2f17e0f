// The budget, attempt and terminal derivations over the event log, and the two guards that write
// to it (src/protocol/governance.ts). Every count is recomputed from the log; the guards derive
// and then append, which one process does without interleaving, so a guard call is one step here
// (GuardRace has the two steps apart).

module Governance {
  import opened Wrappers
  import opened Events
  import opened Sequences
  import opened Text
  import opened Log
  import opened Compaction

  const GOVERNANCE_OVERHEAD_BUDGET := 25
  const ATTEMPT_CEILING := 3

  predicate Countable(e: Event) {
    e.Attempt? || e.Finding? || e.BreakGlass? || e.Audit?
  }

  function OverheadOf(o: string): Event -> bool {
    (e: Event) => e.objective == o && Countable(e)
  }

  function OverheadOfClass(o: string, class_: EventClass): Event -> bool {
    (e: Event) => e.objective == o && Countable(e) && e.Class() == class_
  }

  function BlockOf(o: string): Event -> bool {
    (e: Event) => e.objective == o && e.IsTerminalBlocked()
  }

  predicate IsIncrement(e: Event) {
    e.Attempt? && e.attemptType != ATTEMPT_REFUSED
  }

  function AttemptOf(o: string): Event -> bool {
    (e: Event) => e.objective == o && IsIncrement(e)
  }

  function AttemptWith(o: string, trigger: Option<Trigger>): Event -> bool {
    (e: Event) => e.objective == o && IsIncrement(e) && e.trigger == trigger
  }

  function IdOf(): Event -> string {
    (e: Event) => e.eventId
  }

  function OverheadCount(log: seq<Event>, o: string): nat {
    |Filter(log, OverheadOf(o))|
  }

  function AttemptCount(log: seq<Event>, o: string): nat {
    |Filter(log, AttemptOf(o))|
  }

  function TerminalIds(log: seq<Event>, o: string): seq<string> {
    Map(Filter(log, BlockOf(o)), IdOf())
  }

  /** What one more event counts for: overhead, unless it is a budget or a terminal event; an
      attempt, unless it was refused; a block, if it is one. Nothing counts for another objective. */
  lemma OneMoreCounts(log: seq<Event>, e: Event, o: string)
    ensures OverheadCount(log + [e], o) == OverheadCount(log, o) +
              if e.objective == o && e.Class() in {ATTEMPT, FINDING, BREAK_GLASS, AUDIT} then 1 else 0
    ensures AttemptCount(log + [e], o) == AttemptCount(log, o) +
              if e.objective == o && e.Attempt? && e.attemptType in {ATTEMPT_STARTED, ATTEMPT_COUNTED} then 1 else 0
    ensures TerminalIds(log + [e], o) == TerminalIds(log, o) +
              if e.objective == o && e.Terminal? && e.terminalType == TERMINAL_BLOCKED then [e.eventId] else []
    ensures OverheadCount([], o) == AttemptCount([], o) == |TerminalIds([], o)| == 0
  {
    FilterSnoc(log, e, OverheadOf(o));
    FilterSnoc(log, e, AttemptOf(o));
    FilterSnoc(log, e, BlockOf(o));
    MapSnoc(Filter(log, BlockOf(o)), e, IdOf());
  }

  // ------------------------------------------------------------------ derivations

  datatype OverheadAccounting = OverheadAccounting(
    count: nat, perClass: map<EventClass, nat>, remaining: nat, terminalIds: seq<string>)

  /** A counter map that tells, for every key, how many events `matches` counts for it. */
  ghost predicate Counts<K(!new)>(counts: map<K, nat>, events: seq<Event>, matches: K -> Event -> bool) {
    forall k :: (if k in counts then counts[k] else 0) == |Filter(events, matches(k))|
  }

  function Bump<K>(counts: map<K, nat>, k: K): map<K, nat> {
    counts[k := (if k in counts then counts[k] else 0) + 1]
  }

  lemma CountsSnoc<K(!new)>(
    counts: map<K, nat>, events: seq<Event>, matches: K -> Event -> bool, e: Event, key: Option<K>)
    requires Counts(counts, events, matches)
    requires forall k :: matches(k)(e) <==> key == Some(k)
    ensures Counts(if key.Some? then Bump(counts, key.value) else counts, events + [e], matches)
  {
    forall k
      ensures |Filter(events + [e], matches(k))| == |Filter(events, matches(k))| + if key == Some(k) then 1 else 0
    {
      FilterSnoc(events, e, matches(k));
    }
  }

  lemma CountsAgree<K(!new)>(counts: map<K, nat>, events: seq<Event>, log: seq<Event>, matches: K -> Event -> bool)
    requires Counts(counts, events, matches)
    requires forall k :: Filter(events, matches(k)) == Filter(log, matches(k))
    ensures Counts(counts, log, matches)
  {
  }

  function ClassOverhead(o: string): EventClass -> Event -> bool {
    (k: EventClass) => OverheadOfClass(o, k)
  }

  function TriggerAttempts(o: string): Option<Trigger> -> Event -> bool {
    (t: Option<Trigger>) => AttemptWith(o, t)
  }

  /** deriveOverheadAccounting: one pass over the objective's events counts exactly its countable
      ones, in total and by class, and lists its TERMINAL_BLOCKED ids in log order. */
  method DeriveOverheadAccounting(log: seq<Event>, o: string) returns (a: OverheadAccounting)
    ensures a.count == OverheadCount(log, o)
    ensures a.remaining + a.count == 25 || (a.remaining == 0 && a.count > 25)
    ensures Counts(a.perClass, log, ClassOverhead(o))
    ensures a.terminalIds == TerminalIds(log, o)
  {
    var events := Query(log, EventQuery(Some(o), None, None, None));
    var count: nat, perClass: map<EventClass, nat>, ids: seq<string> := 0, map[], [];
    for i := 0 to |events|
      invariant count == |Filter(events[..i], OverheadOf(o))|
      invariant Counts(perClass, events[..i], ClassOverhead(o))
      invariant ids == Map(Filter(events[..i], BlockOf(o)), IdOf())
    {
      var e := events[i];
      QueriedObjective(log, o, i);
      assert events[..i + 1] == events[..i] + [e];
      OverheadSnoc(events[..i], e, o, perClass);
      if Countable(e) {
        perClass := perClass[e.Class() := (if e.Class() in perClass then perClass[e.Class()] else 0) + 1];
        count := count + 1;
      }
      if e.IsTerminalBlocked() {
        ids := ids + [e.eventId];
      }
    }
    assert events[..|events|] == events;
    QueryIsEnough(log, o, OverheadOf(o));
    QueryIsEnough(log, o, BlockOf(o));
    forall k ensures Filter(events, ClassOverhead(o)(k)) == Filter(log, ClassOverhead(o)(k)) {
      QueryIsEnough(log, o, OverheadOfClass(o, k));
    }
    CountsAgree(perClass, events, log, ClassOverhead(o));
    var remaining := if count < GOVERNANCE_OVERHEAD_BUDGET then GOVERNANCE_OVERHEAD_BUDGET - count else 0;
    return OverheadAccounting(count, perClass, remaining, ids);
  }

  lemma OverheadSnoc(events: seq<Event>, e: Event, o: string, perClass: map<EventClass, nat>)
    requires e.objective == o && Counts(perClass, events, ClassOverhead(o))
    ensures |Filter(events + [e], OverheadOf(o))| == |Filter(events, OverheadOf(o))| + if Countable(e) then 1 else 0
    ensures Counts(if Countable(e) then Bump(perClass, e.Class()) else perClass, events + [e], ClassOverhead(o))
    ensures Map(Filter(events + [e], BlockOf(o)), IdOf()) ==
            Map(Filter(events, BlockOf(o)), IdOf()) + if e.IsTerminalBlocked() then [e.eventId] else []
  {
    FilterSnoc(events, e, OverheadOf(o));
    FilterSnoc(events, e, BlockOf(o));
    MapSnoc(Filter(events, BlockOf(o)), e, IdOf());
    CountsSnoc(perClass, events, ClassOverhead(o), e, if Countable(e) then Some(e.Class()) else None);
  }

  lemma QueriedObjective(log: seq<Event>, o: string, i: nat)
    requires i < |Query(log, EventQuery(Some(o), None, None, None))|
    ensures Query(log, EventQuery(Some(o), None, None, None))[i].objective == o
  {
    var q := EventQuery(Some(o), None, None, None);
    FilterMembers(log, Matching(q));
    assert Query(log, q)[i] in Query(log, q);
  }

  /** Querying by objective first loses nothing a filter on that objective looks for. */
  lemma QueryIsEnough(log: seq<Event>, o: string, p: Event -> bool)
    requires forall e :: p(e) ==> e.objective == o
    ensures Filter(Query(log, EventQuery(Some(o), None, None, None)), p) == Filter(log, p)
  {
    FilterTwice(log, Matching(EventQuery(Some(o), None, None, None)), p, p);
  }

  /** deriveAttemptAccounting: every increment counts once, whatever its trigger. */
  method DeriveAttemptAccounting(log: seq<Event>, o: string)
    returns (count: nat, perTrigger: map<Option<Trigger>, nat>)
    ensures count == AttemptCount(log, o)
    ensures Counts(perTrigger, log, TriggerAttempts(o))
  {
    var q := EventQuery(Some(o), Some(ATTEMPT), None, None);
    var events := Query(log, q);
    FilterMembers(log, Matching(q));
    count, perTrigger := 0, map[];
    for i := 0 to |events|
      invariant count == |Filter(events[..i], AttemptOf(o))|
      invariant Counts(perTrigger, events[..i], TriggerAttempts(o))
    {
      var e := events[i];
      assert e in events;
      assert events[..i + 1] == events[..i] + [e];
      FilterSnoc(events[..i], e, AttemptOf(o));
      CountsSnoc(perTrigger, events[..i], TriggerAttempts(o), e, if IsIncrement(e) then Some(e.trigger) else None);
      if !IsIncrement(e) {
        continue;
      }
      perTrigger := perTrigger[e.trigger := (if e.trigger in perTrigger then perTrigger[e.trigger] else 0) + 1];
      count := count + 1;
    }
    assert events[..|events|] == events;
    FilterTwice(log, Matching(q), AttemptOf(o), AttemptOf(o));
    forall t ensures Filter(events, TriggerAttempts(o)(t)) == Filter(log, TriggerAttempts(o)(t)) {
      FilterTwice(log, Matching(q), AttemptWith(o, t), AttemptWith(o, t));
    }
    CountsAgree(perTrigger, events, log, TriggerAttempts(o));
  }

  /** evaluateAttemptCeiling */
  predicate AttemptPermitted(log: seq<Event>, o: string) {
    AttemptCount(log, o) + 1 <= ATTEMPT_CEILING
  }

  /** The same history told with other triggers, attempt numbers, ids, times and actors. */
  ghost predicate Relabelled(a: Event, b: Event) {
    a.objective == b.objective && (IsIncrement(a) <==> IsIncrement(b))
  }

  /** Relabelling an attempt as a reset, restaff, rename, cure or rerun never resets the count. */
  lemma {:induction false} RelabellingCannotReset(log: seq<Event>, told: seq<Event>, o: string)
    requires |log| == |told| && forall i :: 0 <= i < |log| ==> Relabelled(log[i], told[i])
    ensures AttemptCount(log, o) == AttemptCount(told, o)
    ensures AttemptPermitted(log, o) <==> AttemptPermitted(told, o)
  {
    if log != [] {
      var n := |log| - 1;
      RelabellingCannotReset(log[..n], told[..n], o);
      assert Relabelled(log[n], told[n]);
    }
  }

  // ------------------------------------------------------------------ the guards as log functions

  datatype Call =
    | Exhaust(objective: string, eventId: string, ts: string, actor: Option<string>, hashes: seq<ContentHash>)
    | Overhead(event: Event)
    | Direct(event: Event)
    | Compact(codec: Codec, q: Request, summary: Event)

  /** `stored`: the store's own append (lock, disk) succeeded. */
  datatype Step = Step(call: Call, stored: bool)

  function BlockEvent(call: Call): Event
    requires call.Exhaust?
  {
    Terminal(call.eventId, call.ts, call.objective, call.actor, TERMINAL_BLOCKED, call.hashes)
  }

  /** The store appends a schema-valid event or nothing. */
  function Stored(log: seq<Event>, e: Event, stored: bool): seq<Event> {
    if stored && ValidEvent(e) then log + [e] else log
  }

  predicate ExhaustFires(log: seq<Event>, o: string) {
    !Blank(o) && TerminalIds(log, o) == [] && OverheadCount(log, o) >= GOVERNANCE_OVERHEAD_BUDGET
  }

  predicate OverheadRefused(log: seq<Event>, e: Event) {
    !Blank(e.objective) && Countable(e) && TerminalIds(log, e.objective) != []
  }

  /** Compaction as a reader sees it. */
  function CompactEvents(c: Codec, q: Request, log: seq<Event>, summary: Event): seq<Event> {
    Filter(log, SurvivingEvent(c, q.policy, q.now.ms)) + [summary]
  }

  function Next(log: seq<Event>, s: Step): seq<Event> {
    match s.call
    case Exhaust(o, _, _, _, _) => if ExhaustFires(log, o) then Stored(log, BlockEvent(s.call), s.stored) else log
    case Overhead(e) => if OverheadRefused(log, e) then log else Stored(log, e, s.stored)
    case Direct(e) => Stored(log, e, s.stored)
    case Compact(c, q, summary) => CompactEvents(c, q, log, summary)
  }

  function RunSteps(log: seq<Event>, steps: seq<Step>): seq<Event> {
    if steps == [] then log else Next(RunSteps(log, steps[..|steps| - 1]), steps[|steps| - 1])
  }

  datatype GuardResult = GuardAppended(event: Event) | GuardRefused(code: string, terminalId: string) | StoreRejected

  class Registry {
    var log: seq<Event>
    /** The store takes every valid event. */
    const accepts: bool
    /** The events offered to the store so far. */
    ghost var offered: seq<Event>

    constructor (accepts: bool)
      ensures log == [] == offered && this.accepts == accepts
    {
      log, offered, this.accepts := [], [], accepts;
    }

    /** The store's append: anything may stop it, but it never stores an invalid event. */
    method AppendRegistryEvent(e: Event) returns (ok: bool)
      modifies this
      ensures log == Stored(old(log), e, ok) && (ok ==> ValidEvent(e)) && (accepts && ValidEvent(e) ==> ok)
      ensures offered == old(offered) + [e]
    {
      ok := *;
      if accepts { ok := true; }
      if !ValidEvent(e) { ok := false; }
      if ok { log := log + [e]; }
      offered := offered + [e];
    }

    /** recordBudgetExhaustion: on a spent budget without a block exactly one block is offered to the
        store, and reported as the store took it; otherwise nothing is, and the refusal names the
        first of: a blank objective, an earlier block, an unspent budget. */
    method RecordBudgetExhaustion(call: Call) returns (r: GuardResult, ghost stored: bool)
      requires call.Exhaust?
      modifies this
      ensures log == Next(old(log), Step(call, stored))
      ensures var o, block := call.objective, BlockEvent(call);
              if Blank(o) then r == GuardRefused("invalid_objective", "") && offered == old(offered)
              else if TerminalIds(old(log), o) != [] then
                r == GuardRefused("terminal_already_recorded", TerminalIds(old(log), o)[0]) && offered == old(offered)
              else if OverheadCount(old(log), o) < 25 then
                r == GuardRefused("budget_not_exhausted", "") && offered == old(offered)
              else
                && offered == old(offered) + [block]
                && (|| (r == GuardAppended(block) && log == old(log) + [block])
                    || (r == StoreRejected && log == old(log) && !(accepts && ValidEvent(block))))
      ensures !r.GuardAppended? ==> log == old(log)
    {
      stored := false;
      if Blank(call.objective) {
        return GuardRefused("invalid_objective", ""), stored;
      }
      var a := DeriveOverheadAccounting(log, call.objective);
      if a.terminalIds != [] {
        return GuardRefused("terminal_already_recorded", a.terminalIds[0]), stored;
      }
      if a.count < GOVERNANCE_OVERHEAD_BUDGET {
        return GuardRefused("budget_not_exhausted", ""), stored;
      }
      var ok := AppendRegistryEvent(BlockEvent(call));
      stored := ok;
      return if ok then GuardAppended(BlockEvent(call)) else StoreRejected, stored;
    }

    /** appendGovernanceOverheadEvent: a countable event of a blocked objective is refused and never
        offered to the store; every other event is offered once, and reported as the store took it. */
    method AppendGovernanceOverheadEvent(e: Event) returns (r: GuardResult, ghost stored: bool)
      modifies this
      ensures log == Next(old(log), Step(Overhead(e), stored))
      ensures if !Blank(e.objective) && Countable(e) && TerminalIds(old(log), e.objective) != [] then
                && r == GuardRefused("objective_terminally_blocked", TerminalIds(old(log), e.objective)[0])
                && offered == old(offered)
              else
                && offered == old(offered) + [e]
                && (|| (r == GuardAppended(e) && log == old(log) + [e])
                    || (r == StoreRejected && log == old(log) && !(accepts && ValidEvent(e))))
      ensures !r.GuardAppended? ==> log == old(log)
    {
      stored := false;
      if !Blank(e.objective) && Countable(e) {
        var a := DeriveOverheadAccounting(log, e.objective);
        if a.terminalIds != [] {
          return GuardRefused("objective_terminally_blocked", a.terminalIds[0]), stored;
        }
      }
      var ok := AppendRegistryEvent(e);
      stored := ok;
      return if ok then GuardAppended(e) else StoreRejected, stored;
    }
  }

  // ------------------------------------------------------------------ guarded runs

  /** The objective's overhead and terminal events come only from the two guards, whatever they
      are given; every other write leaves the objective's overhead and blocks alone. */
  predicate ThroughGuards(call: Call, o: string) {
    match call
    case Exhaust(_, _, _, _, _) => true
    case Overhead(_) => true
    case Direct(e) => e.objective == o ==> !Countable(e) && !e.IsTerminalBlocked()
    case Compact(_, _, _) => false
  }

  /** A ready-made TERMINAL_BLOCKED handed to the overhead guard, and stored. */
  predicate ReadyBlock(s: Step, o: string) {
    s.call.Overhead? && BlockOf(o)(s.call.event) && s.stored && ValidEvent(s.call.event)
  }

  /** Such a block, although the objective is already blocked or its budget is not spent. */
  predicate BadBlock(log: seq<Event>, s: Step, o: string) {
    ReadyBlock(s, o) && (TerminalIds(log, o) != [] || OverheadCount(log, o) < GOVERNANCE_OVERHEAD_BUDGET)
  }

  /** The proof chain ends at the block: at most one, after at least a budget's worth of overhead,
      and no overhead after it. */
  ghost predicate EndsOnce(log: seq<Event>, o: string) {
    && |Filter(log, BlockOf(o))| <= 1
    && forall i :: 0 <= i < |log| && BlockOf(o)(log[i]) ==>
         && OverheadCount(log[..i], o) >= 25
         && OverheadCount(log, o) == OverheadCount(log[..i], o)
  }

  lemma NoBlockMeansNone(log: seq<Event>, o: string)
    ensures TerminalIds(log, o) == [] <==> Filter(log, BlockOf(o)) == []
    ensures TerminalIds(log, o) == [] <==> forall i :: 0 <= i < |log| ==> !BlockOf(o)(log[i])
  {
    FilterMembers(log, BlockOf(o));
    if exists i :: 0 <= i < |log| && BlockOf(o)(log[i]) {
      var i :| 0 <= i < |log| && BlockOf(o)(log[i]);
      assert log[i] in Filter(log, BlockOf(o));
    } else if Filter(log, BlockOf(o)) != [] {
      assert Filter(log, BlockOf(o))[0] in Filter(log, BlockOf(o));
    }
  }

  lemma EndsOnceSnoc(log: seq<Event>, e: Event, o: string)
    requires EndsOnce(log, o)
    requires BlockOf(o)(e) ==> TerminalIds(log, o) == [] && OverheadCount(log, o) >= GOVERNANCE_OVERHEAD_BUDGET
    requires OverheadOf(o)(e) ==> TerminalIds(log, o) == []
    ensures EndsOnce(log + [e], o)
  {
    FilterSnoc(log, e, BlockOf(o));
    FilterSnoc(log, e, OverheadOf(o));
    NoBlockMeansNone(log, o);
    forall i | 0 <= i < |log + [e]| && BlockOf(o)((log + [e])[i])
      ensures OverheadCount((log + [e])[..i], o) >= 25
      ensures OverheadCount(log + [e], o) == OverheadCount((log + [e])[..i], o)
    {
      assert (log + [e])[..i] == log[..i];
      if i == |log| {
        assert log[..i] == log;
      }
    }
  }

  /** Nothing appended afterwards repairs a log on which the chain did not end once. */
  lemma EndsOnceOfPrefix(log: seq<Event>, more: seq<Event>, o: string)
    requires EndsOnce(log + more, o)
    ensures EndsOnce(log, o)
  {
    FilterConcat(log, more, BlockOf(o));
    FilterConcat(log, more, OverheadOf(o));
    forall i | 0 <= i < |log| && BlockOf(o)(log[i])
      ensures OverheadCount(log[..i], o) >= 25
      ensures OverheadCount(log, o) == OverheadCount(log[..i], o)
    {
      assert (log + more)[i] == log[i] && (log + more)[..i] == log[..i];
      assert log == log[..i] + log[i..];
      FilterConcat(log[..i], log[i..], OverheadOf(o));
    }
  }

  /** The overhead guard checks only countable classes, so a block that is not due is stored, and
      that breaks the guarantee at once: a first block on an unspent budget or a second block. */
  lemma UnguardedBlockPasses(log: seq<Event>, s: Step, o: string)
    requires BadBlock(log, s, o)
    ensures Next(log, s) == log + [s.call.event]
    ensures !EndsOnce(Next(log, s), o)
  {
    var e := s.call.event;
    FilterSnoc(log, e, BlockOf(o));
    assert (log + [e])[..|log|] == log;
    assert (log + [e])[|log|] == e;
  }

  /** The first such input: a block of a fresh objective. */
  lemma BlockOfFreshObjective(o: string)
    requires o != ""
    ensures var e := Terminal("e", "t", o, None, TERMINAL_BLOCKED, [ContentHash("p", "h")]);
            BadBlock([], Step(Overhead(e), true), o)
  {
  }

  /** One step through the guards keeps the guarantee exactly when it is not a bad block. */
  lemma GuardedStep(log: seq<Event>, s: Step, o: string)
    requires EndsOnce(log, o) && !Blank(o) && ThroughGuards(s.call, o)
    ensures EndsOnce(Next(log, s), o) <==> !BadBlock(log, s, o)
  {
    if BadBlock(log, s, o) {
      UnguardedBlockPasses(log, s, o);
    } else if Next(log, s) != log {
      EndsOnceSnoc(log, Next(log, s)[|log|], o);
    }
  }

  lemma {:induction false} RunGrows(log: seq<Event>, steps: seq<Step>, n: nat)
    requires n <= |steps| && forall i :: 0 <= i < |steps| ==> !steps[i].call.Compact?
    ensures RunSteps(log, steps[..n]) <= RunSteps(log, steps)
  {
    if n < |steps| {
      var init := steps[..|steps| - 1];
      RunGrows(log, init, n);
      assert init[..n] == steps[..n];
    } else {
      assert steps[..n] == steps;
    }
  }

  lemma EndsOnceBefore(log: seq<Event>, steps: seq<Step>, n: nat, o: string)
    requires n <= |steps| && forall i :: 0 <= i < |steps| ==> !steps[i].call.Compact?
    requires EndsOnce(RunSteps(log, steps), o)
    ensures EndsOnce(RunSteps(log, steps[..n]), o)
  {
    RunGrows(log, steps, n);
    var before, after := RunSteps(log, steps[..n]), RunSteps(log, steps);
    assert after == before + after[|before|..];
    EndsOnceOfPrefix(before, after[|before|..], o);
  }

  /** No step of the run is `bad` on the log it meets. */
  ghost predicate Never(log: seq<Event>, steps: seq<Step>, bad: (seq<Event>, Step) -> bool) {
    forall i :: 0 <= i < |steps| ==> !bad(RunSteps(log, steps[..i]), steps[i])
  }

  lemma NeverSnoc(log: seq<Event>, steps: seq<Step>, bad: (seq<Event>, Step) -> bool)
    requires steps != []
    ensures var init, last := steps[..|steps| - 1], steps[|steps| - 1];
            Never(log, steps, bad) <==> Never(log, init, bad) && !bad(RunSteps(log, init), last)
  {
    var init := steps[..|steps| - 1];
    forall i | 0 <= i < |init| ensures init[..i] == steps[..i] && init[i] == steps[i] {
    }
    if Never(log, steps, bad) {
      forall i | 0 <= i < |init| ensures !bad(RunSteps(log, init[..i]), init[i]) {
        assert !bad(RunSteps(log, steps[..i]), steps[i]);
      }
      assert !bad(RunSteps(log, steps[..|init|]), steps[|init|]);
    }
    if Never(log, init, bad) && !bad(RunSteps(log, init), steps[|init|]) {
      forall i | 0 <= i < |steps| ensures !bad(RunSteps(log, steps[..i]), steps[i]) {
        if i < |init| {
          assert !bad(RunSteps(log, init[..i]), init[i]);
        }
      }
    }
  }

  function BadBlockOf(o: string): (seq<Event>, Step) -> bool {
    (log: seq<Event>, s: Step) => BadBlock(log, s, o)
  }

  /** In every run whose objective is written only through the two guards, whatever else happens
      to other objectives and whichever appends fail, the proof chain ends at most once, only after
      the budget is spent and for good, if and only if no ready-made TERMINAL_BLOCKED reached the
      overhead guard while the objective was blocked or its budget unspent. */
  lemma {:induction false} GuardedRunEndsOnce(log: seq<Event>, steps: seq<Step>, o: string)
    requires EndsOnce(log, o) && !Blank(o)
    requires forall i :: 0 <= i < |steps| ==> ThroughGuards(steps[i].call, o)
    ensures EndsOnce(RunSteps(log, steps), o) <==> Never(log, steps, BadBlockOf(o))
  {
    if steps != [] {
      var init, last := steps[..|steps| - 1], steps[|steps| - 1];
      GuardedRunEndsOnce(log, init, o);
      NeverSnoc(log, steps, BadBlockOf(o));
      assert ThroughGuards(last.call, o);
      if EndsOnce(RunSteps(log, init), o) {
        GuardedStep(RunSteps(log, init), last, o);
      } else if EndsOnce(RunSteps(log, steps), o) {
        EndsOnceBefore(log, steps, |init|, o);
        assert false;
      }
    }
  }

  /** The budget alone never stops anything: the guards by themselves let an objective reach any
      overhead count without a block. */
  lemma {:induction false} OverheadIsUnbounded(e: Event, n: nat) returns (steps: seq<Step>)
    requires ValidEvent(e) && Countable(e)
    ensures |steps| == n && forall i :: 0 <= i < n ==> steps[i] == Step(Overhead(e), true)
    ensures OverheadCount(RunSteps([], steps), e.objective) == n
    ensures TerminalIds(RunSteps([], steps), e.objective) == []
  {
    if n == 0 {
      steps := [];
    } else {
      var before := OverheadIsUnbounded(e, n - 1);
      var log := RunSteps([], before);
      steps := before + [Step(Overhead(e), true)];
      assert steps[..|before|] == before;
      assert RunSteps([], steps) == log + [e];
      FilterSnoc(log, e, OverheadOf(e.objective));
      FilterSnoc(log, e, BlockOf(e.objective));
    }
  }

  // ------------------------------------------------------------------ across compaction

  predicate IsSummary(e: Event) {
    e.Terminal? && e.terminalType == TERMINAL_COMPLETED
  }

  /** Compaction on events: the survivors and a summary. The blocks of every objective stay, and
      the summary counts toward nothing, even for an objective named like the scope. */
  lemma CompactionKeepsBlocks(c: Codec, q: Request, log: seq<Event>, summary: Event, o: string)
    requires IsSummary(summary)
    ensures TerminalIds(CompactEvents(c, q, log, summary), o) == TerminalIds(log, o)
    ensures OverheadCount(CompactEvents(c, q, log, summary), o) <= OverheadCount(log, o)
    ensures AttemptCount(CompactEvents(c, q, log, summary), o) <= AttemptCount(log, o)
    ensures OverheadOf(o)(summary) == AttemptOf(o)(summary) == BlockOf(o)(summary) == false
  {
    var keep := SurvivingEvent(c, q.policy, q.now.ms);
    FilterSnoc(Filter(log, keep), summary, BlockOf(o));
    FilterSnoc(Filter(log, keep), summary, OverheadOf(o));
    FilterSnoc(Filter(log, keep), summary, AttemptOf(o));
    FilterTwice(log, keep, BlockOf(o), BlockOf(o));
    SurvivorsCount(log, keep, OverheadOf(o));
    SurvivorsCount(log, keep, AttemptOf(o));
  }

  function RecentOverhead(c: Codec, q: Request, o: string): Event -> bool {
    (e: Event) => !Old(c, q.policy, q.now.ms, e) && e.objective == o && Countable(e)
  }

  /** Compaction forgets old overhead too, and with it that a budget was spent: afterwards exactly
      the countable events that are not older than their cutoff count, so the exhaustion guard
      fires exactly when these alone spend the budget. */
  lemma CompactionForgetsOldOverhead(c: Codec, q: Request, log: seq<Event>, summary: Event, o: string)
    requires IsSummary(summary)
    ensures OverheadCount(CompactEvents(c, q, log, summary), o) == |Filter(log, RecentOverhead(c, q, o))|
    ensures ExhaustFires(CompactEvents(c, q, log, summary), o) <==>
              && !Blank(o) && TerminalIds(log, o) == []
              && |Filter(log, RecentOverhead(c, q, o))| >= 25
  {
    var keep := SurvivingEvent(c, q.policy, q.now.ms);
    FilterSnoc(Filter(log, keep), summary, OverheadOf(o));
    FilterTwice(log, keep, OverheadOf(o), RecentOverhead(c, q, o));
    CompactionKeepsBlocks(c, q, log, summary, o);
  }

  function RecentAttempt(c: Codec, q: Request, o: string): Event -> bool {
    (e: Event) => !Old(c, q.policy, q.now.ms, e) && e.objective == o && IsIncrement(e)
  }

  /** Compaction forgets old attempts: afterwards the ceiling counts exactly the increments that
      are not older than their cutoff. */
  lemma CompactionForgetsOldAttempts(c: Codec, q: Request, log: seq<Event>, summary: Event, o: string)
    requires IsSummary(summary)
    ensures AttemptCount(CompactEvents(c, q, log, summary), o) == |Filter(log, RecentAttempt(c, q, o))|
    ensures AttemptPermitted(CompactEvents(c, q, log, summary), o) <==>
            |Filter(log, RecentAttempt(c, q, o))| < 3
  {
    var keep := SurvivingEvent(c, q.policy, q.now.ms);
    FilterSnoc(Filter(log, keep), summary, AttemptOf(o));
    FilterTwice(log, keep, AttemptOf(o), RecentAttempt(c, q, o));
  }

  /** Nothing else forgets: without compaction an objective at its ceiling stays refused. */
  lemma {:induction false} AppendsNeverReset(log: seq<Event>, steps: seq<Step>, o: string)
    requires forall i :: 0 <= i < |steps| ==> !steps[i].call.Compact?
    ensures AttemptCount(log, o) <= AttemptCount(RunSteps(log, steps), o)
    ensures !AttemptPermitted(log, o) ==> !AttemptPermitted(RunSteps(log, steps), o)
  {
    if steps != [] {
      var before, last := RunSteps(log, steps[..|steps| - 1]), steps[|steps| - 1];
      AppendsNeverReset(log, steps[..|steps| - 1], o);
      if Next(before, last) != before {
        FilterSnoc(before, Next(before, last)[|before|], AttemptOf(o));
      }
    }
  }

  lemma {:induction false} SurvivorsCount(log: seq<Event>, keep: Event -> bool, p: Event -> bool)
    ensures |Filter(Filter(log, keep), p)| <= |Filter(log, p)|
  {
    if log != [] {
      var init, last := log[..|log| - 1], log[|log| - 1];
      SurvivorsCount(init, keep, p);
      if keep(last) {
        FilterSnoc(Filter(init, keep), last, p);
      } else {
        assert Filter(log, keep) == Filter(init, keep);
      }
    }
  }

  /** A real compaction of the log file is, to every reader, the event-level one. */
  lemma CompactedFileReadsAsCompacted(c: Codec, q: Request, text: string, plan: Plan)
    requires Lawful(c) && plan == PlanOf(c, q, text) && plan.Rewrite?
    ensures ReadText(c, text).Events? && IsSummary(plan.summary)
    ensures ReadText(c, plan.newText) == Events(CompactEvents(c, q, ReadText(c, text).events, plan.summary))
  {
    RewriteReadsBack(c, q, text);
  }

  /** So what was blocked before it is blocked after it, and no count rises. */
  lemma CompactedFileKeepsBlocks(
    c: Codec, q: Request, text: string, plan: Plan, before: ReadResult, after: ReadResult, o: string)
    requires Lawful(c) && plan == PlanOf(c, q, text) && plan.Rewrite?
    requires before == ReadText(c, text) && after == ReadText(c, plan.newText)
    ensures before.Events? && after.Events?
    ensures TerminalIds(after.events, o) == TerminalIds(before.events, o)
    ensures OverheadCount(after.events, o) <= OverheadCount(before.events, o)
    ensures AttemptCount(after.events, o) <= AttemptCount(before.events, o)
  {
    CompactedFileReadsAsCompacted(c, q, text, plan);
    CompactionKeepsBlocks(c, q, before.events, plan.summary, o);
  }

  ghost predicate SummariesOnly(steps: seq<Step>) {
    forall i :: 0 <= i < |steps| && steps[i].call.Compact? ==> IsSummary(steps[i].call.summary)
  }

  lemma StepKeepsBlocks(log: seq<Event>, s: Step, o: string)
    requires s.call.Compact? ==> IsSummary(s.call.summary)
    ensures TerminalIds(log, o) <= TerminalIds(Next(log, s), o)
  {
    match s.call
    case Compact(c, q, summary) => CompactionKeepsBlocks(c, q, log, summary, o);
    case _ =>
      if Next(log, s) != log {
        var e := Next(log, s)[|log|];
        FilterSnoc(log, e, BlockOf(o));
        if BlockOf(o)(e) {
          MapSnoc(Filter(log, BlockOf(o)), e, IdOf());
        }
      }
  }

  /** Under any sequence of appends, guard calls and compactions the recorded blocks of every
      objective only grow at the end: a block, once recorded, is never lost. */
  lemma {:induction false} BlocksAreForEver(log: seq<Event>, steps: seq<Step>, o: string)
    requires SummariesOnly(steps)
    ensures TerminalIds(log, o) <= TerminalIds(RunSteps(log, steps), o)
  {
    if steps != [] {
      BlocksAreForEver(log, steps[..|steps| - 1], o);
      StepKeepsBlocks(RunSteps(log, steps[..|steps| - 1]), steps[|steps| - 1], o);
    }
  }

  /** A ready-made block for an objective that is already blocked. */
  predicate SecondBlock(log: seq<Event>, s: Step, o: string) {
    ReadyBlock(s, o) && TerminalIds(log, o) != []
  }

  function SecondBlockOf(o: string): (seq<Event>, Step) -> bool {
    (log: seq<Event>, s: Step) => SecondBlock(log, s, o)
  }

  lemma BlockedOnceStep(log: seq<Event>, s: Step, o: string)
    requires |TerminalIds(log, o)| <= 1 && (s.call.Compact? ==> IsSummary(s.call.summary))
    requires ThroughGuards(s.call, o) || s.call.Compact?
    ensures |TerminalIds(Next(log, s), o)| <= 1 <==> !SecondBlock(log, s, o)
  {
    if s.call.Compact? {
      CompactionKeepsBlocks(s.call.codec, s.call.q, log, s.call.summary, o);
    } else if Next(log, s) != log {
      FilterSnoc(log, Next(log, s)[|log|], BlockOf(o));
    }
  }

  /** With any compactions along the way, an objective written only through the two guards is
      blocked at most once if and only if no ready-made TERMINAL_BLOCKED reached the overhead guard
      while it was blocked already. */
  lemma {:induction false} BlockedAtMostOnce(log: seq<Event>, steps: seq<Step>, o: string)
    requires |TerminalIds(log, o)| <= 1 && SummariesOnly(steps)
    requires forall i :: 0 <= i < |steps| ==> ThroughGuards(steps[i].call, o) || steps[i].call.Compact?
    ensures |TerminalIds(RunSteps(log, steps), o)| <= 1 <==> Never(log, steps, SecondBlockOf(o))
  {
    if steps != [] {
      var init, last := steps[..|steps| - 1], steps[|steps| - 1];
      BlockedAtMostOnce(log, init, o);
      NeverSnoc(log, steps, SecondBlockOf(o));
      if |TerminalIds(RunSteps(log, init), o)| <= 1 {
        BlockedOnceStep(RunSteps(log, init), last, o);
      } else {
        StepKeepsBlocks(RunSteps(log, init), last, o);
      }
    }
  }

  /** So a refused objective stays refused: after any later history, compactions included, the
      overhead guard and the exhaustion guard both leave the log alone. */
  lemma RefusedStaysRefused(log: seq<Event>, steps: seq<Step>, e: Event, call: Call, stored: bool)
    requires SummariesOnly(steps) && OverheadRefused(log, e)
    requires call.Exhaust? && call.objective == e.objective
    ensures var later := RunSteps(log, steps);
            && OverheadRefused(later, e)
            && Next(later, Step(Overhead(e), stored)) == later
            && Next(later, Step(call, stored)) == later
  {
    BlocksAreForEver(log, steps, e.objective);
  }
}
