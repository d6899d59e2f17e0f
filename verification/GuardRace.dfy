// The two governance guards as several processes run them on one log: each derives first and
// appends later, and anything may happen in between (src/protocol/governance.ts:1165-1318). The
// store's lock makes every append and every compaction one step, but not the guard around it.

module GuardRace {
  import opened Wrappers
  import opened Events
  import opened Sequences
  import opened Text
  import opened Governance

  type Pid = nat

  /** Between its derivation, which let the event pass, and its append. */
  datatype Pc = Outside | Inside(event: Event)

  datatype State = State(log: seq<Event>, procs: map<Pid, Pc>)

  datatype Action = Enter(call: Call) | Leave(stored: bool)

  datatype Move = Move(pid: Pid, action: Action)

  /** The event the call will append, if its derivation on this log lets it. */
  function Passed(log: seq<Event>, call: Call): Option<Event> {
    match call
    case Exhaust(o, _, _, _, _) => if ExhaustFires(log, o) then Some(BlockEvent(call)) else None
    case Overhead(e) => if OverheadRefused(log, e) then None else Some(e)
    case Direct(e) => Some(e)
    case Compact(_, _, _) => None
  }

  function DoEnter(s: State, p: Pid, call: Call): State {
    match call
    case Compact(c, q, summary) => s.(log := CompactEvents(c, q, s.log, summary))
    case _ =>
      match Passed(s.log, call)
      case None => s
      case Some(e) => s.(procs := s.procs[p := Inside(e)])
  }

  /** One step of process `p`; an action that is not enabled leaves the state alone. */
  function Do(s: State, m: Move): State {
    if m.pid !in s.procs then s
    else
      match m.action
      case Enter(call) => if s.procs[m.pid].Outside? then DoEnter(s, m.pid, call) else s
      case Leave(stored) =>
        match s.procs[m.pid]
        case Outside => s
        case Inside(e) => State(Stored(s.log, e, stored), s.procs[m.pid := Outside])
  }

  function Run(s: State, moves: seq<Move>): State {
    if moves == [] then s else Do(Run(s, moves[..|moves| - 1]), moves[|moves| - 1])
  }

  /** A call that nobody interrupts is the one step that the guarded runs are made of. */
  lemma UninterruptedCall(s: State, p: Pid, call: Call, stored: bool)
    requires p in s.procs && s.procs[p] == Outside
    ensures Run(s, [Move(p, Enter(call)), Move(p, Leave(stored))]) == State(Next(s.log, Step(call, stored)), s.procs)
  {
    var moves := [Move(p, Enter(call)), Move(p, Leave(stored))];
    assert moves[..1] == [moves[0]] && moves[..1][..0] == [];
    var s' := Do(s, moves[0]);
    assert Run(s, moves[..1]) == s';
    assert s.procs[p := Outside] == s.procs;
    if s' != s && !call.Compact? {
      assert s'.procs[p := Outside] == s.procs;
    }
  }

  // ------------------------------------------------------------------ how many get through

  /** The processes about to append such an event. */
  function Armed(s: State, wanted: Event -> bool): set<Pid> {
    set p | p in s.procs && s.procs[p].Inside? && wanted(s.procs[p].event)
  }

  lemma ArmedBound(s: State, wanted: Event -> bool)
    ensures |Armed(s, wanted)| <= |s.procs|
  {
    SubsetSize(Armed(s, wanted), s.procs.Keys);
  }

  lemma Disarmed(s: State, s': State, p: Pid, wanted: Event -> bool)
    requires p in s.procs && s'.procs == s.procs[p := Outside]
    ensures |Armed(s, wanted)| == |Armed(s', wanted)| + if p in Armed(s, wanted) then 1 else 0
  {
    assert Armed(s', wanted) == Armed(s, wanted) - {p};
  }

  lemma Rearmed(s: State, s': State, p: Pid, e: Event, wanted: Event -> bool)
    requires p in s.procs && s.procs[p] == Outside && s'.procs == s.procs[p := Inside(e)]
    ensures |Armed(s', wanted)| == |Armed(s, wanted)| + if wanted(e) then 1 else 0
  {
    assert Armed(s', wanted) == Armed(s, wanted) + if wanted(e) then {p} else {};
  }

  /** The call writes such an event without any guard having looked for a block. */
  predicate Unchecked(call: Call, wanted: Event -> bool) {
    match call
    case Overhead(e) => !Countable(e) && wanted(e)
    case Direct(e) => wanted(e)
    case _ => false
  }

  function UncheckedMoves(moves: seq<Move>, wanted: Event -> bool): nat {
    if moves == [] then 0
    else
      var a := moves[|moves| - 1].action;
      UncheckedMoves(moves[..|moves| - 1], wanted) + if a.Enter? && Unchecked(a.call, wanted) then 1 else 0
  }

  predicate SummaryCall(m: Move) {
    m.action.Enter? && m.action.call.Compact? ==> IsSummary(m.action.call.summary)
  }

  /** The blocks there are and those on the way; before the first, any process may be on its way. */
  function BlockBound(s: State, o: string): nat {
    if TerminalIds(s.log, o) == [] then |s.procs| else |TerminalIds(s.log, o)| + |Armed(s, BlockOf(o))|
  }

  lemma EnterBound(s: State, p: Pid, call: Call, o: string)
    requires p in s.procs && s.procs[p] == Outside && (call.Compact? ==> IsSummary(call.summary))
    ensures BlockBound(DoEnter(s, p, call), o) <= BlockBound(s, o) + if Unchecked(call, BlockOf(o)) then 1 else 0
    ensures |DoEnter(s, p, call).procs| == |s.procs|
  {
    if call.Compact? {
      CompactionKeepsBlocks(call.codec, call.q, s.log, call.summary, o);
    } else if Passed(s.log, call).Some? {
      assert s.procs[p := Inside(Passed(s.log, call).value)].Keys == s.procs.Keys;
      Rearmed(s, DoEnter(s, p, call), p, Passed(s.log, call).value, BlockOf(o));
    }
  }

  lemma LeaveBound(s: State, p: Pid, stored: bool, o: string)
    requires p in s.procs && s.procs[p].Inside?
    ensures BlockBound(Do(s, Move(p, Leave(stored))), o) <= BlockBound(s, o)
    ensures |Do(s, Move(p, Leave(stored))).procs| == |s.procs|
  {
    var s', e := Do(s, Move(p, Leave(stored))), s.procs[p].event;
    assert s'.procs.Keys == s.procs.Keys;
    Disarmed(s, s', p, BlockOf(o));
    ArmedBound(s, BlockOf(o));
    FilterSnoc(s.log, e, BlockOf(o));
  }

  /** However the calls interleave, with compactions and failed appends: an objective without a
      block gets at most as many blocks as there are processes, and one with a block at most as many
      more as processes had already passed the guard, not counting the ready-made blocks that no
      guard checks. */
  lemma {:induction false} BlocksBounded(s: State, moves: seq<Move>, o: string)
    requires forall i :: 0 <= i < |moves| ==> SummaryCall(moves[i])
    ensures var end := Run(s, moves);
            |TerminalIds(end.log, o)| <= BlockBound(end, o) <= BlockBound(s, o) + UncheckedMoves(moves, BlockOf(o))
  {
    if moves != [] {
      var before, m := Run(s, moves[..|moves| - 1]), moves[|moves| - 1];
      BlocksBounded(s, moves[..|moves| - 1], o);
      if m.pid in before.procs {
        match m.action
        case Enter(call) =>
          if before.procs[m.pid].Outside? {
            EnterBound(before, m.pid, call, o);
          }
        case Leave(stored) =>
          if before.procs[m.pid].Inside? {
            LeaveBound(before, m.pid, stored, o);
          }
      }
    }
  }

  /** The overhead there is and the overhead on the way. */
  function OverheadBound(s: State, o: string): nat {
    OverheadCount(s.log, o) + |Armed(s, OverheadOf(o))|
  }

  lemma BlockedStep(s: State, m: Move, o: string)
    requires TerminalIds(s.log, o) != [] && !Blank(o) && SummaryCall(m)
    ensures TerminalIds(Do(s, m).log, o) != []
    ensures OverheadBound(Do(s, m), o) <= OverheadBound(s, o) + UncheckedMoves([m], OverheadOf(o))
  {
    var s' := Do(s, m);
    assert UncheckedMoves([m][..0], OverheadOf(o)) == 0;
    if m.pid in s.procs && s.procs[m.pid].Inside? {
      if m.action.Leave? {
        Disarmed(s, s', m.pid, OverheadOf(o));
        FilterSnoc(s.log, s.procs[m.pid].event, OverheadOf(o));
        FilterSnoc(s.log, s.procs[m.pid].event, BlockOf(o));
      }
    } else if m.pid in s.procs && m.action.Enter? {
      var call := m.action.call;
      if call.Compact? {
        CompactionKeepsBlocks(call.codec, call.q, s.log, call.summary, o);
      } else if Passed(s.log, call).Some? {
        Rearmed(s, s', m.pid, Passed(s.log, call).value, OverheadOf(o));
      }
    }
  }

  /** Once an objective is blocked it gains at most as much overhead as was already past the guard:
      each process inside adds one event at most, and none enters any more. */
  lemma {:induction false} OverheadAfterBlock(s: State, moves: seq<Move>, o: string)
    requires TerminalIds(s.log, o) != [] && !Blank(o)
    requires forall i :: 0 <= i < |moves| ==> SummaryCall(moves[i])
    ensures var end := Run(s, moves);
            && TerminalIds(end.log, o) != []
            && OverheadCount(end.log, o) <= OverheadBound(s, o) + UncheckedMoves(moves, OverheadOf(o))
            && OverheadBound(end, o) <= OverheadBound(s, o) + UncheckedMoves(moves, OverheadOf(o))
  {
    if moves != [] {
      var init, last := moves[..|moves| - 1], moves[|moves| - 1];
      OverheadAfterBlock(s, init, o);
      BlockedStep(Run(s, init), last, o);
      assert [last][..0] == [];
    }
  }

  // ------------------------------------------------------------------ the bound is reached

  /** All of them derive, then all of them append. */
  function AllEnter(pids: seq<Pid>, call: Call): seq<Move> {
    if pids == [] then []
    else AllEnter(pids[..|pids| - 1], call) + [Move(pids[|pids| - 1], Enter(call))]
  }

  function AllLeave(pids: seq<Pid>): seq<Move> {
    if pids == [] then [] else AllLeave(pids[..|pids| - 1]) + [Move(pids[|pids| - 1], Leave(true))]
  }

  lemma RunSnoc(s: State, moves: seq<Move>, m: Move)
    ensures Run(s, moves + [m]) == Do(Run(s, moves), m)
  {
    assert (moves + [m])[..|moves|] == moves;
  }

  lemma {:induction false} RunConcat(s: State, a: seq<Move>, b: seq<Move>)
    ensures Run(s, a + b) == Run(Run(s, a), b)
  {
    if b == [] {
      assert a + b == a;
    } else {
      var init, last := b[..|b| - 1], b[|b| - 1];
      RunConcat(s, a, init);
      assert a + b == (a + init) + [last];
      RunSnoc(s, a + init, last);
    }
  }

  ghost predicate AllAt(s: State, pids: seq<Pid>, pc: Pc) {
    forall i :: 0 <= i < |pids| ==> pids[i] in s.procs && s.procs[pids[i]] == pc
  }

  lemma Enters(s: State, p: Pid, call: Call)
    requires p in s.procs && s.procs[p] == Outside && call.Exhaust? && ExhaustFires(s.log, call.objective)
    ensures Do(s, Move(p, Enter(call))) == s.(procs := s.procs[p := Inside(BlockEvent(call))])
  {
  }

  lemma {:induction false} EveryoneEnters(s: State, pids: seq<Pid>, call: Call)
    requires Distinct(pids) && AllAt(s, pids, Outside)
    requires call.Exhaust? && ExhaustFires(s.log, call.objective)
    ensures var mid := Run(s, AllEnter(pids, call));
            && mid.log == s.log && AllAt(mid, pids, Inside(BlockEvent(call)))
            && (forall p :: p in s.procs && p !in pids ==> p in mid.procs && mid.procs[p] == s.procs[p])
  {
    if pids != [] {
      var init, last := pids[..|pids| - 1], pids[|pids| - 1];
      EveryoneEnters(s, init, call);
      RunSnoc(s, AllEnter(init, call), Move(last, Enter(call)));
      assert last in s.procs && last !in init;
      Enters(Run(s, AllEnter(init, call)), last, call);
    }
  }

  lemma {:induction false} EveryoneLeaves(s: State, pids: seq<Pid>, e: Event)
    requires Distinct(pids) && AllAt(s, pids, Inside(e)) && ValidEvent(e) && e.IsTerminalBlocked()
    ensures var end := Run(s, AllLeave(pids));
            && |TerminalIds(end.log, e.objective)| == |TerminalIds(s.log, e.objective)| + |pids|
            && (forall p :: p in s.procs && p !in pids ==> p in end.procs && end.procs[p] == s.procs[p])
  {
    if pids != [] {
      var init, last := pids[..|pids| - 1], pids[|pids| - 1];
      EveryoneLeaves(s, init, e);
      RunSnoc(s, AllLeave(init), Move(last, Leave(true)));
      assert last in s.procs && last !in init;
      FilterSnoc(Run(s, AllLeave(init)).log, e, BlockOf(e.objective));
    }
  }

  /** Any processes that all derive before the first appends write one block each. */
  lemma EachWritesABlock(s: State, pids: seq<Pid>, call: Call)
    requires Distinct(pids) && AllAt(s, pids, Outside)
    requires call.Exhaust? && ExhaustFires(s.log, call.objective) && ValidEvent(BlockEvent(call))
    ensures |TerminalIds(Run(s, AllEnter(pids, call) + AllLeave(pids)).log, call.objective)| == |pids|
  {
    EveryoneEnters(s, pids, call);
    RunConcat(s, AllEnter(pids, call), AllLeave(pids));
    EveryoneLeaves(Run(s, AllEnter(pids, call)), pids, BlockEvent(call));
  }

  /** No block of `o` but those the exhaustion guard lets through. */
  ghost predicate GuardedMoves(moves: seq<Move>, o: string) {
    && (forall i :: 0 <= i < |moves| ==> SummaryCall(moves[i]))
    && UncheckedMoves(moves, BlockOf(o)) == 0
  }

  lemma {:induction false} NothingUnchecked(moves: seq<Move>, wanted: Event -> bool)
    requires forall m :: m in moves && m.action.Enter? ==> !Unchecked(m.action.call, wanted)
    ensures UncheckedMoves(moves, wanted) == 0
  {
    if moves != [] {
      NothingUnchecked(moves[..|moves| - 1], wanted);
    }
  }

  lemma {:induction false} OnlyThese(pids: seq<Pid>, call: Call)
    ensures forall m :: m in AllEnter(pids, call) + AllLeave(pids) ==> m.action in {Enter(call), Leave(true)}
  {
    if pids != [] {
      OnlyThese(pids[..|pids| - 1], call);
    }
  }

  lemma EntersAreGuarded(pids: seq<Pid>, call: Call, o: string)
    requires call.Exhaust?
    ensures GuardedMoves(AllEnter(pids, call) + AllLeave(pids), o)
  {
    OnlyThese(pids, call);
    NothingUnchecked(AllEnter(pids, call) + AllLeave(pids), BlockOf(o));
  }

  /** "Exactly one TERMINAL_BLOCKED" is safe from races if and only if there is one process: with a
      spent budget and no block, no interleaving records two exactly if no two processes share the
      log. */
  lemma RaceFreeIffAlone(s: State, o: string)
    requires ExhaustFires(s.log, o) && forall p :: p in s.procs ==> s.procs[p] == Outside
    ensures (forall moves :: GuardedMoves(moves, o) ==> |TerminalIds(Run(s, moves).log, o)| <= 1) <==> |s.procs| <= 1
  {
    if |s.procs| <= 1 {
      forall moves | GuardedMoves(moves, o) ensures |TerminalIds(Run(s, moves).log, o)| <= 1 {
        BlocksBounded(s, moves, o);
      }
    } else {
      var p :| p in s.procs;
      assert |s.procs.Keys - {p}| == |s.procs| - 1;
      var q :| q in s.procs.Keys - {p};
      var pids := [p, q];
      var call := Exhaust(o, "b", "t", None, [ContentHash("p", "h")]);
      var moves := AllEnter(pids, call) + AllLeave(pids);
      EachWritesABlock(s, pids, call);
      EntersAreGuarded(pids, call, o);
      assert GuardedMoves(moves, o) && |TerminalIds(Run(s, moves).log, o)| == 2;
    }
  }
}
