// Any number of appenders and compactors on one registry log, interleaved at every file-system
// step (appendRegistryEvent, compactRegistryEvents and the mkdir lock they share). mkdir, rename
// and one append are atomic; a temp-file write is not, and a process may die at any step.

module RegistryProtocol {
  import opened Wrappers
  import opened Events
  import opened Sequences
  import opened Log
  import opened Compaction

  type Pid = nat

  datatype Pc =
    | Idle
    | AppendWaits(event: Event)
    | AppendHolds(event: Event)
    | AppendWrote(event: Event)
    | CompactWaits(q: Request)
    | CompactHolds(q: Request)
    | CompactRead(q: Request, text: string)
    | CompactTmp(q: Request, text: string)
    | Leaves
    | Crashed
  {
    /** Inside the critical section: the next thing it does with the lock is remove it. */
    predicate Holds() {
      AppendHolds? || AppendWrote? || CompactHolds? || CompactRead? || CompactTmp? || Leaves?
    }
  }

  /** History of one line of the log: written by an append, or by the compaction of `lines`. */
  datatype Entry = Appended(line: string) | Summarised(line: string, lines: seq<string>)

  /** The shared directory (`lock`, `log`, `tmp`), every process, and three history variables:
      what each current line of the log stands for, every line ever appended, and every line
      whose append has returned ok. */
  datatype State = State(
    lock: Option<Pid>, log: Option<string>, tmp: Option<string>, procs: map<Pid, Pc>,
    ledger: seq<Entry>, appends: seq<string>, acked: multiset<string>)

  datatype Action =
    | StartAppend(event: Event)
    | StartCompact(q: Request)
    | TakeLock
    | GiveUp
    | Write
    | ReadLog
    | WriteTmp
    | Rename
    | Fail(leftover: Option<string>)
    | Release
    | Crash(torn: Option<string>)

  function LineOf(): Entry -> string {
    (e: Entry) => e.line
  }

  function LedgerLines(ledger: seq<Entry>): seq<string> {
    Map(ledger, LineOf())
  }

  function EntryLines(e: Entry): seq<string> {
    match e
    case Appended(line) => [line]
    case Summarised(_, lines) => lines
  }

  /** Every appended line the ledger accounts for, live or summarised. */
  function AllLines(ledger: seq<Entry>): seq<string> {
    if ledger == [] then [] else AllLines(ledger[..|ledger| - 1]) + EntryLines(ledger[|ledger| - 1])
  }

  lemma AllLinesSnoc(ledger: seq<Entry>, e: Entry)
    ensures AllLines(ledger + [e]) == AllLines(ledger) + EntryLines(e)
  {
    assert (ledger + [e])[..|ledger|] == ledger;
  }

  function OldEntry(c: Codec, q: Request): Entry -> bool {
    (e: Entry) => OldLine(c, q.policy, q.now.ms, e.line)
  }

  function LiveEntry(c: Codec, q: Request): Entry -> bool {
    (e: Entry) => !OldLine(c, q.policy, q.now.ms, e.line)
  }

  function CompactLedger(c: Codec, q: Request, summary: Event, ledger: seq<Entry>): seq<Entry> {
    Filter(ledger, LiveEntry(c, q)) +
    [Summarised(c.encode(summary), LedgerLines(Filter(ledger, OldEntry(c, q))))]
  }

  function Goto(s: State, p: Pid, pc: Pc): State {
    s.(procs := s.procs[p := pc])
  }

  function Begin(s: State, p: Pid, pc: Pc): State
    requires p in s.procs
  {
    if s.procs[p].Idle? then Goto(s, p, pc) else s
  }

  function DoTakeLock(s: State, p: Pid): State
    requires p in s.procs
  {
    if s.lock.Some? then s
    else
      match s.procs[p]
      case AppendWaits(e) => Goto(s, p, AppendHolds(e)).(lock := Some(p))
      case CompactWaits(q) => Goto(s, p, CompactHolds(q)).(lock := Some(p))
      case _ => s
  }

  function DoGiveUp(s: State, p: Pid): State
    requires p in s.procs
  {
    if s.procs[p].AppendWaits? || s.procs[p].CompactWaits? then Goto(s, p, Idle) else s
  }

  function DoWrite(c: Codec, s: State, p: Pid): State
    requires p in s.procs
  {
    if !s.procs[p].AppendHolds? then s
    else
      var line := c.encode(s.procs[p].event);
      Goto(s, p, AppendWrote(s.procs[p].event)).(
        log := Some(s.log.GetOr("") + line + "\n"),
        ledger := s.ledger + [Appended(line)], appends := s.appends + [line])
  }

  function DoReadLog(s: State, p: Pid): State
    requires p in s.procs
  {
    if !s.procs[p].CompactHolds? then s
    else if s.log == None then Goto(s, p, Leaves)
    else Goto(s, p, CompactRead(s.procs[p].q, s.log.value))
  }

  function DoWriteTmp(c: Codec, s: State, p: Pid): State
    requires p in s.procs
  {
    if !s.procs[p].CompactRead? then s
    else
      var plan := PlanOf(c, s.procs[p].q, s.procs[p].text);
      if plan.Rewrite? then Goto(s, p, CompactTmp(s.procs[p].q, s.procs[p].text)).(tmp := Some(plan.newText))
      else Goto(s, p, Leaves)
  }

  function DoRename(c: Codec, s: State, p: Pid): State
    requires p in s.procs
  {
    if !s.procs[p].CompactTmp? then s
    else
      var plan := PlanOf(c, s.procs[p].q, s.procs[p].text);
      if !plan.Rewrite? then s
      else
        Goto(s, p, Leaves).(
          log := s.tmp, tmp := None, ledger := CompactLedger(c, s.procs[p].q, plan.summary, s.ledger))
  }

  /** A failed append, read, write or rename; the best-effort clean-up after the last two may leave
      anything in the temp file. */
  function DoFail(s: State, p: Pid, leftover: Option<string>): State
    requires p in s.procs
  {
    match s.procs[p]
    case AppendHolds(_) => Goto(s, p, Leaves)
    case CompactHolds(_) => Goto(s, p, Leaves)
    case CompactRead(_, _) => Goto(s, p, Leaves).(tmp := leftover)
    case CompactTmp(_, _) => Goto(s, p, Leaves).(tmp := leftover)
    case _ => s
  }

  function DoRelease(c: Codec, s: State, p: Pid): State
    requires p in s.procs
  {
    match s.procs[p]
    case AppendWrote(e) => Goto(s, p, Idle).(lock := None, acked := s.acked + multiset{c.encode(e)})
    case Leaves => Goto(s, p, Idle).(lock := None)
    case _ => s
  }

  function DoCrash(s: State, p: Pid, torn: Option<string>): State
    requires p in s.procs
  {
    if s.procs[p].CompactRead? then Goto(s, p, Crashed).(tmp := torn) else Goto(s, p, Crashed)
  }

  /** One step of process `p`; an action that is not enabled leaves the state alone. */
  function Do(c: Codec, s: State, p: Pid, a: Action): State {
    if p !in s.procs then s
    else
      match a
      case StartAppend(e) => if ValidEvent(e) then Begin(s, p, AppendWaits(e)) else s
      case StartCompact(q) => if ValidRequest(c, q) then Begin(s, p, CompactWaits(q)) else s
      case TakeLock => DoTakeLock(s, p)
      case GiveUp => DoGiveUp(s, p)
      case Write => DoWrite(c, s, p)
      case ReadLog => DoReadLog(s, p)
      case WriteTmp => DoWriteTmp(c, s, p)
      case Rename => DoRename(c, s, p)
      case Fail(leftover) => DoFail(s, p, leftover)
      case Release => DoRelease(c, s, p)
      case Crash(torn) => DoCrash(s, p, torn)
  }

  datatype Step = Step(pid: Pid, action: Action)

  function Run(c: Codec, s: State, steps: seq<Step>): State {
    if steps == [] then s
    else
      var last := steps[|steps| - 1];
      Do(c, Run(c, s, steps[..|steps| - 1]), last.pid, last.action)
  }

  // ------------------------------------------------------------------ the invariant

  /** Lock directory and critical sections agree; only a dead owner keeps it for ever. */
  ghost predicate LockInv(s: State) {
    && (s.lock.Some? ==> s.lock.value in s.procs && (s.procs[s.lock.value].Holds() || s.procs[s.lock.value].Crashed?))
    && (forall p :: p in s.procs && s.procs[p].Holds() ==> s.lock == Some(p))
  }

  /** What a process inside the critical section has read or prepared is still true. */
  ghost predicate PcInv(c: Codec, s: State, pc: Pc) {
    match pc
    case AppendWaits(e) => ValidEvent(e)
    case AppendHolds(e) => ValidEvent(e)
    case CompactWaits(q) => ValidRequest(c, q)
    case CompactHolds(q) => ValidRequest(c, q)
    case CompactRead(q, text) => ValidRequest(c, q) && s.log == Some(text)
    case CompactTmp(q, text) =>
      && ValidRequest(c, q) && s.log == Some(text)
      && PlanOf(c, q, text).Rewrite? && s.tmp == Some(PlanOf(c, q, text).newText)
    case _ => true
  }

  ghost predicate EntryInv(c: Codec, e: Entry) {
    && '\n' !in e.line
    && c.decode(e.line).Good?
    && (e.Summarised? ==>
          && c.decode(e.line).event.Terminal?
          && Map(c.decode(e.line).event.contentHashes, ShaOf()) == Map(e.lines, c.sha))
  }

  ghost predicate EntriesInv(c: Codec, ledger: seq<Entry>) {
    forall i :: 0 <= i < |ledger| ==> EntryInv(c, ledger[i])
  }

  function ShaOf(): ContentHash -> string {
    (h: ContentHash) => h.sha256
  }

  /** The log is the ledger's lines; every appended line is in the ledger exactly as often as it
      was appended, live or behind a summary. */
  ghost predicate LedgerInv(c: Codec, s: State) {
    && EntriesInv(c, s.ledger)
    && s.log.GetOr("") == Render(LedgerLines(s.ledger))
    && multiset(AllLines(s.ledger)) == multiset(s.appends)
  }

  /** The line the lock holder has written but not yet acknowledged. */
  ghost function Pending(c: Codec, s: State): multiset<string> {
    if s.lock.Some? && s.lock.value in s.procs && s.procs[s.lock.value].AppendWrote?
    then multiset{c.encode(s.procs[s.lock.value].event)} else multiset{}
  }

  ghost predicate AckInv(c: Codec, s: State) {
    s.acked + Pending(c, s) <= multiset(s.appends)
  }

  ghost predicate Inv(c: Codec, s: State) {
    && LockInv(s)
    && (forall p :: p in s.procs ==> PcInv(c, s, s.procs[p]))
    && LedgerInv(c, s)
    && AckInv(c, s)
  }

  function AppendedEntry(): string -> Entry {
    (line: string) => Appended(line)
  }

  /** Any readable, newline-terminated log (or none), no process started, nobody holding the lock. */
  ghost predicate Initial(c: Codec, s: State) {
    && s.lock == None
    && (forall p :: p in s.procs ==> s.procs[p] == Idle)
    && WellFormed(s.log.GetOr("")) && Readable(c, LogLines(s.log.GetOr("")))
    && s.appends == LogLines(s.log.GetOr(""))
    && s.ledger == Map(s.appends, AppendedEntry())
    && s.acked == multiset{}
  }

  lemma {:induction false} AllLinesOfAppended(lines: seq<string>)
    ensures AllLines(Map(lines, AppendedEntry())) == lines
    ensures LedgerLines(Map(lines, AppendedEntry())) == lines
  {
    if lines != [] {
      var init, last := lines[..|lines| - 1], lines[|lines| - 1];
      AllLinesOfAppended(init);
      EntriesOneMore(Map(init, AppendedEntry()), last);
      assert Map(lines, AppendedEntry()) == Map(init, AppendedEntry()) + [Appended(last)];
      assert lines == init + [last];
    }
  }

  lemma InitialLedger(c: Codec, s: State)
    requires Initial(c, s)
    ensures LedgerInv(c, s)
  {
    var lines := s.appends;
    AllLinesOfAppended(lines);
    LinesRoundTrip(s.log.GetOr(""));
    forall i | 0 <= i < |s.ledger| ensures EntryInv(c, s.ledger[i]) {
      assert s.ledger[i] == Appended(lines[i]) && lines[i] in lines;
    }
  }

  lemma InitialInv(c: Codec, s: State)
    requires Initial(c, s)
    ensures Inv(c, s)
  {
    InitialLedger(c, s);
    assert s.acked + Pending(c, s) == multiset{};
    assert LockInv(s) && forall p :: p in s.procs ==> PcInv(c, s, s.procs[p]);
  }

  // ------------------------------------------------------------------ ledger steps

  lemma LedgerLinesNewlineFree(c: Codec, s: State)
    requires LedgerInv(c, s)
    ensures NewlineFree(LedgerLines(s.ledger))
    ensures LogLines(s.log.GetOr("")) == LedgerLines(s.ledger)
    ensures WellFormed(s.log.GetOr(""))
  {
    var lines := LedgerLines(s.ledger);
    forall i | 0 <= i < |lines| ensures '\n' !in lines[i] {
      assert EntryInv(c, s.ledger[i]);
    }
    RenderRoundTrip(lines);
  }

  lemma AppendLedger(c: Codec, s: State, e: Event)
    requires Lawful(c) && LedgerInv(c, s) && ValidEvent(e)
    ensures LedgerInv(c, s.(log := Some(s.log.GetOr("") + c.encode(e) + "\n"),
                            ledger := s.ledger + [Appended(c.encode(e))], appends := s.appends + [c.encode(e)]))
  {
    var line := c.encode(e);
    OneLineMore(s.ledger, line);
    MultisetSnoc(AllLines(s.ledger), line);
    MultisetSnoc(s.appends, line);
    EntriesSnoc(c, s.ledger, Appended(line));
  }

  lemma EntriesOneMore(ledger: seq<Entry>, line: string)
    ensures AllLines(ledger + [Appended(line)]) == AllLines(ledger) + [line]
    ensures LedgerLines(ledger + [Appended(line)]) == LedgerLines(ledger) + [line]
  {
    AllLinesSnoc(ledger, Appended(line));
    MapSnoc(ledger, Appended(line), LineOf());
  }

  lemma OneLineMore(ledger: seq<Entry>, line: string)
    ensures AllLines(ledger + [Appended(line)]) == AllLines(ledger) + [line]
    ensures Render(LedgerLines(ledger + [Appended(line)])) == Render(LedgerLines(ledger)) + line + "\n"
  {
    EntriesOneMore(ledger, line);
    var lines := LedgerLines(ledger);
    assert (lines + [line])[..|lines|] == lines;
  }

  lemma {:induction false} LiveLedgerLines(c: Codec, q: Request, ledger: seq<Entry>)
    ensures LedgerLines(Filter(ledger, LiveEntry(c, q))) == Kept(c, q.policy, q.now.ms, LedgerLines(ledger))
  {
    if ledger != [] {
      var init, last := ledger[..|ledger| - 1], ledger[|ledger| - 1];
      LiveLedgerLines(c, q, init);
      FilterSnoc(LedgerLines(init), last.line, Surviving(c, q.policy, q.now.ms));
      MapSnoc(Filter(init, LiveEntry(c, q)), last, LineOf());
    }
  }

  lemma {:induction false} OldLedgerLines(c: Codec, q: Request, ledger: seq<Entry>)
    ensures LedgerLines(Filter(ledger, OldEntry(c, q))) == Removed(c, q.policy, q.now.ms, LedgerLines(ledger))
  {
    if ledger != [] {
      var init, last := ledger[..|ledger| - 1], ledger[|ledger| - 1];
      OldLedgerLines(c, q, init);
      FilterSnoc(LedgerLines(init), last.line, Expired(c, q.policy, q.now.ms));
      MapSnoc(Filter(init, OldEntry(c, q)), last, LineOf());
    }
  }

  /** Summaries are TERMINAL, so no compaction removes them. */
  ghost predicate SummariesStay(c: Codec, q: Request, ledger: seq<Entry>) {
    forall i :: 0 <= i < |ledger| && ledger[i].Summarised? ==> !OldLine(c, q.policy, q.now.ms, ledger[i].line)
  }

  lemma {:induction false} AllLinesMerge(all: seq<Entry>, a: seq<Entry>, b: seq<Entry>)
    requires IsMerge(all, a, b)
    ensures multiset(AllLines(all)) == multiset(AllLines(a)) + multiset(AllLines(b))
  {
    if all != [] {
      var init, last := all[..|all| - 1], all[|all| - 1];
      if a != [] && a[|a| - 1] == last && IsMerge(init, a[..|a| - 1], b) {
        AllLinesMerge(init, a[..|a| - 1], b);
        MergeMore(AllLines(init), AllLines(a[..|a| - 1]), AllLines(b), EntryLines(last));
      } else {
        AllLinesMerge(init, a, b[..|b| - 1]);
        MergeMore(AllLines(init), AllLines(b[..|b| - 1]), AllLines(a), EntryLines(last));
      }
    }
  }

  lemma MergeMore(all: seq<string>, a: seq<string>, b: seq<string>, more: seq<string>)
    requires multiset(all) == multiset(a) + multiset(b)
    ensures multiset(all + more) == multiset(a + more) + multiset(b)
  {
  }

  lemma {:induction false} AppendedLines(ledger: seq<Entry>)
    requires forall i :: 0 <= i < |ledger| ==> ledger[i].Appended?
    ensures AllLines(ledger) == LedgerLines(ledger)
  {
    if ledger != [] {
      AppendedLines(ledger[..|ledger| - 1]);
    }
  }

  lemma AllLinesSplit(c: Codec, q: Request, ledger: seq<Entry>)
    requires SummariesStay(c, q, ledger)
    ensures multiset(AllLines(ledger)) ==
            multiset(AllLines(Filter(ledger, LiveEntry(c, q))))
            + multiset(LedgerLines(Filter(ledger, OldEntry(c, q))))
  {
    var gone := Filter(ledger, OldEntry(c, q));
    FilterMerges(ledger, LiveEntry(c, q), OldEntry(c, q));
    AllLinesMerge(ledger, Filter(ledger, LiveEntry(c, q)), gone);
    FilterMembers(ledger, OldEntry(c, q));
    forall i | 0 <= i < |gone| ensures gone[i].Appended? {
      assert gone[i] in gone;
    }
    AppendedLines(gone);
  }

  lemma MultisetConcat(a: seq<string>, b: seq<string>)
    ensures multiset(a + b) == multiset(a) + multiset(b)
  {
  }

  lemma CompactKeepsAllLines(c: Codec, q: Request, summary: Event, ledger: seq<Entry>)
    requires SummariesStay(c, q, ledger)
    ensures multiset(AllLines(CompactLedger(c, q, summary, ledger))) == multiset(AllLines(ledger))
  {
    var live, gone := Filter(ledger, LiveEntry(c, q)), LedgerLines(Filter(ledger, OldEntry(c, q)));
    AllLinesSplit(c, q, ledger);
    AllLinesSnoc(live, Summarised(c.encode(summary), gone));
    MultisetConcat(AllLines(live), gone);
  }

  lemma LiveKeepsEntryInv(c: Codec, q: Request, ledger: seq<Entry>)
    requires EntriesInv(c, ledger)
    ensures EntriesInv(c, Filter(ledger, LiveEntry(c, q)))
  {
    var live := Filter(ledger, LiveEntry(c, q));
    FilterMembers(ledger, LiveEntry(c, q));
    forall i | 0 <= i < |live| ensures EntryInv(c, live[i]) {
      assert live[i] in live;
    }
  }

  lemma SummaryEntryInv(c: Codec, q: Request, text: string, ledger: seq<Entry>)
    requires Lawful(c) && PlanOf(c, q, text).Rewrite?
    requires LogLines(text) == LedgerLines(ledger)
    ensures EntryInv(c, Summarised(c.encode(PlanOf(c, q, text).summary), LedgerLines(Filter(ledger, OldEntry(c, q)))))
  {
    RewriteLines(c, q, text);
    SummaryShas(c, q, text);
    OldLedgerLines(c, q, ledger);
  }

  lemma CompactLines(c: Codec, q: Request, text: string, ledger: seq<Entry>)
    requires Lawful(c) && PlanOf(c, q, text).Rewrite?
    requires LogLines(text) == LedgerLines(ledger)
    ensures var plan := PlanOf(c, q, text);
            plan.newText == Render(LedgerLines(CompactLedger(c, q, plan.summary, ledger)))
  {
    var plan := PlanOf(c, q, text);
    var live, gone := Filter(ledger, LiveEntry(c, q)), LedgerLines(Filter(ledger, OldEntry(c, q)));
    LiveLedgerLines(c, q, ledger);
    MapSnoc(live, Summarised(c.encode(plan.summary), gone), LineOf());
    RewriteLines(c, q, text);
  }

  lemma EntriesInvStay(c: Codec, q: Request, ledger: seq<Entry>)
    requires EntriesInv(c, ledger)
    ensures SummariesStay(c, q, ledger)
  {
    forall i | 0 <= i < |ledger| && ledger[i].Summarised?
      ensures !OldLine(c, q.policy, q.now.ms, ledger[i].line)
    {
      assert EntryInv(c, ledger[i]);
    }
  }

  lemma EntriesSnoc(c: Codec, ledger: seq<Entry>, e: Entry)
    requires EntryInv(c, e) && EntriesInv(c, ledger)
    ensures EntriesInv(c, ledger + [e])
  {
  }

  lemma CompactedEntries(c: Codec, q: Request, summary: Event, ledger: seq<Entry>)
    requires EntriesInv(c, ledger)
    requires EntryInv(c, Summarised(c.encode(summary), LedgerLines(Filter(ledger, OldEntry(c, q)))))
    ensures EntriesInv(c, CompactLedger(c, q, summary, ledger))
  {
    LiveKeepsEntryInv(c, q, ledger);
    EntriesSnoc(c, Filter(ledger, LiveEntry(c, q)),
                Summarised(c.encode(summary), LedgerLines(Filter(ledger, OldEntry(c, q)))));
  }

  /** Renaming the planned text over the log is the ledger compaction. */
  lemma CompactLedgerInv(c: Codec, s: State, q: Request, text: string, summary: Event, newText: string)
    requires Lawful(c) && LedgerInv(c, s) && s.log == Some(text)
    requires PlanOf(c, q, text).Rewrite?
    requires PlanOf(c, q, text).summary == summary && PlanOf(c, q, text).newText == newText
    ensures LedgerInv(c, s.(log := Some(newText), ledger := CompactLedger(c, q, summary, s.ledger)))
  {
    LedgerLinesNewlineFree(c, s);
    CompactLines(c, q, text, s.ledger);
    SummaryEntryInv(c, q, text, s.ledger);
    CompactedEntries(c, q, summary, s.ledger);
    EntriesInvStay(c, q, s.ledger);
    CompactKeepsAllLines(c, q, summary, s.ledger);
  }

  lemma SummaryShas(c: Codec, q: Request, text: string)
    requires PlanOf(c, q, text).Rewrite?
    ensures PlanOf(c, q, text).summary.Terminal?
    ensures Map(PlanOf(c, q, text).summary.contentHashes, ShaOf()) == Map(PlanOf(c, q, text).removed, c.sha)
  {
    SummaryRecordsRemoved(c, q, text);
  }

  // ------------------------------------------------------------------ every step keeps the invariant

  /** Only the lock holder can change what another process inside the critical section relies on. */
  lemma Keeps(c: Codec, s: State, s': State, p: Pid, pc: Pc)
    requires Inv(c, s) && p in s.procs && s'.procs == s.procs[p := pc]
    requires LockInv(s') && PcInv(c, s', pc) && LedgerInv(c, s') && AckInv(c, s')
    requires s.lock == Some(p) || (s'.log == s.log && s'.tmp == s.tmp)
    ensures Inv(c, s')
  {
    forall r | r in s'.procs ensures PcInv(c, s', s'.procs[r]) {
      if r != p {
        assert PcInv(c, s, s.procs[r]);
        assert s.lock == Some(p) ==> !s.procs[r].Holds();
      }
    }
  }

  lemma SameLedger(c: Codec, s: State, s': State)
    requires LedgerInv(c, s) && s'.log == s.log && s'.ledger == s.ledger && s'.appends == s.appends
    ensures LedgerInv(c, s')
  {
  }

  /** A step outside the critical section. */
  lemma OutsideInv(c: Codec, s: State, p: Pid, pc: Pc)
    requires Inv(c, s) && p in s.procs && !s.procs[p].Holds() && !s.procs[p].Crashed?
    requires !pc.Holds() && PcInv(c, s, pc)
    ensures Inv(c, Goto(s, p, pc))
  {
    var s' := Goto(s, p, pc);
    assert s.lock != Some(p);
    SameLedger(c, s, s');
    Keeps(c, s, s', p, pc);
  }

  lemma BeginInv(c: Codec, s: State, p: Pid, pc: Pc)
    requires Inv(c, s) && p in s.procs && (pc.AppendWaits? || pc.CompactWaits?) && PcInv(c, s, pc)
    ensures Inv(c, Begin(s, p, pc))
  {
    if s.procs[p].Idle? {
      OutsideInv(c, s, p, pc);
    }
  }

  lemma GiveUpInv(c: Codec, s: State, p: Pid)
    requires Inv(c, s) && p in s.procs
    ensures Inv(c, DoGiveUp(s, p))
  {
    if s.procs[p].AppendWaits? || s.procs[p].CompactWaits? {
      OutsideInv(c, s, p, Idle);
    }
  }

  lemma TakenLock(s: State, p: Pid, pc: Pc)
    requires LockInv(s) && s.lock == None && p in s.procs && pc.Holds()
    ensures LockInv(Goto(s, p, pc).(lock := Some(p)))
  {
  }

  lemma TakeLockInv(c: Codec, s: State, p: Pid)
    requires Inv(c, s) && p in s.procs
    ensures Inv(c, DoTakeLock(s, p))
  {
    var s' := DoTakeLock(s, p);
    if s.lock == None && (s.procs[p].AppendWaits? || s.procs[p].CompactWaits?) {
      var pc := s'.procs[p];
      TakenLock(s, p, pc);
      assert PcInv(c, s', pc) by { assert PcInv(c, s, s.procs[p]); }
      SameLedger(c, s, s');
      AckKept(c, s, s');
      Keeps(c, s, s', p, pc);
    }
  }

  /** A step inside the critical section that stays inside and touches no log. */
  lemma InsideInv(c: Codec, s: State, s': State, p: Pid, pc: Pc)
    requires Inv(c, s) && p in s.procs && s.procs[p].Holds() && (pc.Holds() || pc.Crashed?) && !pc.AppendWrote?
    requires s' == s.(procs := s.procs[p := pc], tmp := s'.tmp)
    requires PcInv(c, s', pc)
    ensures Inv(c, s')
  {
    assert s.lock == Some(p);
    HeldLock(s, s', p, pc);
    SameLedger(c, s, s');
    assert AckInv(c, s');
    Keeps(c, s, s', p, pc);
  }

  lemma HeldLock(s: State, s': State, p: Pid, pc: Pc)
    requires LockInv(s) && p in s.procs && s.lock == Some(p) && (pc.Holds() || pc.Crashed?)
    requires s'.procs == s.procs[p := pc] && s'.lock == s.lock
    ensures LockInv(s')
  {
  }

  lemma WriteAck(c: Codec, s: State, s': State, line: string)
    requires AckInv(c, s) && Pending(c, s) == multiset{} && Pending(c, s') == multiset{line}
    requires s'.acked == s.acked && s'.appends == s.appends + [line]
    ensures AckInv(c, s')
  {
    MultisetSnoc(s.appends, line);
  }

  lemma WriteInv(c: Codec, s: State, p: Pid)
    requires Lawful(c) && Inv(c, s) && p in s.procs
    ensures Inv(c, DoWrite(c, s, p))
  {
    var s' := DoWrite(c, s, p);
    if s.procs[p].AppendHolds? {
      var e := s.procs[p].event;
      assert s.lock == Some(p);
      HeldLock(s, s', p, AppendWrote(e));
      assert LedgerInv(c, s') by {
        assert PcInv(c, s, s.procs[p]);
        AppendLedger(c, s, e);
      }
      WriteAck(c, s, s', c.encode(e));
      Keeps(c, s, s', p, AppendWrote(e));
    }
  }

  lemma WriteTmpInv(c: Codec, s: State, p: Pid)
    requires Inv(c, s) && p in s.procs
    ensures Inv(c, DoWriteTmp(c, s, p))
  {
    if s.procs[p].CompactRead? {
      var s' := DoWriteTmp(c, s, p);
      assert PcInv(c, s, s.procs[p]);
      InsideInv(c, s, s', p, s'.procs[p]);
    }
  }

  /** A step that ends the holder's pending append, or had none, keeps the acknowledgements right. */
  lemma AckKept(c: Codec, s: State, s': State)
    requires AckInv(c, s) && s'.appends == s.appends
    requires s'.acked + Pending(c, s') == s.acked + Pending(c, s)
    ensures AckInv(c, s')
  {
  }

  /** The temp file of a process about to rename holds the plan for the log as it is. */
  lemma TmpIsPlanned(c: Codec, s: State, p: Pid, q: Request, text: string)
    requires Inv(c, s) && p in s.procs && s.procs[p] == CompactTmp(q, text)
    ensures s.lock == Some(p) && s.log == Some(text) && PlanOf(c, q, text).Rewrite?
    ensures s.tmp == Some(PlanOf(c, q, text).newText)
  {
    assert PcInv(c, s, s.procs[p]);
  }

  lemma RenameInv(c: Codec, s: State, p: Pid)
    requires Lawful(c) && Inv(c, s) && p in s.procs
    ensures Inv(c, DoRename(c, s, p))
  {
    if s.procs[p].CompactTmp? {
      var q, text := s.procs[p].q, s.procs[p].text;
      TmpIsPlanned(c, s, p, q, text);
      RenamePlanned(c, s, p, q, text, PlanOf(c, q, text));
    }
  }

  lemma RenamePlanned(c: Codec, s: State, p: Pid, q: Request, text: string, plan: Plan)
    requires Lawful(c) && Inv(c, s) && p in s.procs && s.procs[p] == CompactTmp(q, text)
    requires plan == PlanOf(c, q, text) && plan.Rewrite?
    requires s.lock == Some(p) && s.log == Some(text) && s.tmp == Some(plan.newText)
    ensures Inv(c, DoRename(c, s, p))
  {
    var ledger := CompactLedger(c, q, plan.summary, s.ledger);
    assert LedgerInv(c, s.(log := s.tmp, ledger := ledger)) by {
      CompactLedgerInv(c, s, q, text, plan.summary, plan.newText);
    }
    RenamedInv(c, s, DoRename(c, s, p), p, ledger);
  }

  lemma RenamedInv(c: Codec, s: State, s': State, p: Pid, ledger: seq<Entry>)
    requires Inv(c, s) && s.lock == Some(p) && p in s.procs && s.procs[p].CompactTmp?
    requires s' == s.(procs := s.procs[p := Leaves], log := s.tmp, tmp := None, ledger := ledger)
    requires LedgerInv(c, s.(log := s.tmp, ledger := ledger))
    ensures Inv(c, s')
  {
    HeldLock(s, s', p, Leaves);
    SameLedger(c, s.(log := s.tmp, ledger := ledger), s');
    AckKept(c, s, s');
    Keeps(c, s, s', p, Leaves);
  }

  lemma ReleaseLock(s: State, s': State, p: Pid)
    requires LockInv(s) && s.lock == Some(p) && p in s.procs
    requires s'.procs == s.procs[p := Idle] && s'.lock == None
    ensures LockInv(s')
  {
  }

  lemma ReleasedInv(c: Codec, s: State, p: Pid, acked: multiset<string>)
    requires Inv(c, s) && p in s.procs && s.procs[p].Holds() && acked == s.acked + Pending(c, s)
    ensures Inv(c, Goto(s, p, Idle).(lock := None, acked := acked))
  {
    var s' := Goto(s, p, Idle).(lock := None, acked := acked);
    assert s.lock == Some(p);
    ReleaseLock(s, s', p);
    assert Pending(c, s') == multiset{};
    AckKept(c, s, s');
    SameLedger(c, s, s');
    Keeps(c, s, s', p, Idle);
  }

  lemma ReleaseWrote(c: Codec, s: State, p: Pid, e: Event)
    requires Inv(c, s) && p in s.procs && s.procs[p] == AppendWrote(e)
    ensures Inv(c, Goto(s, p, Idle).(lock := None, acked := s.acked + multiset{c.encode(e)}))
  {
    assert s.lock == Some(p);
    assert Pending(c, s) == multiset{c.encode(e)};
    ReleasedInv(c, s, p, s.acked + multiset{c.encode(e)});
  }

  lemma ReleaseLeaves(c: Codec, s: State, p: Pid)
    requires Inv(c, s) && p in s.procs && s.procs[p] == Leaves
    ensures Inv(c, Goto(s, p, Idle).(lock := None))
  {
    assert s.lock == Some(p);
    assert Pending(c, s) == multiset{};
    ReleasedInv(c, s, p, s.acked);
  }

  lemma ReleaseInv(c: Codec, s: State, p: Pid)
    requires Inv(c, s) && p in s.procs
    ensures Inv(c, DoRelease(c, s, p))
  {
    match s.procs[p]
    case AppendWrote(e) => ReleaseWrote(c, s, p, e);
    case Leaves => ReleaseLeaves(c, s, p);
    case _ =>
  }

  lemma CrashInv(c: Codec, s: State, p: Pid, torn: Option<string>)
    requires Inv(c, s) && p in s.procs
    ensures Inv(c, DoCrash(s, p, torn))
  {
    var s' := DoCrash(s, p, torn);
    if s.procs[p].Holds() {
      InsideInv(c, s, s', p, Crashed);
    } else if s.procs[p] != Crashed {
      OutsideInv(c, s, p, Crashed);
    } else {
      assert s' == s by { assert s.procs[p := Crashed] == s.procs; }
    }
  }

  lemma StepInv(c: Codec, s: State, p: Pid, a: Action)
    requires Lawful(c) && Inv(c, s)
    ensures Inv(c, Do(c, s, p, a))
  {
    if p in s.procs {
      match a
      case TakeLock => TakeLockInv(c, s, p);
      case GiveUp => GiveUpInv(c, s, p);
      case Write => WriteInv(c, s, p);
      case ReadLog => ReadLogInv(c, s, p);
      case WriteTmp => WriteTmpInv(c, s, p);
      case Rename => RenameInv(c, s, p);
      case Fail(leftover) => FailInv(c, s, p, leftover);
      case Release => ReleaseInv(c, s, p);
      case Crash(torn) => CrashInv(c, s, p, torn);
      case _ => StartInv(c, s, p, a);
    }
  }

  lemma StartInv(c: Codec, s: State, p: Pid, a: Action)
    requires Inv(c, s) && p in s.procs && (a.StartAppend? || a.StartCompact?)
    ensures Inv(c, Do(c, s, p, a))
  {
    match a
    case StartAppend(e) => if ValidEvent(e) { BeginInv(c, s, p, AppendWaits(e)); }
    case StartCompact(q) => if ValidRequest(c, q) { BeginInv(c, s, p, CompactWaits(q)); }
  }

  lemma ReadLogInv(c: Codec, s: State, p: Pid)
    requires Inv(c, s) && p in s.procs
    ensures Inv(c, DoReadLog(s, p))
  {
    if s.procs[p].CompactHolds? {
      var s' := DoReadLog(s, p);
      assert PcInv(c, s, s.procs[p]);
      InsideInv(c, s, s', p, s'.procs[p]);
    }
  }

  lemma FailInv(c: Codec, s: State, p: Pid, leftover: Option<string>)
    requires Inv(c, s) && p in s.procs
    ensures Inv(c, DoFail(s, p, leftover))
  {
    var s' := DoFail(s, p, leftover);
    var pc := s.procs[p];
    if pc.AppendHolds? || pc.CompactHolds? || pc.CompactRead? || pc.CompactTmp? {
      InsideInv(c, s, s', p, Leaves);
    }
  }

  lemma {:induction false} RunInv(c: Codec, s: State, steps: seq<Step>)
    requires Lawful(c) && Inv(c, s)
    ensures Inv(c, Run(c, s, steps))
  {
    if steps != [] {
      var last := steps[|steps| - 1];
      RunInv(c, s, steps[..|steps| - 1]);
      StepInv(c, Run(c, s, steps[..|steps| - 1]), last.pid, last.action);
    }
  }

  // ------------------------------------------------------------------ what readers and callers may rely on

  /** The line is in the log byte for byte, or its hash is in a TERMINAL summary in the log. */
  ghost predicate Accounted(c: Codec, lines: seq<string>, line: string) {
    || line in lines
    || exists l, h :: l in lines && c.decode(l).Good? && c.decode(l).event.Terminal?
                      && h in c.decode(l).event.contentHashes && h.sha256 == c.sha(line)
  }

  lemma {:induction false} InAllLines(ledger: seq<Entry>, line: string) returns (i: nat)
    requires line in AllLines(ledger)
    ensures i < |ledger|
    ensures ledger[i] == Appended(line) || (ledger[i].Summarised? && line in ledger[i].lines)
  {
    var k := |ledger| - 1;
    if line in AllLines(ledger[..k]) {
      i := InAllLines(ledger[..k], line);
    } else {
      i := k;
    }
  }

  lemma LedgerAccounts(c: Codec, s: State, line: string)
    requires LedgerInv(c, s) && line in multiset(s.appends)
    ensures Accounted(c, LogLines(s.log.GetOr("")), line)
  {
    LedgerLinesNewlineFree(c, s);
    assert line in multiset(AllLines(s.ledger));
    var i := InAllLines(s.ledger, line);
    var l := LedgerLines(s.ledger)[i];
    assert l in LedgerLines(s.ledger) && EntryInv(c, s.ledger[i]);
    if s.ledger[i].Summarised? {
      var k :| 0 <= k < |s.ledger[i].lines| && s.ledger[i].lines[k] == line;
      var hashes := c.decode(l).event.contentHashes;
      assert Map(hashes, ShaOf())[k] == Map(s.ledger[i].lines, c.sha)[k];
      assert hashes[k] in hashes && hashes[k].sha256 == c.sha(line);
    }
  }

  /** No append is lost: in every interleaving of appenders and compactors, with failures and
      crashes at any step, a line whose append returned ok is in the log or hashed in it. */
  lemma NoAppendIsLost(c: Codec, s: State, steps: seq<Step>)
    requires Lawful(c) && Initial(c, s)
    ensures var end := Run(c, s, steps);
            forall line :: line in end.acked ==> Accounted(c, LogLines(end.log.GetOr("")), line)
  {
    var end := Run(c, s, steps);
    InitialInv(c, s);
    RunInv(c, s, steps);
    forall line | line in end.acked ensures Accounted(c, LogLines(end.log.GetOr("")), line) {
      LedgerAccounts(c, end, line);
    }
  }

  predicate IsTerminalLine(c: Codec, line: string) {
    c.decode(line).Good? && c.decode(line).event.Terminal?
  }

  ghost predicate NoTerminal(c: Codec, lines: seq<string>) {
    forall line :: line in lines ==> !IsTerminalLine(c, line)
  }

  /** No TERMINAL line has been replaced by a summary. */
  ghost predicate NoTerminalBehind(c: Codec, ledger: seq<Entry>) {
    forall i :: 0 <= i < |ledger| && ledger[i].Summarised? ==> NoTerminal(c, ledger[i].lines)
  }

  lemma ReplacedAreNotTerminal(c: Codec, q: Request, ledger: seq<Entry>)
    ensures NoTerminal(c, LedgerLines(Filter(ledger, OldEntry(c, q))))
  {
    var old_ := Filter(ledger, OldEntry(c, q));
    FilterMembers(ledger, OldEntry(c, q));
    forall line | line in LedgerLines(old_) ensures !IsTerminalLine(c, line) {
      var i :| 0 <= i < |old_| && LedgerLines(old_)[i] == line;
      assert old_[i] in old_;
    }
  }

  lemma CompactedNoTerminal(c: Codec, q: Request, summary: Event, ledger: seq<Entry>)
    requires NoTerminalBehind(c, ledger)
    ensures NoTerminalBehind(c, CompactLedger(c, q, summary, ledger))
  {
    var live := Filter(ledger, LiveEntry(c, q));
    FilterMembers(ledger, LiveEntry(c, q));
    ReplacedAreNotTerminal(c, q, ledger);
    forall i | 0 <= i < |live| && live[i].Summarised? ensures NoTerminal(c, live[i].lines) {
      assert live[i] in live;
    }
  }

  lemma StepNoTerminal(c: Codec, s: State, p: Pid, a: Action)
    requires NoTerminalBehind(c, s.ledger)
    ensures NoTerminalBehind(c, Do(c, s, p, a).ledger)
  {
    if p in s.procs && a.Rename? && s.procs[p].CompactTmp? {
      var plan := PlanOf(c, s.procs[p].q, s.procs[p].text);
      if plan.Rewrite? {
        CompactedNoTerminal(c, s.procs[p].q, plan.summary, s.ledger);
      }
    }
  }

  lemma {:induction false} RunNoTerminal(c: Codec, s: State, steps: seq<Step>)
    requires NoTerminalBehind(c, s.ledger)
    ensures NoTerminalBehind(c, Run(c, s, steps).ledger)
  {
    if steps != [] {
      RunNoTerminal(c, s, steps[..|steps| - 1]);
      StepNoTerminal(c, Run(c, s, steps[..|steps| - 1]), steps[|steps| - 1].pid, steps[|steps| - 1].action);
    }
  }

  lemma LedgerKeepsTerminal(c: Codec, s: State, line: string)
    requires LedgerInv(c, s) && NoTerminalBehind(c, s.ledger)
    requires line in multiset(s.appends) && IsTerminalLine(c, line)
    ensures line in LogLines(s.log.GetOr(""))
  {
    LedgerLinesNewlineFree(c, s);
    assert line in multiset(AllLines(s.ledger));
    var i := InAllLines(s.ledger, line);
    assert LedgerLines(s.ledger)[i] == s.ledger[i].line;
  }

  /** The outcomes are never compacted away: in every interleaving, with failures and crashes, an
      acknowledged line that records a TERMINAL event is itself still in the log, byte for byte. */
  lemma TerminalLinesStay(c: Codec, s: State, steps: seq<Step>)
    requires Lawful(c) && Initial(c, s)
    ensures var end := Run(c, s, steps);
            forall line :: line in end.acked && IsTerminalLine(c, line) ==> line in LogLines(end.log.GetOr(""))
  {
    var end := Run(c, s, steps);
    InitialInv(c, s);
    RunInv(c, s, steps);
    RunNoTerminal(c, s, steps);
    forall line | line in end.acked && IsTerminalLine(c, line) ensures line in LogLines(end.log.GetOr("")) {
      LedgerKeepsTerminal(c, end, line);
    }
  }

  /** Exact accounting: the log's lines are the ledger's, each compaction's summary carries the
      hashes of exactly the lines it replaced, and live plus replaced lines are, with
      multiplicity, the lines ever appended, which include every acknowledged one. */
  lemma EveryAppendCountedOnce(c: Codec, s: State, steps: seq<Step>)
    requires Lawful(c) && Initial(c, s)
    ensures var end := Run(c, s, steps);
            && LogLines(end.log.GetOr("")) == LedgerLines(end.ledger)
            && (forall i :: 0 <= i < |end.ledger| && end.ledger[i].Summarised? ==>
                  && c.decode(end.ledger[i].line).Good?
                  && c.decode(end.ledger[i].line).event.Terminal?
                  && Map(c.decode(end.ledger[i].line).event.contentHashes, ShaOf()) == Map(end.ledger[i].lines, c.sha))
            && multiset(AllLines(end.ledger)) == multiset(end.appends)
            && end.acked <= multiset(end.appends)
  {
    var end := Run(c, s, steps);
    InitialInv(c, s);
    RunInv(c, s, steps);
    LedgerLinesNewlineFree(c, end);
    forall i | 0 <= i < |end.ledger| && end.ledger[i].Summarised?
      ensures EntryInv(c, end.ledger[i])
    {
    }
  }

  function IsAppended(): Entry -> bool {
    (e: Entry) => e.Appended?
  }

  /** The appended lines that no summary has replaced, in log order. */
  function LiveLines(ledger: seq<Entry>): seq<string> {
    LedgerLines(Filter(ledger, IsAppended()))
  }

  lemma LiveLinesSnoc(ledger: seq<Entry>, e: Entry)
    ensures LiveLines(ledger + [e]) == LiveLines(ledger) + if e.Appended? then [e.line] else []
  {
    FilterSnoc(ledger, e, IsAppended());
    if e.Appended? {
      MapSnoc(Filter(ledger, IsAppended()), e, LineOf());
    }
  }

  lemma {:induction false} FilteredLiveLines(ledger: seq<Entry>, keep: Entry -> bool)
    ensures Subsequence(LiveLines(Filter(ledger, keep)), LiveLines(ledger))
  {
    if ledger != [] {
      var init, last := ledger[..|ledger| - 1], ledger[|ledger| - 1];
      var kept, all := LiveLines(Filter(init, keep)), LiveLines(init);
      FilteredLiveLines(init, keep);
      assert ledger == init + [last] && all + [] == all;
      LiveLinesSnoc(init, last);
      SubsequenceSnoc(kept, all, last.line);
      if keep(last) {
        LiveLinesSnoc(Filter(init, keep), last);
        assert kept + [] == kept;
      } else {
        assert Filter(ledger, keep) == Filter(init, keep);
      }
    }
  }

  lemma CompactKeepsOrder(c: Codec, q: Request, summary: Event, ledger: seq<Entry>, appends: seq<string>)
    requires Subsequence(LiveLines(ledger), appends)
    ensures Subsequence(LiveLines(CompactLedger(c, q, summary, ledger)), appends)
  {
    var live := Filter(ledger, LiveEntry(c, q));
    LiveLinesSnoc(live, Summarised(c.encode(summary), LedgerLines(Filter(ledger, OldEntry(c, q)))));
    assert LiveLines(live) + [] == LiveLines(live);
    FilteredLiveLines(ledger, LiveEntry(c, q));
    SubsequenceTransitive(LiveLines(live), LiveLines(ledger), appends);
  }

  lemma WriteKeepsOrder(ledger: seq<Entry>, appends: seq<string>, line: string)
    requires Subsequence(LiveLines(ledger), appends)
    ensures Subsequence(LiveLines(ledger + [Appended(line)]), appends + [line])
  {
    LiveLinesSnoc(ledger, Appended(line));
    SubsequenceSnoc(LiveLines(ledger), appends, line);
  }

  lemma StepKeepsOrder(c: Codec, s: State, p: Pid, a: Action)
    requires Subsequence(LiveLines(s.ledger), s.appends)
    ensures Subsequence(LiveLines(Do(c, s, p, a).ledger), Do(c, s, p, a).appends)
  {
    if p in s.procs {
      match a
      case Write =>
        if s.procs[p].AppendHolds? {
          WriteKeepsOrder(s.ledger, s.appends, c.encode(s.procs[p].event));
        }
      case Rename =>
        if s.procs[p].CompactTmp? {
          var q := s.procs[p].q;
          var plan := PlanOf(c, q, s.procs[p].text);
          if plan.Rewrite? {
            CompactKeepsOrder(c, q, plan.summary, s.ledger, s.appends);
          }
        }
      case _ =>
    }
  }

  lemma {:induction false} RunKeepsOrder(c: Codec, s: State, steps: seq<Step>)
    requires Subsequence(LiveLines(s.ledger), s.appends)
    ensures Subsequence(LiveLines(Run(c, s, steps).ledger), Run(c, s, steps).appends)
  {
    if steps != [] {
      RunKeepsOrder(c, s, steps[..|steps| - 1]);
      StepKeepsOrder(c, Run(c, s, steps[..|steps| - 1]), steps[|steps| - 1].pid, steps[|steps| - 1].action);
    }
  }

  lemma NoneReplacedYet(ledger: seq<Entry>, lines: seq<string>)
    requires ledger == Map(lines, AppendedEntry())
    ensures Subsequence(LiveLines(ledger), lines)
  {
    AllLinesOfAppended(lines);
    FilterAll(ledger, IsAppended());
    SubsequenceOfItself(lines);
  }

  /** The log keeps the order of the appends: in every interleaving, with failures and crashes, the
      lines of the log that are not summaries are the appends less the replaced ones, in the order
      in which they were appended. */
  lemma AppendOrderKept(c: Codec, s: State, steps: seq<Step>)
    requires Lawful(c) && Initial(c, s)
    ensures var end := Run(c, s, steps);
            && LogLines(end.log.GetOr("")) == LedgerLines(end.ledger)
            && Subsequence(LiveLines(end.ledger), end.appends)
  {
    EveryAppendCountedOnce(c, s, steps);
    NoneReplacedYet(s.ledger, s.appends);
    RunKeepsOrder(c, s, steps);
  }

  /** At most one process is inside the critical section. */
  ghost predicate OneHolder(s: State) {
    forall p, q :: p in s.procs && q in s.procs && s.procs[p].Holds() && s.procs[q].Holds() ==> p == q
  }

  /** Mutual exclusion, and a reader that takes no lock never meets a torn or corrupt log. */
  lemma ExclusiveAndReadable(c: Codec, s: State, steps: seq<Step>)
    requires Lawful(c) && Initial(c, s)
    ensures var end := Run(c, s, steps);
            && OneHolder(end)
            && ReadText(c, end.log.GetOr("")).Events?
            && WellFormed(end.log.GetOr(""))
  {
    var end := Run(c, s, steps);
    InitialInv(c, s);
    RunInv(c, s, steps);
    LedgerLinesNewlineFree(c, end);
    var lines := LedgerLines(end.ledger);
    forall l | l in lines ensures c.decode(l).Good? {
      var i :| 0 <= i < |lines| && lines[i] == l;
      assert EntryInv(c, end.ledger[i]);
    }
    FaultsMeanUnreadable(c, lines);
  }

  lemma DeadHolderBlocksStep(c: Codec, s: State, dead: Pid, p: Pid, a: Action)
    requires LockInv(s) && s.lock == Some(dead) && dead in s.procs && s.procs[dead] == Crashed
    ensures var s' := Do(c, s, p, a);
            && s'.log == s.log && s'.lock == s.lock && s'.ledger == s.ledger && s'.acked == s.acked
            && dead in s'.procs && s'.procs[dead] == Crashed && LockInv(s')
  {
    if p in s.procs {
      assert !s.procs[p].Holds();
    }
  }

  /** A process that dies holding the lock only blocks: log and lock never change again. */
  lemma {:induction false} DeadHolderOnlyBlocks(c: Codec, s: State, dead: Pid, steps: seq<Step>)
    requires LockInv(s) && s.lock == Some(dead) && dead in s.procs && s.procs[dead] == Crashed
    ensures var end := Run(c, s, steps);
            && end.log == s.log && end.lock == s.lock && end.ledger == s.ledger && end.acked == s.acked
            && dead in end.procs && end.procs[dead] == Crashed && LockInv(end)
  {
    if steps != [] {
      var before, last := steps[..|steps| - 1], steps[|steps| - 1];
      DeadHolderOnlyBlocks(c, s, dead, before);
      DeadHolderBlocksStep(c, Run(c, s, before), dead, last.pid, last.action);
    }
  }

  // ------------------------------------------------------------------ what one process gets done

  /** `steps` are steps of `p` alone. */
  ghost predicate ByItself(p: Pid, steps: seq<Step>) {
    forall i :: 0 <= i < |steps| ==> steps[i].pid == p
  }

  lemma OneMore(c: Codec, s: State, steps: seq<Step>, p: Pid, a: Action) returns (more: seq<Step>)
    requires ByItself(p, steps)
    ensures ByItself(p, more) && Run(c, s, more) == Do(c, Run(c, s, steps), p, a)
  {
    more := steps + [Step(p, a)];
    assert more[..|steps|] == steps;
  }

  lemma AppendBegins(c: Codec, s: State, p: Pid, e: Event)
    requires p in s.procs && s.procs[p].Idle? && s.lock == None && ValidEvent(e)
    ensures Do(c, Do(c, s, p, StartAppend(e)), p, TakeLock) ==
            s.(procs := s.procs[p := AppendHolds(e)], lock := Some(p))
  {
    assert s.procs[p := AppendWaits(e)][p := AppendHolds(e)] == s.procs[p := AppendHolds(e)];
  }

  lemma AppendEnds(c: Codec, s: State, procs: map<Pid, Pc>, p: Pid, e: Event)
    requires p in procs && procs[p] == Idle && s.procs == procs[p := AppendHolds(e)]
    ensures var line := c.encode(e);
            Do(c, Do(c, s, p, Write), p, Release) ==
            s.(procs := procs, lock := None, log := Some(s.log.GetOr("") + line + "\n"),
               ledger := s.ledger + [Appended(line)], appends := s.appends + [line], acked := s.acked + multiset{line})
  {
    assert procs[p := AppendHolds(e)][p := AppendWrote(e)][p := Idle] == procs;
  }

  /** An append that meets nobody adds its line, is acknowledged and leaves everything else as it was. */
  lemma UndisturbedAppend(c: Codec, s: State, p: Pid, e: Event) returns (steps: seq<Step>)
    requires p in s.procs && s.procs[p].Idle? && s.lock == None && ValidEvent(e)
    ensures ByItself(p, steps)
    ensures var line := c.encode(e);
            Run(c, s, steps) ==
            s.(log := Some(s.log.GetOr("") + line + "\n"), ledger := s.ledger + [Appended(line)],
               appends := s.appends + [line], acked := s.acked + multiset{line})
  {
    steps := OneMore(c, s, [], p, StartAppend(e));
    steps := OneMore(c, s, steps, p, TakeLock);
    AppendBegins(c, s, p, e);
    var held := Run(c, s, steps);
    steps := OneMore(c, s, steps, p, Write);
    steps := OneMore(c, s, steps, p, Release);
    AppendEnds(c, held, s.procs, p, e);
  }

  lemma CompactBegins(c: Codec, s: State, p: Pid, q: Request)
    requires p in s.procs && s.procs[p].Idle? && s.lock == None && ValidRequest(c, q)
    ensures Do(c, Do(c, s, p, StartCompact(q)), p, TakeLock) ==
            s.(procs := s.procs[p := CompactHolds(q)], lock := Some(p))
  {
    assert s.procs[p := CompactWaits(q)][p := CompactHolds(q)] == s.procs[p := CompactHolds(q)];
  }

  /** The state with the planned text in place of the log, or as it is if there is no such plan. */
  function Replaced(c: Codec, s: State, q: Request, plan: Plan): State {
    if s.log.Some? && plan.Rewrite? then
      s.(log := Some(plan.newText), tmp := None, ledger := CompactLedger(c, q, plan.summary, s.ledger))
    else s
  }

  lemma GoesOn(s: State, procs: map<Pid, Pc>, p: Pid, before: Pc, after: Pc)
    requires s.procs == procs[p := before]
    ensures Goto(s, p, after) == s.(procs := procs[p := after])
  {
    assert procs[p := before][p := after] == procs[p := after];
  }

  lemma ReadsFirst(c: Codec, s: State, procs: map<Pid, Pc>, p: Pid, q: Request)
    requires p in procs && s.procs == procs[p := CompactHolds(q)]
    ensures Do(c, s, p, ReadLog) ==
            s.(procs := procs[p := if s.log.Some? then CompactRead(q, s.log.value) else Leaves])
  {
    GoesOn(s, procs, p, CompactHolds(q), if s.log.Some? then CompactRead(q, s.log.value) else Leaves);
  }

  lemma WritesNext(c: Codec, s: State, procs: map<Pid, Pc>, p: Pid, q: Request, text: string, plan: Plan)
    requires p in procs && s.procs == procs[p := CompactRead(q, text)] && plan == PlanOf(c, q, text)
    ensures Do(c, s, p, WriteTmp) ==
            if plan.Rewrite? then s.(procs := procs[p := CompactTmp(q, text)], tmp := Some(plan.newText))
            else s.(procs := procs[p := Leaves])
  {
    GoesOn(s, procs, p, CompactRead(q, text), if plan.Rewrite? then CompactTmp(q, text) else Leaves);
  }

  lemma RenamePlan(c: Codec, s: State, p: Pid, q: Request, text: string, plan: Plan, ledger: seq<Entry>)
    requires p in s.procs && s.procs[p] == CompactTmp(q, text) && plan == PlanOf(c, q, text) && plan.Rewrite?
    requires ledger == CompactLedger(c, q, plan.summary, s.ledger)
    ensures DoRename(c, s, p) == Goto(s, p, Leaves).(log := s.tmp, tmp := None, ledger := ledger)
  {
  }

  lemma DoesRename(c: Codec, s: State, p: Pid)
    requires p in s.procs
    ensures Do(c, s, p, Action.Rename) == DoRename(c, s, p)
  {
  }

  lemma RenamesLast(
    c: Codec, s: State, procs: map<Pid, Pc>, p: Pid, q: Request, text: string, plan: Plan, ledger: seq<Entry>)
    requires p in procs && s.procs == procs[p := CompactTmp(q, text)] && plan == PlanOf(c, q, text) && plan.Rewrite?
    requires ledger == CompactLedger(c, q, plan.summary, s.ledger)
    ensures DoRename(c, s, p) == s.(procs := procs[p := Leaves], log := s.tmp, tmp := None, ledger := ledger)
  {
    RenamePlan(c, s, p, q, text, plan, ledger);
    GoesOn(s, procs, p, CompactTmp(q, text), Leaves);
  }

  lemma NothingToDo(c: Codec, s: State, procs: map<Pid, Pc>, p: Pid)
    requires p in procs && s.procs == procs[p := Leaves]
    ensures Do(c, s, p, WriteTmp) == s && Do(c, s, p, Action.Rename) == s
  {
  }

  lemma CompactRuns(c: Codec, s: State, procs: map<Pid, Pc>, p: Pid, q: Request, plan: Plan)
    requires p in procs && s.procs == procs[p := CompactHolds(q)] && plan == PlanOf(c, q, s.log.GetOr(""))
    ensures Do(c, Do(c, Do(c, s, p, ReadLog), p, WriteTmp), p, Action.Rename) ==
            Replaced(c, s, q, plan).(procs := procs[p := Leaves])
  {
    ReadsFirst(c, s, procs, p, q);
    var read := Do(c, s, p, ReadLog);
    if s.log == None {
      NothingToDo(c, read, procs, p);
    } else {
      WritesNext(c, read, procs, p, q, s.log.value, plan);
      var written := Do(c, read, p, WriteTmp);
      if plan.Rewrite? {
        DoesRename(c, written, p);
        RenamesLast(c, written, procs, p, q, s.log.value, plan, CompactLedger(c, q, plan.summary, s.ledger));
      } else {
        NothingToDo(c, written, procs, p);
      }
    }
  }

  lemma Releases(c: Codec, s: State, procs: map<Pid, Pc>, p: Pid)
    requires p in procs && procs[p] == Idle && s.procs == procs[p := Leaves]
    ensures Do(c, s, p, Release) == s.(procs := procs, lock := None)
  {
    assert procs[p := Leaves][p := Idle] == procs;
  }

  lemma SixSteps(c: Codec, s: State, p: Pid, q: Request, held: State) returns (steps: seq<Step>)
    requires held == Do(c, Do(c, s, p, StartCompact(q)), p, TakeLock)
    ensures ByItself(p, steps)
    ensures Run(c, s, steps) == Do(c, Do(c, Do(c, Do(c, held, p, ReadLog), p, WriteTmp), p, Action.Rename), p, Release)
  {
    steps := OneMore(c, s, [], p, StartCompact(q));
    steps := OneMore(c, s, steps, p, TakeLock);
    steps := OneMore(c, s, steps, p, ReadLog);
    steps := OneMore(c, s, steps, p, WriteTmp);
    steps := OneMore(c, s, steps, p, Action.Rename);
    steps := OneMore(c, s, steps, p, Release);
  }

  /** A compaction that meets nobody puts the planned text in place of the log, or leaves everything
      as it was if there is nothing old, nothing readable or no log. */
  lemma UndisturbedCompaction(c: Codec, s: State, p: Pid, q: Request, plan: Plan) returns (steps: seq<Step>)
    requires p in s.procs && s.procs[p].Idle? && s.lock == None && ValidRequest(c, q)
    requires plan == PlanOf(c, q, s.log.GetOr(""))
    ensures ByItself(p, steps) && Run(c, s, steps) == Replaced(c, s, q, plan)
  {
    CompactBegins(c, s, p, q);
    var held := s.(procs := s.procs[p := CompactHolds(q)], lock := Some(p));
    steps := SixSteps(c, s, p, q, held);
    CompactRuns(c, held, s.procs, p, q, plan);
    Releases(c, Replaced(c, held, q, plan).(procs := s.procs[p := Leaves]), s.procs, p);
  }
}
