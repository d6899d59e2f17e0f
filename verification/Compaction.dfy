// Proof-TTL compaction (src/protocol/event-registry/compact.ts): old lines are replaced by one
// TERMINAL summary that carries their hashes. Days and cutoffs are real numbers, because a TTL
// may be any positive number of days; event instants are whole milliseconds.

module Compaction {
  import opened Wrappers
  import opened Events
  import opened Sequences
  import opened Log

  const DAY_MS: real := 86400000.0

  datatype Policy = Policy(ttlDays: real, byClass: map<EventClass, real>)

  /** The evaluation instant as given and as parsed. */
  datatype Instant = Instant(text: string, ms: int)

  /** One compaction request: everything but the log. */
  datatype Request = Request(scope: string, now: Instant, policy: Policy)

  /** The argument checks of compactRegistryEvents. */
  predicate ValidRequest(c: Codec, q: Request) {
    && SafeScope(q.scope)
    && c.dateMs(q.now.text) == Some(q.now.ms)
    && q.policy.ttlDays > 0.0
    && forall k :: k in q.policy.byClass ==> q.policy.byClass[k] > 0.0
  }

  function Ttl(p: Policy, class_: EventClass): real {
    if class_ in p.byClass then p.byClass[class_] else p.ttlDays
  }

  /** TERMINAL events never compact; any other goes once strictly older than its cutoff. */
  predicate Old(c: Codec, p: Policy, nowMs: int, e: Event) {
    && e.Class() != TERMINAL
    && c.dateMs(e.ts).Some?
    && c.dateMs(e.ts).value as real < nowMs as real - Ttl(p, e.Class()) * DAY_MS
  }

  predicate OldLine(c: Codec, p: Policy, nowMs: int, line: string) {
    c.decode(line).Good? && Old(c, p, nowMs, c.decode(line).event)
  }

  function Expired(c: Codec, p: Policy, nowMs: int): string -> bool {
    (line: string) => OldLine(c, p, nowMs, line)
  }

  function Surviving(c: Codec, p: Policy, nowMs: int): string -> bool {
    (line: string) => !OldLine(c, p, nowMs, line)
  }

  function SurvivingEvent(c: Codec, p: Policy, nowMs: int): Event -> bool {
    (e: Event) => !Old(c, p, nowMs, e)
  }

  function Kept(c: Codec, p: Policy, nowMs: int, lines: seq<string>): seq<string> {
    Filter(lines, Surviving(c, p, nowMs))
  }

  function Removed(c: Codec, p: Policy, nowMs: int, lines: seq<string>): seq<string> {
    Filter(lines, Expired(c, p, nowMs))
  }

  // ------------------------------------------------------------------ the plan

  function LineFault(c: Codec, lineNo: nat, line: string): seq<Fault> {
    match c.decode(line)
    case NotJson => [Fault(lineNo, "corrupt_line")]
    case BadShape => [Fault(lineNo, "invalid_event_shape")]
    case Good(e) => if c.dateMs(e.ts) == None then [Fault(lineNo, "unparseable_ts")] else []
  }

  function CompactFaults(c: Codec, lines: seq<string>): seq<Fault> {
    if lines == [] then []
    else CompactFaults(c, lines[..|lines| - 1]) + LineFault(c, |lines|, lines[|lines| - 1])
  }

  /** Every line is a valid event whose time stamp parses. */
  ghost predicate Datable(c: Codec, lines: seq<string>) {
    forall l :: l in lines ==> DatableLine(c, l)
  }

  ghost predicate DatableLine(c: Codec, line: string) {
    c.decode(line).Good? && c.dateMs(c.decode(line).event.ts).Some?
  }

  lemma LineFaultMeans(c: Codec, lineNo: nat, line: string)
    ensures LineFault(c, lineNo, line) == [] <==> DatableLine(c, line)
  {
  }

  lemma DatableSnoc(c: Codec, lines: seq<string>, line: string)
    ensures Datable(c, lines + [line]) <==> Datable(c, lines) && DatableLine(c, line)
  {
    assert line in lines + [line];
    assert forall l :: l in lines ==> l in lines + [line];
  }

  lemma {:induction false} FaultFreeMeansDatable(c: Codec, lines: seq<string>)
    ensures CompactFaults(c, lines) == [] <==> Datable(c, lines)
  {
    if lines != [] {
      var init, last := lines[..|lines| - 1], lines[|lines| - 1];
      FaultFreeMeansDatable(c, init);
      LineFaultMeans(c, |lines|, last);
      DatableSnoc(c, init, last);
      assert lines == init + [last];
    }
  }

  function HashLine(c: Codec): string -> ContentHash {
    (line: string) =>
      ContentHash(if c.decode(line).Good? then c.decode(line).event.eventId else "", c.sha(line))
  }

  function HashList(c: Codec, removed: seq<string>): seq<ContentHash> {
    Map(removed, HashLine(c))
  }

  function PathAndHash(): ContentHash -> string {
    (h: ContentHash) => h.path + ":" + h.sha256
  }

  function Prefix(s: string, n: nat): string {
    if |s| <= n then s else s[..n]
  }

  function Summary(c: Codec, scope: string, now: Instant, removed: seq<string>): Event {
    var hashes := HashList(c, removed);
    var chainDigest := c.sha(Join(Map(hashes, PathAndHash())));
    Terminal("evt-compaction-" + Prefix(chainDigest, 24), now.text, scope, None, TERMINAL_COMPLETED, hashes)
  }

  datatype Plan =
    | NothingOld(kept: seq<string>)
    | Rewrite(kept: seq<string>, removed: seq<string>, summary: Event, newText: string)
    | Refused(faults: seq<Fault>)

  function PlanOf(c: Codec, q: Request, text: string): Plan {
    var lines := LogLines(text);
    var faults := CompactFaults(c, lines);
    var kept := Kept(c, q.policy, q.now.ms, lines);
    var removed := Removed(c, q.policy, q.now.ms, lines);
    if faults != [] then Refused(faults)
    else if removed == [] then NothingOld(kept)
    else
      var summary := Summary(c, q.scope, q.now, removed);
      if !ValidEvent(summary) then Refused([Fault(0, "invalid_summary")])
      else Rewrite(kept, removed, summary, Join(kept + [c.encode(summary)]) + "\n")
  }

  /** planCompaction's first pass: every line must parse, validate and carry a date. */
  method FindFaults(c: Codec, lines: seq<string>) returns (faults: seq<Fault>)
    ensures faults == CompactFaults(c, lines)
  {
    faults := [];
    for i := 0 to |lines|
      invariant faults == CompactFaults(c, lines[..i])
    {
      assert lines[..i + 1][..i] == lines[..i];
      match c.decode(lines[i])
      case NotJson => faults := faults + [Fault(i + 1, "corrupt_line")];
      case BadShape => faults := faults + [Fault(i + 1, "invalid_event_shape")];
      case Good(e) =>
        if c.dateMs(e.ts) == None {
          faults := faults + [Fault(i + 1, "unparseable_ts")];
        }
    }
    assert lines[..|lines|] == lines;
  }

  /** planCompaction's second pass: split the lines at their class's cutoff. */
  method Partition(c: Codec, p: Policy, nowMs: int, lines: seq<string>)
    returns (kept: seq<string>, removed: seq<string>)
    requires Datable(c, lines)
    ensures kept == Kept(c, p, nowMs, lines)
    ensures removed == Removed(c, p, nowMs, lines)
  {
    kept, removed := [], [];
    for i := 0 to |lines|
      invariant kept == Kept(c, p, nowMs, lines[..i])
      invariant removed == Removed(c, p, nowMs, lines[..i])
    {
      assert lines[..i + 1][..i] == lines[..i];
      assert lines[i] in lines;
      var e := c.decode(lines[i]).event;
      if e.Class() == TERMINAL {
        kept := kept + [lines[i]];
        continue;
      }
      var cutoff := nowMs as real - Ttl(p, e.Class()) * DAY_MS;
      if c.dateMs(e.ts).value as real < cutoff {
        removed := removed + [lines[i]];
      } else {
        kept := kept + [lines[i]];
      }
    }
    assert lines[..|lines|] == lines;
  }

  method PlanCompaction(c: Codec, q: Request, text: string) returns (plan: Plan)
    ensures plan == PlanOf(c, q, text)
  {
    var lines := LogLines(text);
    var faults := FindFaults(c, lines);
    if faults != [] {
      return Refused(faults);
    }
    FaultFreeMeansDatable(c, lines);
    var kept, removed := Partition(c, q.policy, q.now.ms, lines);
    if removed == [] {
      return NothingOld(kept);
    }
    var summary := Summary(c, q.scope, q.now, removed);
    if !ValidEvent(summary) {
      return Refused([Fault(0, "invalid_summary")]);
    }
    return Rewrite(kept, removed, summary, Join(kept + [c.encode(summary)]) + "\n");
  }

  function OfClass(c: Codec, class_: EventClass): string -> bool {
    (line: string) => c.decode(line).Good? && c.decode(line).event.Class() == class_
  }

  /** buildReport's per-class counter. */
  method RemovedPerClass(c: Codec, removed: seq<string>) returns (counts: map<EventClass, nat>)
    requires Readable(c, removed)
    ensures forall k :: k in counts <==> Filter(removed, OfClass(c, k)) != []
    ensures forall k :: k in counts ==> counts[k] == |Filter(removed, OfClass(c, k))|
  {
    counts := map[];
    for i := 0 to |removed|
      invariant forall k :: k in counts <==> Filter(removed[..i], OfClass(c, k)) != []
      invariant forall k :: k in counts ==> counts[k] == |Filter(removed[..i], OfClass(c, k))|
    {
      var class_ := c.decode(removed[i]).event.Class();
      forall k
        ensures Filter(removed[..i + 1], OfClass(c, k)) ==
                Filter(removed[..i], OfClass(c, k)) + if k == class_ then [removed[i]] else []
      {
        assert removed[..i + 1] == removed[..i] + [removed[i]];
        FilterSnoc(removed[..i], removed[i], OfClass(c, k));
      }
      counts := counts[class_ := (if class_ in counts then counts[class_] else 0) + 1];
    }
    assert removed[..|removed|] == removed;
  }

  // ------------------------------------------------------------------ what a rewrite preserves

  /** The defensive re-validation of the summary can never fail: a compacted log stays readable. */
  lemma SummaryIsValid(c: Codec, q: Request, text: string)
    requires Lawful(c) && ValidRequest(c, q)
    ensures PlanOf(c, q, text).Refused? <==> !Datable(c, LogLines(text))
  {
    var lines := LogLines(text);
    FaultFreeMeansDatable(c, lines);
    var removed := Removed(c, q.policy, q.now.ms, lines);
    if Datable(c, lines) && removed != [] {
      FilterMembers(lines, Expired(c, q.policy, q.now.ms));
      var summary := Summary(c, q.scope, q.now, removed);
      forall h | h in summary.contentHashes
        ensures h.path != "" && h.sha256 != ""
      {
        var i :| 0 <= i < |summary.contentHashes| && summary.contentHashes[i] == h;
        assert removed[i] in removed;
        assert c.decode(removed[i]).Good?;
      }
      assert ValidEvent(summary);
    }
  }

  /** Kept events are the surviving events, in order. */
  lemma {:induction false} KeptDecodesToSurvivors(c: Codec, p: Policy, nowMs: int, lines: seq<string>)
    ensures DecodeAll(c, Kept(c, p, nowMs, lines)) == Filter(DecodeAll(c, lines), SurvivingEvent(c, p, nowMs))
  {
    if lines != [] {
      var init, last := lines[..|lines| - 1], lines[|lines| - 1];
      var tail := if OldLine(c, p, nowMs, last) then [] else [last];
      KeptDecodesToSurvivors(c, p, nowMs, init);
      DecodeConcat(c, Kept(c, p, nowMs, init), tail);
      if c.decode(last).Good? {
        assert DecodeAll(c, [last]) == [c.decode(last).event];
        FilterSnoc(DecodeAll(c, init), c.decode(last).event, SurvivingEvent(c, p, nowMs));
      } else {
        assert DecodeAll(c, [last]) == [];
        assert DecodeAll(c, lines) == DecodeAll(c, init);
      }
    }
  }

  lemma RemovedDecode(c: Codec, p: Policy, nowMs: int, lines: seq<string>)
    ensures forall i {:trigger Removed(c, p, nowMs, lines)[i]} ::
              0 <= i < |Removed(c, p, nowMs, lines)| ==> c.decode(Removed(c, p, nowMs, lines)[i]).Good?
  {
    var removed := Removed(c, p, nowMs, lines);
    FilterMembers(lines, Expired(c, p, nowMs));
    forall i | 0 <= i < |removed|
      ensures c.decode(removed[i]).Good?
    {
      assert removed[i] in removed;
    }
  }

  /** The days a class may reach: its own, or the policy's. */
  predicate DaysFor(p: Policy, class_: EventClass, days: real) {
    if class_ in p.byClass then days == p.byClass[class_] else days == p.ttlDays
  }

  /** Not a TERMINAL event, and strictly more than `days` days of 86400000 ms before `nowMs`. */
  predicate OlderThan(c: Codec, line: string, nowMs: int, days: real) {
    && c.decode(line).Good? && !c.decode(line).event.Terminal? && c.dateMs(c.decode(line).event.ts).Some?
    && (nowMs - c.dateMs(c.decode(line).event.ts).value) as real > 86400000.0 * days
  }

  /** What the plan takes out of the log, and what it leaves. */
  function TakenOut(plan: Plan): seq<string> {
    if plan.Rewrite? then plan.removed else []
  }

  function LeftIn(plan: Plan): seq<string> {
    match plan
    case Refused(_) => []
    case NothingOld(kept) => kept
    case Rewrite(kept, _, _, _) => kept
  }

  /** A line of the log goes exactly if it is older than the days of its class, whatever the other
      classes' are; at exactly that age it stays. */
  lemma CutoffIsExact(c: Codec, q: Request, text: string, line: string, days: real)
    requires !PlanOf(c, q, text).Refused? && line in LogLines(text)
    requires c.decode(line).Good? ==> DaysFor(q.policy, c.decode(line).event.Class(), days)
    ensures line in TakenOut(PlanOf(c, q, text)) <==> OlderThan(c, line, q.now.ms, days)
    ensures line in LeftIn(PlanOf(c, q, text)) <==> !OlderThan(c, line, q.now.ms, days)
  {
    FilterMembers(LogLines(text), Expired(c, q.policy, q.now.ms));
    FilterMembers(LogLines(text), Surviving(c, q.policy, q.now.ms));
    assert OldLine(c, q.policy, q.now.ms, line) <==> OlderThan(c, line, q.now.ms, days);
  }

  /** Two policies with the same days for a class treat its lines alike. */
  lemma SameDaysSameFate(c: Codec, q: Request, q': Request, text: string, line: string, days: real)
    requires !PlanOf(c, q, text).Refused? && q'.now == q.now && line in LogLines(text) && c.decode(line).Good?
    requires DaysFor(q.policy, c.decode(line).event.Class(), days)
    requires DaysFor(q'.policy, c.decode(line).event.Class(), days)
    requires !PlanOf(c, q', text).Refused?
    ensures line in TakenOut(PlanOf(c, q, text)) <==> line in TakenOut(PlanOf(c, q', text))
  {
    CutoffIsExact(c, q, text, line, days);
    CutoffIsExact(c, q', text, line, days);
  }

  lemma PartsMerge(c: Codec, p: Policy, nowMs: int, lines: seq<string>)
    ensures IsMerge(lines, Kept(c, p, nowMs, lines), Removed(c, p, nowMs, lines))
    ensures multiset(lines) == multiset(Kept(c, p, nowMs, lines)) + multiset(Removed(c, p, nowMs, lines))
  {
    FilterMerges(lines, Surviving(c, p, nowMs), Expired(c, p, nowMs));
    FilterSplitsMultiset(lines, Surviving(c, p, nowMs), Expired(c, p, nowMs));
  }

  /** The old lines are an ordered merge of the kept and the removed ones. */
  lemma RewriteConserves(c: Codec, q: Request, text: string, plan: Plan)
    requires plan == PlanOf(c, q, text) && plan.Rewrite?
    ensures IsMerge(LogLines(text), plan.kept, plan.removed)
    ensures multiset(LogLines(text)) == multiset(plan.kept) + multiset(plan.removed)
  {
    PartsMerge(c, q.policy, q.now.ms, LogLines(text));
  }

  /** The i-th content hash names the i-th removed line. */
  ghost predicate Records(c: Codec, hashes: seq<ContentHash>, removed: seq<string>) {
    && |hashes| == |removed|
    && forall i :: 0 <= i < |removed| ==>
         && c.decode(removed[i]).Good?
         && hashes[i] == ContentHash(c.decode(removed[i]).event.eventId, c.sha(removed[i]))
  }

  lemma RemovedAreRecorded(c: Codec, p: Policy, nowMs: int, lines: seq<string>)
    ensures var removed := Removed(c, p, nowMs, lines);
            Readable(c, removed) && Records(c, HashList(c, removed), removed)
  {
    RemovedDecode(c, p, nowMs, lines);
  }

  /** The summary's id carries up to 24 characters of the digest over all the recorded hashes. */
  ghost predicate NamedAfter(c: Codec, eventId: string, hashes: seq<ContentHash>) {
    exists lines: seq<string>, rest: string ::
      && |lines| == |hashes| && (forall i :: 0 <= i < |lines| ==> lines[i] == hashes[i].path + ":" + hashes[i].sha256)
      && "evt-compaction-" <= eventId && eventId + rest == "evt-compaction-" + c.sha(Join(lines))
      && (|eventId| == 39 || (|eventId| < 39 && rest == ""))
  }

  lemma SummaryNamed(c: Codec, scope: string, now: Instant, removed: seq<string>)
    ensures var s := Summary(c, scope, now, removed); NamedAfter(c, s.eventId, s.contentHashes)
  {
    var s := Summary(c, scope, now, removed);
    var lines := Map(HashList(c, removed), PathAndHash());
    var rest := IdAndRest("evt-compaction-", c.sha(Join(lines)));
  }

  lemma IdAndRest(stem: string, digest: string) returns (rest: string)
    ensures stem + Prefix(digest, 24) + rest == stem + digest
    ensures |Prefix(digest, 24)| == 24 || (|Prefix(digest, 24)| < 24 && rest == "")
  {
    rest := digest[|Prefix(digest, 24)|..];
    assert digest == Prefix(digest, 24) + rest;
  }

  /** The summary holds the event id and hash of every removed line, in order. */
  lemma SummaryRecordsRemoved(c: Codec, q: Request, text: string)
    requires PlanOf(c, q, text).Rewrite?
    ensures var plan := PlanOf(c, q, text);
            && plan.removed != [] && Readable(c, plan.removed)
            && plan.summary.Terminal? && plan.summary.terminalType == TERMINAL_COMPLETED
            && plan.summary.ts == q.now.text && plan.summary.objective == q.scope && plan.summary.actorRole == None
            && NamedAfter(c, plan.summary.eventId, plan.summary.contentHashes)
            && Records(c, plan.summary.contentHashes, plan.removed)
  {
    RemovedAreRecorded(c, q.policy, q.now.ms, LogLines(text));
    SummaryNamed(c, q.scope, q.now, PlanOf(c, q, text).removed);
  }

  lemma KeptAreLines(c: Codec, p: Policy, nowMs: int, lines: seq<string>)
    requires NewlineFree(lines)
    ensures NewlineFree(Kept(c, p, nowMs, lines))
    ensures forall l :: l in Kept(c, p, nowMs, lines) ==> l in lines
  {
    var kept := Kept(c, p, nowMs, lines);
    FilterMembers(lines, Surviving(c, p, nowMs));
    forall i | 0 <= i < |kept|
      ensures '\n' !in kept[i]
    {
      assert kept[i] in kept;
    }
  }

  lemma JoinedLog(kept: seq<string>, line: string)
    requires NewlineFree(kept) && '\n' !in line
    ensures Join(kept + [line]) + "\n" == Render(kept + [line])
    ensures LogLines(Render(kept + [line])) == kept + [line]
  {
    JoinIsRender(kept + [line]);
    RenderRoundTrip(kept + [line]);
  }

  /** The new text's lines are the kept ones, byte for byte, and then the summary's. */
  lemma RewriteLines(c: Codec, q: Request, text: string)
    requires Lawful(c) && PlanOf(c, q, text).Rewrite?
    ensures var plan := PlanOf(c, q, text);
            && WellFormed(plan.newText)
            && plan.newText == Render(plan.kept + [c.encode(plan.summary)])
            && LogLines(plan.newText) == plan.kept + [c.encode(plan.summary)]
            && (forall l :: l in plan.kept ==> l in LogLines(text))
            && c.decode(c.encode(plan.summary)) == Good(plan.summary)
  {
    KeptAreLines(c, q.policy, q.now.ms, LogLines(text));
    JoinedLog(PlanOf(c, q, text).kept, c.encode(PlanOf(c, q, text).summary));
  }

  /** The rewritten log reads back as the surviving events, in order, followed by the summary. */
  lemma RewriteReadsBack(c: Codec, q: Request, text: string)
    requires Lawful(c) && PlanOf(c, q, text).Rewrite?
    ensures ReadText(c, text) == Events(DecodeAll(c, LogLines(text)))
    ensures ReadText(c, PlanOf(c, q, text).newText) ==
            Events(Filter(DecodeAll(c, LogLines(text)), SurvivingEvent(c, q.policy, q.now.ms))
                   + [PlanOf(c, q, text).summary])
  {
    var lines, plan := LogLines(text), PlanOf(c, q, text);
    var line := c.encode(plan.summary);
    RewriteLines(c, q, text);
    FaultFreeMeansDatable(c, lines);
    FaultsMeanUnreadable(c, lines);
    FaultsMeanUnreadable(c, plan.kept + [line]);
    KeptDecodesToSurvivors(c, q.policy, q.now.ms, lines);
    DecodeConcat(c, plan.kept, [line]);
    assert DecodeAll(c, [line]) == [plan.summary];
  }

  // ------------------------------------------------------------------ composition

  /** The log after some compactions, the summary lines they appended and the hashes recorded. */
  datatype Effect = Effect(text: string, summaries: seq<string>, hashes: seq<ContentHash>)

  function CompactOnce(c: Codec, q: Request, text: string): Effect {
    match PlanOf(c, q, text)
    case Rewrite(_, _, summary, newText) => Effect(newText, [c.encode(summary)], summary.contentHashes)
    case NothingOld(_) => Effect(text, [], [])
    case Refused(_) => Effect(text, [], [])
  }

  /** A series of compactions of one scope under one policy. */
  function Series(c: Codec, scope: string, p: Policy, nows: seq<Instant>, text: string): Effect {
    if nows == [] then Effect(text, [], [])
    else
      var before := Series(c, scope, p, nows[..|nows| - 1], text);
      var next := CompactOnce(c, Request(scope, nows[|nows| - 1], p), before.text);
      Effect(next.text, before.summaries + next.summaries, before.hashes + next.hashes)
  }

  ghost predicate InOrder(c: Codec, scope: string, p: Policy, nows: seq<Instant>) {
    && (forall i :: 0 <= i < |nows| ==> ValidRequest(c, Request(scope, nows[i], p)))
    && (forall i, j :: 0 <= i <= j < |nows| ==> nows[i].ms <= nows[j].ms)
  }

  /** A summary line: it decodes to a dated TERMINAL event, so no compaction removes it. */
  ghost predicate IsAnchor(c: Codec, line: string) {
    && c.decode(line).Good? && c.decode(line).event.Terminal?
    && c.dateMs(c.decode(line).event.ts).Some?
  }

  ghost predicate Anchors(c: Codec, lines: seq<string>) {
    forall l :: l in lines ==> IsAnchor(c, l)
  }

  /** Compacting what an earlier compaction left keeps what one later compaction would keep. */
  lemma KeptOfKept(c: Codec, p: Policy, earlier: int, later: int, lines: seq<string>)
    requires earlier <= later
    ensures Kept(c, p, later, Kept(c, p, earlier, lines)) == Kept(c, p, later, lines)
  {
    FilterTwice(lines, Surviving(c, p, earlier), Surviving(c, p, later), Surviving(c, p, later));
  }

  /** What one later compaction removes is what the earlier one removed and what was removed next. */
  lemma RemovedOfKept(c: Codec, p: Policy, earlier: int, later: int, lines: seq<string>)
    requires earlier <= later
    ensures multiset(Removed(c, p, later, lines)) ==
            multiset(Removed(c, p, earlier, lines)) + multiset(Removed(c, p, later, Kept(c, p, earlier, lines)))
  {
    var keep0, drop0, drop1 := Surviving(c, p, earlier), Expired(c, p, earlier), Expired(c, p, later);
    FilterTwice(lines, drop1, drop0, drop0);
    var onlyLater := (l: string) => keep0(l) && drop1(l);
    FilterTwice(lines, keep0, drop1, onlyLater);
    FilterTwice(lines, drop1, keep0, onlyLater);
    FilterSplitsMultiset(Filter(lines, drop1), drop0, keep0);
  }

  lemma HashesOfKept(c: Codec, p: Policy, earlier: int, later: int, lines: seq<string>, sofar: seq<ContentHash>)
    requires earlier <= later
    requires multiset(sofar) == multiset(HashList(c, Removed(c, p, earlier, lines)))
    ensures multiset(sofar + HashList(c, Removed(c, p, later, Kept(c, p, earlier, lines)))) ==
            multiset(HashList(c, Removed(c, p, later, lines)))
  {
    var first, second := Removed(c, p, earlier, lines), Removed(c, p, later, Kept(c, p, earlier, lines));
    RemovedOfKept(c, p, earlier, later, lines);
    MapMultiset(Removed(c, p, later, lines), first + second, HashLine(c));
    MapConcat(first, second, HashLine(c));
  }

  lemma AnchorsSurvive(c: Codec, p: Policy, nowMs: int, lines: seq<string>, anchors: seq<string>)
    requires Anchors(c, anchors)
    ensures Kept(c, p, nowMs, lines + anchors) == Kept(c, p, nowMs, lines) + anchors
    ensures Removed(c, p, nowMs, lines + anchors) == Removed(c, p, nowMs, lines)
  {
    FilterConcat(lines, anchors, Surviving(c, p, nowMs));
    FilterConcat(lines, anchors, Expired(c, p, nowMs));
    FilterAll(anchors, Surviving(c, p, nowMs));
    FilterNone(anchors, Expired(c, p, nowMs));
  }

  /** The log after any series of compactions in time order is what ONE compaction at the last
      instant would keep, followed by the summaries. */
  lemma {:induction false} SeriesKeepsAsOne(c: Codec, scope: string, p: Policy, nows: seq<Instant>, text: string)
    requires Lawful(c) && nows != [] && InOrder(c, scope, p, nows) && Datable(c, LogLines(text))
    ensures var end := Series(c, scope, p, nows, text);
            && LogLines(end.text) == Kept(c, p, nows[|nows| - 1].ms, LogLines(text)) + end.summaries
            && Anchors(c, end.summaries)
  {
    var last, before := nows[|nows| - 1], nows[..|nows| - 1];
    if before == [] {
      assert nows == [last];
      SingleKeeps(c, scope, p, last, text);
    } else {
      var sofar := Series(c, scope, p, before, text);
      SeriesKeepsAsOne(c, scope, p, before, text);
      SeriesStep(c, Request(scope, last, p), LogLines(text), before[|before| - 1].ms, sofar.text, sofar.summaries);
    }
  }

  lemma SingleKeeps(c: Codec, scope: string, p: Policy, now: Instant, text: string)
    requires Lawful(c) && ValidRequest(c, Request(scope, now, p)) && Datable(c, LogLines(text))
    ensures var end := Series(c, scope, p, [now], text);
            && LogLines(end.text) == Kept(c, p, now.ms, LogLines(text)) + end.summaries
            && Anchors(c, end.summaries)
            && end.hashes == HashList(c, Removed(c, p, now.ms, LogLines(text)))
  {
    var end, once := Series(c, scope, p, [now], text), CompactOnce(c, Request(scope, now, p), text);
    assert end.text == once.text && end.summaries == once.summaries && end.hashes == once.hashes by {
      SeriesOfOne(c, scope, p, now, text);
    }
    CompactedShape(c, Request(scope, now, p), text);
  }

  lemma SeriesOfOne(c: Codec, scope: string, p: Policy, now: Instant, text: string)
    ensures Series(c, scope, p, [now], text) == CompactOnce(c, Request(scope, now, p), text)
  {
    var next := CompactOnce(c, Request(scope, now, p), text);
    assert [now][..0] == [];
    assert [] + next.summaries == next.summaries && [] + next.hashes == next.hashes;
  }

  /** The hashes recorded by the whole series are a permutation of the ones that a single
      compaction at the last instant would record. */
  lemma {:induction false} SeriesHashesAsOne(c: Codec, scope: string, p: Policy, nows: seq<Instant>, text: string)
    requires Lawful(c) && nows != [] && InOrder(c, scope, p, nows) && Datable(c, LogLines(text))
    ensures multiset(Series(c, scope, p, nows, text).hashes) ==
            multiset(HashList(c, Removed(c, p, nows[|nows| - 1].ms, LogLines(text))))
  {
    var last, before := nows[|nows| - 1], nows[..|nows| - 1];
    if before == [] {
      assert nows == [last];
      SingleKeeps(c, scope, p, last, text);
    } else {
      var sofar, earlier := Series(c, scope, p, before, text), before[|before| - 1].ms;
      SeriesHashesAsOne(c, scope, p, before, text);
      SeriesKeepsAsOne(c, scope, p, before, text);
      SeriesStep(c, Request(scope, last, p), LogLines(text), earlier, sofar.text, sofar.summaries);
      HashesOfKept(c, p, earlier, last.ms, LogLines(text), sofar.hashes);
    }
  }

  /** A log that is already compacted as of `earlier`, with its summaries, compacted once more. */
  lemma SeriesStep(c: Codec, q: Request, lines: seq<string>, earlier: int, text: string, anchors: seq<string>)
    requires Lawful(c) && ValidRequest(c, q) && Datable(c, lines) && earlier <= q.now.ms
    requires LogLines(text) == Kept(c, q.policy, earlier, lines) + anchors
    requires Anchors(c, anchors)
    ensures var next := CompactOnce(c, q, text);
            && LogLines(next.text) == Kept(c, q.policy, q.now.ms, lines) + (anchors + next.summaries)
            && Anchors(c, next.summaries)
            && next.hashes == HashList(c, Removed(c, q.policy, q.now.ms, Kept(c, q.policy, earlier, lines)))
  {
    var kept, next := Kept(c, q.policy, earlier, lines), CompactOnce(c, q, text);
    KeptDatable(c, q.policy, earlier, lines);
    StepOnAnchored(c, q, text, kept, anchors);
    KeptOfKept(c, q.policy, earlier, q.now.ms, lines);
    Reassociate(Kept(c, q.policy, q.now.ms, lines), anchors, next.summaries);
  }

  lemma KeptDatable(c: Codec, p: Policy, nowMs: int, lines: seq<string>)
    requires Datable(c, lines)
    ensures Datable(c, Kept(c, p, nowMs, lines))
  {
    FilterMembers(lines, Surviving(c, p, nowMs));
  }

  lemma Reassociate(a: seq<string>, b: seq<string>, d: seq<string>)
    ensures a + b + d == a + (b + d)
  {
  }

  lemma NothingOldKeepsAll(c: Codec, p: Policy, nowMs: int, lines: seq<string>)
    requires Removed(c, p, nowMs, lines) == []
    ensures Kept(c, p, nowMs, lines) == lines
  {
    FilterMembers(lines, Expired(c, p, nowMs));
    FilterAll(lines, Surviving(c, p, nowMs));
  }

  lemma RewriteShape(c: Codec, q: Request, text: string)
    requires Lawful(c) && ValidRequest(c, q) && PlanOf(c, q, text).Rewrite?
    ensures var after := CompactOnce(c, q, text);
            && LogLines(after.text) == Kept(c, q.policy, q.now.ms, LogLines(text)) + after.summaries
            && Anchors(c, after.summaries)
            && after.hashes == HashList(c, Removed(c, q.policy, q.now.ms, LogLines(text)))
  {
    RewriteLines(c, q, text);
  }

  lemma NothingOldShape(c: Codec, q: Request, text: string)
    requires PlanOf(c, q, text).NothingOld?
    ensures CompactOnce(c, q, text) == Effect(text, [], [])
    ensures Removed(c, q.policy, q.now.ms, LogLines(text)) == []
    ensures LogLines(text) == Kept(c, q.policy, q.now.ms, LogLines(text)) + []
  {
    NothingOldKeepsAll(c, q.policy, q.now.ms, LogLines(text));
  }

  lemma RewriteRemoves(c: Codec, q: Request, text: string)
    ensures PlanOf(c, q, text).Rewrite? ==> Removed(c, q.policy, q.now.ms, LogLines(text)) != []
  {
  }

  /** One compaction of a log whose every line is datable. */
  lemma CompactedShape(c: Codec, q: Request, text: string)
    requires Lawful(c) && ValidRequest(c, q) && Datable(c, LogLines(text))
    ensures var lines, after := LogLines(text), CompactOnce(c, q, text);
            && LogLines(after.text) == Kept(c, q.policy, q.now.ms, lines) + after.summaries
            && Anchors(c, after.summaries)
            && after.hashes == HashList(c, Removed(c, q.policy, q.now.ms, lines))
    ensures Removed(c, q.policy, q.now.ms, LogLines(text)) == [] ==> CompactOnce(c, q, text).text == text
  {
    SummaryIsValid(c, q, text);
    RewriteRemoves(c, q, text);
    if PlanOf(c, q, text).Rewrite? {
      RewriteShape(c, q, text);
    } else {
      NothingOldShape(c, q, text);
    }
  }

  /** One compaction of a log made of datable lines followed by summaries. */
  lemma StepOnAnchored(c: Codec, q: Request, text: string, lines: seq<string>, anchors: seq<string>)
    requires Lawful(c) && ValidRequest(c, q)
    requires LogLines(text) == lines + anchors && Datable(c, lines)
    requires Anchors(c, anchors)
    ensures var after := CompactOnce(c, q, text);
            && LogLines(after.text) == Kept(c, q.policy, q.now.ms, lines) + anchors + after.summaries
            && Anchors(c, after.summaries)
            && after.hashes == HashList(c, Removed(c, q.policy, q.now.ms, lines))
  {
    AnchorsSurvive(c, q.policy, q.now.ms, lines, anchors);
    CompactedShape(c, q, text);
  }

  /** Compacting again at the same instant changes nothing. */
  lemma RecompactionIsNoOp(c: Codec, q: Request, text: string)
    requires Lawful(c) && ValidRequest(c, q)
    ensures CompactOnce(c, q, CompactOnce(c, q, text).text).text == CompactOnce(c, q, text).text
  {
    var lines, once := LogLines(text), CompactOnce(c, q, text);
    SummaryIsValid(c, q, text);
    if Datable(c, lines) {
      CompactedShape(c, q, text);
      var kept := Kept(c, q.policy, q.now.ms, lines);
      FilterMembers(lines, Surviving(c, q.policy, q.now.ms));
      FilterNone(kept, Expired(c, q.policy, q.now.ms));
      AnchorsSurvive(c, q.policy, q.now.ms, kept, once.summaries);
      assert Datable(c, LogLines(once.text));
      CompactedShape(c, q, once.text);
    }
  }
}
