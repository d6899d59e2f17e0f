// One process's view of a registry scope directory: the two operations that change it, with a
// disk that may refuse the lock, the append, the temp-file write or the rename.

module RegistryStore {
  import opened Wrappers
  import opened Events
  import opened Log
  import opened Compaction
  import opened Sequences

  datatype AppendResult = Appended(event: Event) | AppendRejected(code: string) | AppendThrew

  datatype Report = Report(dryRun: bool, compacted: bool, removedCount: nat, keptCount: nat, summary: Option<Event>)
  datatype CompactResult = Compacted(report: Report) | CompactRejected(faults: seq<Fault>) | CompactThrew

  /** The lock was not to be had, or the disk failed. */
  predicate DiskFailed(r: CompactResult) {
    r == CompactThrew || r == CompactRejected([Fault(0, "lock_unavailable")])
  }

  class RegistryDir {
    const codec: Codec
    /** The disk does what it is told, and a lock that is free can be had. */
    const calm: bool
    var lockDir: bool
    var log: Option<string>
    var tmp: Option<string>

    constructor (codec: Codec, calm: bool)
      ensures this.codec == codec && this.calm == calm && !lockDir && log == None && tmp == None
    {
      this.codec, this.calm := codec, calm;
      lockDir, log, tmp := false, None, None;
    }

    /** acquireRegistryLock: never steals, and may give up although the lock is free. */
    method AcquireLock() returns (locked: bool)
      modifies this`lockDir
      ensures locked ==> !old(lockDir) && lockDir
      ensures !locked ==> lockDir == old(lockDir)
      ensures calm && !old(lockDir) ==> locked
    {
      locked := *;
      if calm { locked := true; }
      if lockDir { locked := false; }
      if locked { lockDir := true; }
    }

    /** Any access to the disk may fail, unless it is calm. */
    method Works() returns (ok: bool)
      ensures calm ==> ok
    {
      ok := *;
      if calm { ok := true; }
    }

    /** An event is either appended as one whole line or nothing changes; the lock is always released. */
    method AppendRegistryEvent(scope: string, candidate: Option<Event>, maxBytes: int) returns (r: AppendResult)
      modifies this`lockDir, this`log
      ensures lockDir == old(lockDir)
      ensures match PrepareAppend(codec, scope, candidate, maxBytes)
              case Rejected(code) => r == AppendRejected(code) && log == old(log)
              case Ready(line, event) =>
                if r == Appended(event) then !lockDir && log == Some(old(log).GetOr("") + line + "\n")
                else (r == AppendThrew || r == AppendRejected("lock_unavailable")) && log == old(log)
                     && !(calm && !old(lockDir))
    {
      var prepared := PrepareAppend(codec, scope, candidate, maxBytes);
      if prepared.Rejected? {
        return AppendRejected(prepared.code);
      }
      var locked := AcquireLock();
      if !locked {
        return AppendRejected("lock_unavailable");
      }
      var written := Works();
      if written {
        log := Some(log.GetOr("") + prepared.line + "\n");
      }
      lockDir := false;
      return if written then Appended(prepared.event) else AppendThrew;
    }

    /** The real run of a validated request: the log is replaced in one rename by exactly the
        planned text, or not touched at all; the lock is always released. */
    method CompactUnderLock(q: Request) returns (r: CompactResult)
      modifies this
      ensures lockDir == old(lockDir)
      ensures || r == BuildReport(false, PlanOf(codec, q, old(log).GetOr("")))
              || (!(calm && !old(lockDir)) && DiskFailed(r))
      ensures !r.Compacted? ==> log == old(log)
      ensures r.Compacted? ==>
                && r == BuildReport(false, PlanOf(codec, q, old(log).GetOr("")))
                && log == LogAfter(old(log), PlanOf(codec, q, old(log).GetOr("")))
    {
      var locked := AcquireLock();
      if !locked {
        return CompactRejected([Fault(0, "lock_unavailable")]);
      }
      var read := Works();
      if log.Some? && !read {
        lockDir := false;
        return CompactThrew;
      }
      var plan := PlanCompaction(codec, q, log.GetOr(""));
      if !plan.Rewrite? {
        lockDir := false;
        return BuildReport(false, plan);
      }
      var wrote := Works();
      var renamed := Works();
      if !wrote || !renamed {
        // A failed write leaves a torn temp file; its removal is best effort.
        tmp := *;
        lockDir := false;
        return CompactThrew;
      }
      tmp := Some(plan.newText);
      log, tmp := tmp, None;
      lockDir := false;
      return BuildReport(false, plan);
    }

    /** A dry run touches nothing and reports what the real run would do. */
    method CompactRegistryEvents(scope: string, nowText: string, policy: Policy, dryRun: bool)
      returns (r: CompactResult)
      modifies this
      ensures lockDir == old(lockDir)
      ensures dryRun ==> log == old(log) && tmp == old(tmp)
      ensures match ArgumentFault(codec, scope, nowText, policy)
              case Some(code) => r == CompactRejected([Fault(0, code)])
              case None =>
                var q := Request(scope, Instant(nowText, codec.dateMs(nowText).value), policy);
                || r == BuildReport(dryRun, PlanOf(codec, q, old(log).GetOr("")))
                || (dryRun && !calm && r == CompactThrew)
                || (!dryRun && !(calm && !old(lockDir)) && DiskFailed(r))
      ensures !r.Compacted? ==> log == old(log)
      ensures r.Compacted? ==>
                && codec.dateMs(nowText).Some?
                && var q := Request(scope, Instant(nowText, codec.dateMs(nowText).value), policy);
                && ValidRequest(codec, q)
                && r == BuildReport(dryRun, PlanOf(codec, q, old(log).GetOr("")))
                && log == if dryRun then old(log) else LogAfter(old(log), PlanOf(codec, q, old(log).GetOr("")))
    {
      if !SafeScope(scope) {
        return CompactRejected([Fault(0, "unsafe_scope")]);
      }
      var nowMs := codec.dateMs(nowText);
      if nowMs == None {
        return CompactRejected([Fault(0, "invalid_now")]);
      }
      if policy.ttlDays <= 0.0 || exists k :: k in policy.byClass && policy.byClass[k] <= 0.0 {
        return CompactRejected([Fault(0, "invalid_ttl")]);
      }
      var q := Request(scope, Instant(nowText, nowMs.value), policy);
      if dryRun {
        var read := Works();
        if log.Some? && !read {
          return CompactThrew;
        }
        var plan := PlanCompaction(codec, q, log.GetOr(""));
        return BuildReport(true, plan);
      }
      r := CompactUnderLock(q);
    }
  }

  /** The first argument that is wrong. */
  function ArgumentFault(c: Codec, scope: string, nowText: string, policy: Policy): (fault: Option<string>)
    ensures fault == None ==> c.dateMs(nowText).Some?
    ensures fault == None <==>
              && c.dateMs(nowText).Some?
              && ValidRequest(c, Request(scope, Instant(nowText, c.dateMs(nowText).value), policy))
  {
    if !SafeScope(scope) then Some("unsafe_scope")
    else if c.dateMs(nowText) == None then Some("invalid_now")
    else if policy.ttlDays <= 0.0 || exists k :: k in policy.byClass && policy.byClass[k] <= 0.0 then
      Some("invalid_ttl")
    else None
  }

  function LogAfter(log: Option<string>, plan: Plan): Option<string> {
    if plan.Rewrite? then Some(plan.newText) else log
  }

  function BuildReport(dryRun: bool, plan: Plan): CompactResult {
    match plan
    case Refused(faults) => CompactRejected(faults)
    case NothingOld(kept) => Compacted(Report(dryRun, false, 0, |kept|, None))
    case Rewrite(kept, removed, summary, _) =>
      Compacted(Report(dryRun, true, |removed|, |kept|, Some(summary)))
  }

  /** The report accounts for every line of the log, and says that it compacted exactly if some line
      went. */
  lemma ReportAddsUp(c: Codec, q: Request, text: string, dryRun: bool, plan: Plan)
    requires plan == PlanOf(c, q, text) && !plan.Refused?
    ensures var r := BuildReport(dryRun, plan);
            && r.Compacted? && r.report.dryRun == dryRun
            && r.report.removedCount == |TakenOut(plan)| && r.report.keptCount == |LeftIn(plan)|
            && r.report.removedCount + r.report.keptCount == |LogLines(text)|
            && (r.report.compacted <==> r.report.removedCount > 0)
            && (r.report.compacted <==> r.report.summary.Some?)
  {
    FilterSplitsLength(LogLines(text), Surviving(c, q.policy, q.now.ms), Expired(c, q.policy, q.now.ms));
  }
}
