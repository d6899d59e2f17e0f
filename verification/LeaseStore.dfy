// The lease operations as one process runs them on the lease directory: argument checks, the
// allow-list, the slot lock, one read-modify-write, and for the any-of acquire two passes over
// the requested slots. Other processes may act between any two lock sections.

module LeaseStore {
  import opened Wrappers
  import opened LeaseRecords
  import opened Text

  /** SLOT_PATTERN */
  predicate SlotName(slot: string) {
    PathSegment(slot)
  }

  /** slots.allow: absent, with a malformed line, or a list. */
  datatype AllowFile = NoAllowFile | Malformed | Listed(slots: set<string>)

  function AllowFault(a: AllowFile, slot: string): Option<string> {
    match a
    case NoAllowFile => None
    case Malformed => Some("slots_allow_invalid")
    case Listed(slots) => if slot in slots then None else Some("slot_not_allowed")
  }

  datatype HeldSlot = HeldSlot(slot: string, holder: Option<string>, expiresAt: Option<Stamp>)

  datatype AnyResult =
    | AnyGranted(slot: string, record: Record, acquired: bool, tookOver: bool, held: seq<HeldSlot>)
    | AllHeld(held: seq<HeldSlot>)
    | AnyRefused(code: string)

  /** What this process does to the directory, in order. */
  datatype Access = Locked(slot: string) | Wrote(slot: string, record: Record) | Unlocked(slot: string)

  ghost predicate NoRepeats(held: seq<HeldSlot>) {
    forall i, j :: 0 <= i < j < |held| ==> held[i].slot != held[j].slot
  }

  predicate Lists(held: seq<HeldSlot>, slot: string) {
    exists i :: 0 <= i < |held| && held[i].slot == slot
  }

  function NextLocks(before: int, a: Access): int {
    match a
    case Locked(_) => if before == 0 then 1 else -1
    case Wrote(_, _) => if before == 1 then 1 else -1
    case Unlocked(_) => if before == 1 then 0 else -1
  }

  /** The number of locks held after a trace, or -1 if two were ever held at once, a lock was
      dropped that was not held, or a write was made outside the lock. */
  function LocksHeld(trace: seq<Access>): int {
    if trace == [] then 0 else NextLocks(LocksHeld(trace[..|trace| - 1]), trace[|trace| - 1])
  }

  function Writes(trace: seq<Access>): nat {
    if trace == [] then 0
    else Writes(trace[..|trace| - 1]) + if trace[|trace| - 1].Wrote? then 1 else 0
  }

  /** How many locks were taken in all. */
  function Acquisitions(trace: seq<Access>): nat {
    if trace == [] then 0
    else Acquisitions(trace[..|trace| - 1]) + if trace[|trace| - 1].Locked? then 1 else 0
  }

  /** What a locked operation leaves in the slot's file, on the file `f` and clock `at` it found. */
  function LeftBehind(op: Op, f: File, slot: string, at: int, skew: nat): File {
    match OnFile(op, f, slot, at, skew).write
    case Some(record) => AsFile(slot, record)
    case None => f
  }

  // ------------------------------------------------------------------ argument checks, in order

  function SlotFault(allow: AllowFile, slot: string): Option<string> {
    if !SlotName(slot) then Some("invalid_slot") else AllowFault(allow, slot)
  }

  function AcquireFault(allow: AllowFile, slot: string, holder: string, ttl: real): Option<string> {
    if !SlotName(slot) then Some("invalid_slot")
    else if Blank(holder) then Some("invalid_holder")
    else if ttl <= 0.0 then Some("invalid_ttl")
    else AllowFault(allow, slot)
  }

  function RenewFault(allow: AllowFile, slot: string, ttl: real): Option<string> {
    if !SlotName(slot) then Some("invalid_slot")
    else if ttl <= 0.0 then Some("invalid_ttl")
    else AllowFault(allow, slot)
  }

  /** The readers look at the allow-list first. */
  function ReaderFault(allow: AllowFile, slot: string): Option<string> {
    if AllowFault(allow, slot).Some? then AllowFault(allow, slot)
    else if !SlotName(slot) then Some("invalid_slot")
    else None
  }

  function Skew(skew: int): (s: nat)
    ensures s >= skew && (s == skew || s == 0)
    ensures skew <= 0 ==> s == 0
  {
    if skew < 0 then 0 else skew
  }

  /** The slot may be used: its name is one, and the allow-list is absent or names it. */
  predicate Usable(allow: AllowFile, slot: string) {
    SlotName(slot) && (allow.NoAllowFile? || (allow.Listed? && slot in allow.slots))
  }

  /** Every refusal, when it is given, and which comes first: the arguments before the allow-list, but
      the allow-list before the name for the readers. */
  lemma RefusalsInOrder(allow: AllowFile, slot: string, holder: string, ttl: real)
    ensures var listed := allow.NoAllowFile? || (allow.Listed? && slot in allow.slots);
            var unlisted := Some(if allow.Malformed? then "slots_allow_invalid" else "slot_not_allowed");
            && (ReaderFault(allow, slot) ==
                if !listed then unlisted else if !SlotName(slot) then Some("invalid_slot") else None)
            && (SlotFault(allow, slot) ==
                if !SlotName(slot) then Some("invalid_slot") else if !listed then unlisted else None)
            && (RenewFault(allow, slot, ttl) ==
                if SlotName(slot) && ttl <= 0.0 then Some("invalid_ttl") else SlotFault(allow, slot))
            && (AcquireFault(allow, slot, holder, ttl) ==
                if SlotName(slot) && Blank(holder) then Some("invalid_holder") else RenewFault(allow, slot, ttl))
            && (Usable(allow, slot) <==> SlotFault(allow, slot) == None)
            && (Usable(allow, slot) <==> ReaderFault(allow, slot) == None)
  {
  }

  // ------------------------------------------------------------------ the any-of specification

  /** In the first pass: the holder's own unexpired slot, or a corrupt record, ends the search. */
  predicate EndsOwnPass(d: Dir, slot: string, holder: string, at: int, skew: nat) {
    match ReadLease(FileOf(d, slot), slot)
    case None => true
    case Some(r) => r.holder == Some(holder) && !IsExpired(r, at, skew)
  }

  predicate Takeable(d: Dir, slot: string, at: int, skew: nat) {
    match ReadLease(FileOf(d, slot), slot)
    case None => false
    case Some(r) => r.holder == None || IsExpired(r, at, skew)
  }

  /** Held by somebody else, unexpired. */
  predicate Occupied(d: Dir, slot: string, holder: string, at: int, skew: nat) {
    match ReadLease(FileOf(d, slot), slot)
    case None => false
    case Some(r) => r.holder.Some? && r.holder != Some(holder) && !IsExpired(r, at, skew)
  }

  /** The occupied ones of these slots are all reported. */
  ghost predicate AllReported(d: Dir, slots: seq<string>, holder: string, at: int, skew: nat, held: seq<HeldSlot>) {
    forall j :: 0 <= j < |slots| && Occupied(d, slots[j], holder, at, skew) ==> Lists(held, slots[j])
  }

  /** The first pass stopped at the first slot that ends it, or at none. */
  ghost predicate OwnPassSpec(d: Dir, slots: seq<string>, holder: string, at: int, skew: nat, r: Option<AnyResult>) {
    match r
    case None => forall j :: 0 <= j < |slots| ==> !EndsOwnPass(d, slots[j], holder, at, skew)
    case Some(result) =>
      exists i :: 0 <= i < |slots| && EndsOwnPass(d, slots[i], holder, at, skew)
                  && (forall j :: 0 <= j < i ==> !EndsOwnPass(d, slots[j], holder, at, skew))
                  && OwnResult(d, slots[i], result)
                  && (result.AnyGranted? ==> AllReported(d, slots[..i], holder, at, skew, result.held))
  }

  /** The record is handed back unwritten, or reported corrupt. */
  ghost predicate OwnResult(d: Dir, slot: string, r: AnyResult) {
    match ReadLease(FileOf(d, slot), slot)
    case None => r == AnyRefused("lease_corrupt")
    case Some(own) => r.AnyGranted? && r.slot == slot && r.record == own && !r.acquired && !r.tookOver
  }

  /** The second pass took the first takeable slot under a new token, or found none. */
  ghost predicate GrantPassSpec(d: Dir, d': Dir, slots: seq<string>, holder: string, ttl: real,
                                at: int, skew: nat, r: AnyResult) {
    if r.AllHeld? then d' == d && forall j :: 0 <= j < |slots| ==> !Takeable(d, slots[j], at, skew)
    else
      exists i :: 0 <= i < |slots| && Takeable(d, slots[i], at, skew)
                  && (forall j :: 0 <= j < i ==> !Takeable(d, slots[j], at, skew))
                  && GrantResult(d, d', slots[i], holder, ttl, at, r)
  }

  ghost predicate GrantResult(d: Dir, d': Dir, slot: string, holder: string, ttl: real, at: int, r: AnyResult) {
    match ReadLease(FileOf(d, slot), slot)
    case None => false
    case Some(was) =>
      && d' == d[slot := AsFile(slot, Taken(was, holder, at, ttl))]
      && r.AnyGranted? && r.slot == slot && r.record == Taken(was, holder, at, ttl)
      && r.acquired && r.tookOver == was.holder.Some?
  }

  /** Each slot is reported with the holder and the expiry on its record. */
  ghost predicate Reports(d: Dir, held: seq<HeldSlot>) {
    forall k :: 0 <= k < |held| ==>
      var record := ReadLease(FileOf(d, held[k].slot), held[k].slot);
      record.Some? && held[k].holder == record.value.holder && held[k].expiresAt == record.value.expiresAt
  }

  /** With a fixed clock and nobody else acting: the first own unexpired slot, unwritten; else the
      first free or expired slot, taken under a new token; else every slot is someone else's. A
      corrupt record met before an own slot ends the call. */
  ghost predicate AnyOfSpec(d: Dir, d': Dir, slots: seq<string>, holder: string, ttl: real,
                            at: int, skew: nat, r: AnyResult) {
    || (d' == d && OwnPassSpec(d, slots, holder, at, skew, Some(r)))
    || (OwnPassSpec(d, slots, holder, at, skew, None) && GrantPassSpec(d, d', slots, holder, ttl, at, skew, r))
  }

  class LeaseDir {
    var files: Dir
    var clockMs: int
    var allow: AllowFile
    /** Nobody else acts, no lock is left behind, and the clock stands still. */
    const alone: bool
    ghost var trace: seq<Access>

    constructor (files: Dir, clockMs: int, allow: AllowFile, alone: bool)
      ensures this.files == files && this.clockMs == clockMs && this.allow == allow && this.alone == alone
      ensures trace == []
    {
      this.files, this.clockMs, this.allow, this.alone := files, clockMs, allow, alone;
      trace := [];
    }

    /** On the file `f` and at the clock the operation found, it answered as the atomic step, and the
        slot's file is what that step leaves behind. */
    ghost predicate Done(op: Op, slot: string, skew: nat, r: Outcome, f: File, at: int)
      reads this
    {
      && r == OnFile(op, f, slot, at, skew).outcome
      && at == clockMs && FileOf(files, slot) == LeftBehind(op, f, slot, at, skew)
    }

    /** Whatever other processes and the clock do between two lock sections. */
    method Interfere()
      modifies this`files, this`clockMs
      ensures alone ==> files == old(files) && clockMs == old(clockMs)
    {
      if !alone {
        files, clockMs := *, *;
      }
    }

    method TryLock(slot: string) returns (locked: bool)
      requires LocksHeld(trace) == 0
      modifies this`trace
      ensures alone ==> locked
      ensures LocksHeld(trace) == (if locked then 1 else 0) && Writes(trace) == Writes(old(trace))
      ensures Acquisitions(trace) == Acquisitions(old(trace)) + if locked then 1 else 0
    {
      locked := *;
      if alone { locked := true; }
      if locked { Note(Locked(slot)); }
    }

    ghost method Note(a: Access)
      modifies this`trace
      ensures trace == old(trace) + [a]
      ensures LocksHeld(trace) == NextLocks(LocksHeld(old(trace)), a)
      ensures Writes(trace) == Writes(old(trace)) + if a.Wrote? then 1 else 0
      ensures Acquisitions(trace) == Acquisitions(old(trace)) + if a.Locked? then 1 else 0
    {
      ghost var before := trace;
      trace := trace + [a];
      assert trace[..|trace| - 1] == before;
    }

    /** Inside the lock: the body's record, if any, is written and the lock dropped. */
    method UnderLock(slot: string, effect: Effect) returns (r: Outcome)
      requires LocksHeld(trace) == 1
      modifies this`files, this`trace
      ensures r == effect.outcome && LocksHeld(trace) == 0 && Acquisitions(trace) == Acquisitions(old(trace))
      ensures Writes(trace) == Writes(old(trace)) + if effect.write.Some? then 1 else 0
      ensures files == if effect.write.Some? then old(files)[slot := AsFile(slot, effect.write.value)] else old(files)
    {
      if effect.write.Some? {
        files := files[slot := AsFile(slot, effect.write.value)];
        Note(Wrote(slot, effect.write.value));
      }
      Note(Unlocked(slot));
      return effect.outcome;
    }

    /** withSlotLock: one lock, one read, at most one write, unlock. On the file `f` and clock `at`
        it finds under the lock it is the atomic step of LeaseRecords, and what that step writes is
        in the slot's file; alone, file and clock are the caller's. */
    method WithSlotLock(slot: string, op: Op, skew: nat) returns (r: Outcome, ghost f: File, ghost at: int)
      requires LocksHeld(trace) == 0
      modifies this`files, this`clockMs, this`trace
      ensures LocksHeld(trace) == 0
      ensures Acquisitions(trace) == Acquisitions(old(trace)) + if r == Refused("lock_unavailable") then 0 else 1
      ensures if r == Refused("lock_unavailable") then Writes(trace) == Writes(old(trace)) && !alone
              else && Done(op, slot, skew, r, f, at)
                   && Writes(trace) == Writes(old(trace)) + if OnFile(op, f, slot, at, skew).write.Some? then 1 else 0
      ensures alone ==> f == FileOf(old(files), slot) && at == clockMs == old(clockMs)
                        && files == Apply(old(files), AtomicStep(slot, op, clockMs, skew))
    {
      Interfere();
      var locked := TryLock(slot);
      f, at := FileOf(files, slot), clockMs;
      if !locked {
        return Refused("lock_unavailable"), f, at;
      }
      NotALockRefusal(op, f, slot, at, skew);
      r := UnderLock(slot, OnFile(op, FileOf(files, slot), slot, clockMs, skew));
    }

    /** Locked single-slot operations share the slot and allow-list checks. On whatever file and
        clock they find they answer as the atomic step, unless they cannot get the lock. */
    method SlotOperation(slot: string, op: Op, skew: int) returns (r: Outcome, ghost f: File, ghost at: int)
      requires LocksHeld(trace) == 0
      modifies this`files, this`clockMs, this`trace
      ensures LocksHeld(trace) == 0
      ensures match SlotFault(allow, slot)
              case Some(code) => r == Refused(code) && files == old(files) && trace == old(trace)
              case None => r == Refused("lock_unavailable") || Done(op, slot, Skew(skew), r, f, at)
      ensures alone && SlotFault(allow, slot) == None ==>
                var step := AtomicStep(slot, op, old(clockMs), Skew(skew));
                r == EffectOf(old(files), step).outcome && files == Apply(old(files), step)
    {
      f, at := FileOf(files, slot), clockMs;
      if !SlotName(slot) {
        r := Refused("invalid_slot");
        return;
      }
      var fault := AllowFault(allow, slot);
      if fault.Some? {
        r := Refused(fault.value);
        return;
      }
      r, f, at := WithSlotLock(slot, op, Skew(skew));
    }

    method AcquireLease(slot: string, holder: string, ttl: real, skew: int)
      returns (r: Outcome, ghost f: File, ghost at: int)
      requires LocksHeld(trace) == 0
      modifies this`files, this`clockMs, this`trace
      ensures LocksHeld(trace) == 0
      ensures match AcquireFault(allow, slot, holder, ttl)
              case Some(code) => r == Refused(code) && files == old(files) && trace == old(trace)
              case None => r == Refused("lock_unavailable") || Done(Acquire(holder, ttl), slot, Skew(skew), r, f, at)
      ensures AcquireFault(allow, slot, holder, ttl) == None && r != Refused("lock_unavailable") ==>
                match ReadLease(f, slot)
                case None => r == Refused("lease_corrupt") && FileOf(files, slot) == f
                case Some(was) =>
                  && AcquireAnswer(was, holder, ttl, at, Skew(skew), r)
                  && FileOf(files, slot) == if RecordIn(r).Some? then AsFile(slot, RecordIn(r).value) else f
      ensures alone && AcquireFault(allow, slot, holder, ttl) == None ==>
                var step := AtomicStep(slot, Acquire(holder, ttl), old(clockMs), Skew(skew));
                r == EffectOf(old(files), step).outcome && files == Apply(old(files), step)
    {
      f, at := FileOf(files, slot), clockMs;
      if !SlotName(slot) { r := Refused("invalid_slot"); return; }
      if Blank(holder) { r := Refused("invalid_holder"); return; }
      if ttl <= 0.0 { r := Refused("invalid_ttl"); return; }
      r, f, at := SlotOperation(slot, Acquire(holder, ttl), skew);
      if ReadLease(f, slot).Some? {
        LockedAnswers(ReadLease(f, slot).value, holder, 0, ttl, at, Skew(skew));
      }
    }

    method RenewLease(slot: string, holder: string, token: int, ttl: real, skew: int)
      returns (r: Outcome, ghost f: File, ghost at: int)
      requires LocksHeld(trace) == 0
      modifies this`files, this`clockMs, this`trace
      ensures LocksHeld(trace) == 0
      ensures match RenewFault(allow, slot, ttl)
              case Some(code) => r == Refused(code) && files == old(files) && trace == old(trace)
              case None =>
                r == Refused("lock_unavailable") || Done(Renew(holder, token, ttl), slot, Skew(skew), r, f, at)
      ensures RenewFault(allow, slot, ttl) == None && r != Refused("lock_unavailable") ==>
                match ReadLease(f, slot)
                case None => r == Refused("lease_corrupt") && FileOf(files, slot) == f
                case Some(was) =>
                  && RenewAnswer(was, holder, token, ttl, at, Skew(skew), r)
                  && FileOf(files, slot) == if RecordIn(r).Some? then AsFile(slot, RecordIn(r).value) else f
      ensures alone && RenewFault(allow, slot, ttl) == None ==>
                var step := AtomicStep(slot, Renew(holder, token, ttl), old(clockMs), Skew(skew));
                r == EffectOf(old(files), step).outcome && files == Apply(old(files), step)
    {
      f, at := FileOf(files, slot), clockMs;
      if !SlotName(slot) { r := Refused("invalid_slot"); return; }
      if ttl <= 0.0 { r := Refused("invalid_ttl"); return; }
      r, f, at := SlotOperation(slot, Renew(holder, token, ttl), skew);
      if ReadLease(f, slot).Some? {
        LockedAnswers(ReadLease(f, slot).value, holder, token, ttl, at, Skew(skew));
      }
    }

    method ReleaseLease(slot: string, holder: string, token: int) returns (r: Outcome, ghost f: File, ghost at: int)
      requires LocksHeld(trace) == 0
      modifies this`files, this`clockMs, this`trace
      ensures LocksHeld(trace) == 0
      ensures match SlotFault(allow, slot)
              case Some(code) => r == Refused(code) && files == old(files) && trace == old(trace)
              case None => r == Refused("lock_unavailable") || Done(Release(holder, token), slot, 0, r, f, at)
      ensures SlotFault(allow, slot) == None && r != Refused("lock_unavailable") ==>
                match ReadLease(f, slot)
                case None => r == Refused("lease_corrupt") && FileOf(files, slot) == f
                case Some(was) =>
                  && ReleaseAnswer(was, holder, token, r)
                  && FileOf(files, slot) == if RecordIn(r).Some? then AsFile(slot, RecordIn(r).value) else f
      ensures alone && SlotFault(allow, slot) == None ==>
                var step := AtomicStep(slot, Release(holder, token), old(clockMs), 0);
                r == EffectOf(old(files), step).outcome && files == Apply(old(files), step)
    {
      r, f, at := SlotOperation(slot, Release(holder, token), 0);
      if ReadLease(f, slot).Some? {
        LockedAnswers(ReadLease(f, slot).value, holder, token, 1.0, at, 0);
      }
    }

    /** checkLease, leaseStatus and fenceAction take no lock: one read of whatever file is there. */
    method ReadSlot(slot: string, op: Op, skew: int) returns (r: Outcome, ghost f: File, ghost at: int)
      requires ReadOnly(op)
      modifies this`files, this`clockMs
      ensures match ReaderFault(allow, slot)
              case Some(code) => r == Refused(code) && files == old(files)
              case None => r == OnFile(op, f, slot, at, Skew(skew)).outcome
      ensures alone ==> files == old(files) && clockMs == old(clockMs) && f == FileOf(files, slot) && at == clockMs
    {
      f, at := FileOf(files, slot), clockMs;
      var fault := ReaderFault(allow, slot);
      if fault.Some? {
        r := Refused(fault.value);
        return;
      }
      Interfere();
      f, at := FileOf(files, slot), clockMs;
      r := OnFile(op, FileOf(files, slot), slot, clockMs, Skew(skew)).outcome;
    }

    /** Held exactly when the record read has this holder and token and is unexpired at the clock
        used; otherwise the refusal names the first thing that is wrong. */
    method CheckLease(slot: string, holder: string, token: int, skew: int)
      returns (r: Outcome, ghost f: File, ghost at: int)
      modifies this`files, this`clockMs
      ensures ReaderFault(allow, slot).Some? ==> r == Refused(ReaderFault(allow, slot).value)
      ensures ReaderFault(allow, slot) == None ==>
                match ReadLease(f, slot)
                case None => r == Refused("lease_corrupt")
                case Some(record) =>
                  if record.holder == None then r == Refused("lease_missing")
                  else if record.holder != Some(holder) then r == Refused("not_holder")
                  else if record.token != token then r == Refused("stale_token")
                  else if IsExpired(record, at, Skew(skew)) then r == Refused("lease_expired")
                  else r == Held(record)
      ensures alone ==> files == old(files) && f == FileOf(files, slot) && at == clockMs == old(clockMs)
    {
      r, f, at := ReadSlot(slot, Check(holder, token), skew);
    }

    /** leaseStatus: the record read, whether it is free, and whether it is held and expired. */
    method LeaseStatus(slot: string, skew: int) returns (r: Outcome, ghost f: File, ghost at: int)
      modifies this`files, this`clockMs
      ensures ReaderFault(allow, slot).Some? ==> r == Refused(ReaderFault(allow, slot).value)
      ensures ReaderFault(allow, slot) == None ==>
                match ReadLease(f, slot)
                case None => r == Refused("lease_corrupt")
                case Some(record) =>
                  && r.StatusIs? && r.record == record && (r.free <==> record.holder == None)
                  && (r.expired <==>
                        record.holder.Some? && record.expiresAt.Some? &&
                        (record.expiresAt.value.At? ==> record.expiresAt.value.ms + Skew(skew) <= at))
      ensures alone ==> files == old(files) && f == FileOf(files, slot) && at == clockMs == old(clockMs)
    {
      r, f, at := ReadSlot(slot, Status, skew);
    }

    /** The presented token against the token read: current, superseded or never issued. */
    method FenceAction(slot: string, token: int) returns (r: Outcome, ghost f: File, ghost at: int)
      modifies this`files, this`clockMs
      ensures ReaderFault(allow, slot).Some? ==> r == Refused(ReaderFault(allow, slot).value)
      ensures ReaderFault(allow, slot) == None ==>
                match ReadLease(f, slot)
                case None => r == Refused("lease_corrupt")
                case Some(record) =>
                  && r.Verdict? && r.current == record.token && (r.valid <==> token == record.token)
                  && (r.reason == "current" <==> token == record.token)
                  && (r.reason == "superseded" <==> token < record.token)
                  && (r.reason == "unknown_token" <==> token > record.token)
      ensures alone ==> files == old(files) && f == FileOf(files, slot)
    {
      r, f, at := ReadSlot(slot, Fence(token), 0);
    }

    /** The first pass over the slots: stops only at the holder's own unexpired slot or at a
        record it cannot read; writes nothing. */
    method OwnPass(slots: seq<string>, holder: string, skew: nat) returns (r: Option<AnyResult>, held: seq<HeldSlot>)
      requires LocksHeld(trace) == 0
      modifies this`files, this`clockMs, this`trace
      ensures LocksHeld(trace) == 0 && Writes(trace) == Writes(old(trace))
      ensures HeldByOthers(held, slots, holder)
      ensures r.Some? ==> !r.value.AllHeld?
      ensures r.Some? && r.value.AnyGranted? ==>
                && r.value.slot in slots && r.value.record.holder == Some(holder)
                && ReadLease(FileOf(files, r.value.slot), r.value.slot) == Some(r.value.record)
                && r.value.held == held && !r.value.acquired && !r.value.tookOver
      ensures alone ==> && files == old(files) && clockMs == old(clockMs) && Reports(files, held)
                        && OwnPassSpec(files, slots, holder, clockMs, skew, r)
                        && (r == None ==> AllReported(files, slots, holder, clockMs, skew, held))
    {
      held := [];
      for i := 0 to |slots|
        invariant LocksHeld(trace) == 0 && Writes(trace) == Writes(old(trace))
        invariant HeldByOthers(held, slots, holder)
        invariant alone ==> files == old(files) && clockMs == old(clockMs) && Reports(files, held)
        invariant alone ==> AllReported(files, slots[..i], holder, clockMs, skew, held)
        invariant alone ==> forall j :: 0 <= j < i ==> !EndsOwnPass(files, slots[j], holder, clockMs, skew)
      {
        ghost var before := held;
        var attempt, f, at := WithSlotLock(slots[i], OwnTry(holder), skew);
        if attempt.Refused? { return Some(AnyRefused(attempt.code)), held; }
        if attempt.Granted? {
          return Some(AnyGranted(slots[i], attempt.record, attempt.acquired, attempt.tookOver, held)), held;
        }
        held := NoteHeld(held, slots, holder, i, attempt);
        if alone { OneReported(files, slots, holder, clockMs, skew, i, before, held); }
      }
      assert slots[..|slots|] == slots;
      return None, held;
    }

    /** The second pass: grants the first free or expired slot. */
    method GrantPass(slots: seq<string>, holder: string, ttl: real, skew: nat, seen: seq<HeldSlot>)
      returns (r: AnyResult)
      requires LocksHeld(trace) == 0 && HeldByOthers(seen, slots, holder)
      modifies this`files, this`clockMs, this`trace
      ensures LocksHeld(trace) == 0
      ensures Writes(trace) == Writes(old(trace)) + if r.AnyGranted? && r.acquired then 1 else 0
      ensures r.AnyGranted? ==> && r.slot in slots && r.record.holder == Some(holder)
                                && ReadLease(FileOf(files, r.slot), r.slot) == Some(r.record)
                                && HeldByOthers(r.held, slots, holder)
      ensures r.AllHeld? ==> HeldByOthers(r.held, slots, holder) && forall slot :: slot in slots ==> Lists(r.held, slot)
      ensures alone && Reports(old(files), seen) && !r.AnyRefused? ==> Reports(old(files), r.held)
      ensures !r.AnyRefused? ==> seen <= r.held
      ensures r.AnyGranted? && !r.acquired ==> !r.tookOver
      ensures alone && OwnPassSpec(old(files), slots, holder, old(clockMs), skew, None) ==>
                GrantPassSpec(old(files), files, slots, holder, ttl, old(clockMs), skew, r)
    {
      var held := seen;
      for i := 0 to |slots|
        invariant LocksHeld(trace) == 0 && Writes(trace) == Writes(old(trace))
        invariant HeldByOthers(held, slots, holder) && seen <= held
        invariant forall j :: 0 <= j < i ==> Lists(held, slots[j])
        invariant alone ==> files == old(files) && clockMs == old(clockMs)
        invariant alone && Reports(old(files), seen) ==> Reports(files, held)
        invariant alone && OwnPassSpec(old(files), slots, holder, old(clockMs), skew, None) ==>
                    forall j :: 0 <= j < i ==> !Takeable(files, slots[j], clockMs, skew)
      {
        ghost var d := files;
        var attempt, f, at := WithSlotLock(slots[i], GrantTry(holder, ttl), skew);
        if alone && OwnPassSpec(old(files), slots, holder, old(clockMs), skew, None) {
          GrantTryAlone(d, slots[i], holder, ttl, at, skew, held);
          if attempt.Granted? {
            GrantedAt(d, files, slots, i, holder, ttl, at, skew,
                      AnyGranted(slots[i], attempt.record, attempt.acquired, attempt.tookOver, held));
          }
        }
        if attempt.Refused? { return AnyRefused(attempt.code); }
        if attempt.Granted? {
          return AnyGranted(slots[i], attempt.record, attempt.acquired, attempt.tookOver, held);
        }
        held := NoteHeld(held, slots, holder, i, attempt);
      }
      return AllHeld(held);
    }

    /** acquireAnyLease, under any interference: it never holds two locks, writes at most one
        record, what it grants is on file, and a refusal names every requested slot exactly once,
        each held by somebody else when tried. Alone, it meets AnyOfSpec. */
    method AcquireAnyLease(slots: seq<string>, holder: string, ttl: real, skew: nat) returns (r: AnyResult)
      requires LocksHeld(trace) == 0
      modifies this`files, this`clockMs, this`trace
      ensures LocksHeld(trace) == 0
      ensures Writes(trace) == Writes(old(trace)) + if r.AnyGranted? && r.acquired then 1 else 0
      ensures r.AnyGranted? ==> && r.slot in slots && r.record.holder == Some(holder)
                                && ReadLease(FileOf(files, r.slot), r.slot) == Some(r.record)
      ensures r.AllHeld? ==> HeldByOthers(r.held, slots, holder) && forall slot :: slot in slots ==> Lists(r.held, slot)
      ensures var fault := AnyFault(allow, slots, holder, ttl);
              && (fault.Some? ==> r == AnyRefused(fault.value) && files == old(files))
              && (fault == None && alone ==> AnyOfSpec(old(files), files, slots, holder, ttl, old(clockMs), skew, r))
              && (fault == None && alone && !r.AnyRefused? ==> Reports(old(files), r.held))
              && (fault == None && alone && r.AnyGranted? && r.acquired ==>
                    AllReported(old(files), slots, holder, old(clockMs), skew, r.held))
      ensures r.AnyGranted? && !r.acquired ==> !r.tookOver
    {
      var fault := AnyFault(allow, slots, holder, ttl);
      if fault.Some? {
        return AnyRefused(fault.value);
      }
      var own, held := OwnPass(slots, holder, skew);
      if own.Some? {
        return own.value;
      }
      r := GrantPass(slots, holder, ttl, skew, held);
      if alone && !r.AnyRefused? {
        MoreReported(old(files), slots, holder, old(clockMs), skew, held, r.held);
      }
    }
  }

  /** The report so far: each slot at most once, requested, and held by somebody else when tried. */
  ghost predicate HeldByOthers(held: seq<HeldSlot>, slots: seq<string>, holder: string) {
    && NoRepeats(held)
    && forall k :: 0 <= k < |held| ==> held[k].slot in slots && held[k].holder.Some? && held[k].holder != Some(holder)
  }

  /** The argument and allow-list checks of acquireAnyLease, in order. */
  function AnyFault(allow: AllowFile, slots: seq<string>, holder: string, ttl: real): Option<string> {
    if slots == [] || exists slot :: slot in slots && !SlotName(slot) then Some("invalid_slot")
    else if Blank(holder) then Some("invalid_holder")
    else if ttl <= 0.0 then Some("invalid_ttl")
    else
      match allow
      case NoAllowFile => None
      case Malformed => Some("slots_allow_invalid")
      case Listed(allowed) =>
        if exists slot :: slot in slots && slot !in allowed then Some("slot_not_allowed") else None
  }

  /** The any-of call is let through exactly if every slot may be used and holder and time to live are
      good; for one slot its refusals are those of the single-slot acquire. */
  lemma AnyRefusals(allow: AllowFile, slots: seq<string>, holder: string, ttl: real, slot: string)
    ensures AnyFault(allow, slots, holder, ttl) == None <==>
              && slots != [] && (forall s :: s in slots ==> Usable(allow, s))
              && !Blank(holder) && ttl > 0.0
    ensures AnyFault(allow, [slot], holder, ttl) == AcquireFault(allow, slot, holder, ttl)
  {
    assert slot in [slot];
    if slots != [] {
      assert slots[0] in slots;
    }
  }

  lemma GrantedAt(
    d: Dir, d': Dir, slots: seq<string>, i: nat, holder: string, ttl: real, at: int, skew: nat, r: AnyResult)
    requires i < |slots| && Takeable(d, slots[i], at, skew)
    requires forall j :: 0 <= j < i ==> !Takeable(d, slots[j], at, skew)
    requires GrantResult(d, d', slots[i], holder, ttl, at, r)
    ensures GrantPassSpec(d, d', slots, holder, ttl, at, skew, r)
  {
  }

  lemma MoreReported(
    d: Dir, slots: seq<string>, holder: string, at: int, skew: nat, held: seq<HeldSlot>, more: seq<HeldSlot>)
    requires AllReported(d, slots, holder, at, skew, held) && held <= more
    ensures AllReported(d, slots, holder, at, skew, more)
  {
    forall j | 0 <= j < |slots| && Occupied(d, slots[j], holder, at, skew) ensures Lists(more, slots[j]) {
      var k :| 0 <= k < |held| && held[k].slot == slots[j];
      assert more[k] == held[k];
    }
  }

  lemma OneReported(
    d: Dir, slots: seq<string>, holder: string, at: int, skew: nat, i: nat, held: seq<HeldSlot>, more: seq<HeldSlot>)
    requires i < |slots| && AllReported(d, slots[..i], holder, at, skew, held) && held <= more
    requires Occupied(d, slots[i], holder, at, skew) ==> Lists(more, slots[i])
    ensures AllReported(d, slots[..i + 1], holder, at, skew, more)
  {
    MoreReported(d, slots[..i], holder, at, skew, held, more);
    forall j | 0 <= j <= i && Occupied(d, slots[j], holder, at, skew) ensures Lists(more, slots[j]) {
      if j < i {
        assert slots[..i][j] == slots[j];
      }
    }
  }

  /** A slot is reported once, the first time it is seen held. */
  function NoteHeld(
    held: seq<HeldSlot>, slots: seq<string>, holder: string, i: nat, attempt: Outcome): (r: seq<HeldSlot>)
    requires i < |slots| && HeldByOthers(held, slots, holder)
    requires attempt.Passed? ==> attempt.holder != Some(holder)
    ensures HeldByOthers(r, slots, holder) && held <= r
    ensures attempt.Passed? && attempt.holder.Some? ==> Lists(r, slots[i])
  {
    if attempt.Passed? && attempt.holder.Some? && !Lists(held, slots[i]) then
      var r := held + [HeldSlot(slots[i], attempt.holder, attempt.expiresAt)];
      assert r[|held|].slot == slots[i];
      r
    else held
  }

  /** A slot that did not end the first pass is, unchanged, either takeable or someone else's. */
  lemma GrantTryAlone(d: Dir, slot: string, holder: string, ttl: real, at: int, skew: nat, held: seq<HeldSlot>)
    requires !EndsOwnPass(d, slot, holder, at, skew)
    ensures var step := AtomicStep(slot, GrantTry(holder, ttl), at, skew);
            var outcome := EffectOf(d, step).outcome;
            && (outcome.Granted? <==> Takeable(d, slot, at, skew)) && !outcome.Refused?
            && (outcome.Granted? ==>
                  GrantResult(d, Apply(d, step), slot, holder, ttl, at,
                              AnyGranted(slot, outcome.record, outcome.acquired, outcome.tookOver, held)))
            && (!outcome.Granted? ==> Apply(d, step) == d)
  {
  }

  lemma NotALockRefusal(op: Op, f: File, slot: string, at: int, skew: nat)
    ensures OnFile(op, f, slot, at, skew).outcome != Refused("lock_unavailable")
  {
  }
}
