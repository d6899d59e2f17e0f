// One slot's lease record and what each lease operation does to it
// (src/protocol/lease/store.ts). Clocks are whole milliseconds, different for every caller and
// unrelated to each other; a time to live is any positive number of seconds.

module LeaseRecords {
  import opened Wrappers

  const LEASE_SCHEMA_VERSION := "odin.lease.v1"

  /** A time stamp in a record: one that Date.parse accepts, or some other string. */
  datatype Stamp = At(ms: int) | Garbled

  datatype Record = Record(token: int, holder: Option<string>, acquiredAt: Option<Stamp>, expiresAt: Option<Stamp>)

  /** What a slot's record file holds. */
  datatype File = Absent | NotJson | Json(schema: string, slot: string, record: Record)

  const FREE := Record(0, None, None, None)

  /** isRecord: right schema and slot, a non-negative token, and either free or fully held. */
  predicate IsRecord(f: File, slot: string) {
    && f.Json? && f.schema == LEASE_SCHEMA_VERSION && f.slot == slot && f.record.token >= 0
    && var r := f.record;
       || (r.holder == None && r.acquiredAt == None && r.expiresAt == None)
       || (r.holder.Some? && r.acquiredAt.Some? && r.expiresAt.Some? && r.expiresAt.value.At?)
  }

  /** readLease: a missing file is a free slot; anything that is not a record is corrupt (None). */
  function ReadLease(f: File, slot: string): Option<Record> {
    if f.Absent? then Some(FREE)
    else if IsRecord(f, slot) then Some(f.record)
    else None
  }

  function AsFile(slot: string, r: Record): File {
    Json(LEASE_SCHEMA_VERSION, slot, r)
  }

  predicate IsExpired(r: Record, at: int, skew: nat) {
    if r.holder == None || r.expiresAt == None then false
    else
      match r.expiresAt.value
      case Garbled => true
      case At(ms) => ms + skew <= at
  }

  /** new Date(at + ttl * 1000): fractions of a millisecond are dropped toward zero. */
  function ExpiryOf(at: int, ttl: real): Stamp {
    var exact := at as real + ttl * 1000.0;
    At(if exact >= 0.0 then exact.Floor else -(-exact).Floor)
  }

  datatype Op =
    | Acquire(holder: string, ttl: real)
    | OwnTry(holder: string)
    | GrantTry(holder: string, ttl: real)
    | Renew(holder: string, token: int, ttl: real)
    | Release(holder: string, token: int)
    | Check(holder: string, token: int)
    | Fence(token: int)
    | Status

  datatype Outcome =
    | Granted(record: Record, acquired: bool, tookOver: bool)
    | Passed(holder: Option<string>, expiresAt: Option<Stamp>)
    | Updated(record: Record)
    | Held(record: Record)
    | Verdict(valid: bool, current: int, reason: string)
    | StatusIs(record: Record, free: bool, expired: bool)
    | Refused(code: string)

  /** The record to write, if any, and the result. */
  datatype Effect = Effect(write: Option<Record>, outcome: Outcome)

  function Taken(r: Record, holder: string, at: int, ttl: real): Record {
    Record(r.token + 1, Some(holder), Some(At(at)), Some(ExpiryOf(at, ttl)))
  }

  function Refreshed(r: Record, at: int, ttl: real): Record {
    r.(acquiredAt := Some(At(at)), expiresAt := Some(ExpiryOf(at, ttl)))
  }

  function AcquireBody(r: Record, holder: string, ttl: real, at: int, skew: nat): Effect {
    if r.holder == None then
      Effect(Some(Taken(r, holder, at, ttl)), Granted(Taken(r, holder, at, ttl), true, false))
    else if r.holder == Some(holder) then
      Effect(Some(Refreshed(r, at, ttl)), Granted(Refreshed(r, at, ttl), false, false))
    else if IsExpired(r, at, skew) then
      Effect(Some(Taken(r, holder, at, ttl)), Granted(Taken(r, holder, at, ttl), true, true))
    else Effect(None, Refused("slot_held"))
  }

  /** The two passes of acquireAnyLease over one slot. */
  function OwnTryBody(r: Record, holder: string, at: int, skew: nat): Effect {
    var expired := IsExpired(r, at, skew);
    if r.holder == Some(holder) && !expired then Effect(None, Granted(r, false, false))
    else if r.holder == None || expired then Effect(None, Passed(None, None))
    else Effect(None, Passed(r.holder, r.expiresAt))
  }

  function GrantTryBody(r: Record, holder: string, ttl: real, at: int, skew: nat): Effect {
    if r.holder == None || IsExpired(r, at, skew) then
      Effect(Some(Taken(r, holder, at, ttl)), Granted(Taken(r, holder, at, ttl), true, r.holder.Some?))
    else if r.holder == Some(holder) then Effect(None, Granted(r, false, false))
    else Effect(None, Passed(r.holder, r.expiresAt))
  }

  /** The three refusals renew, release and check share, in their order. */
  function HolderFault(r: Record, holder: string, token: int): Option<string> {
    if r.holder == None then Some("lease_missing")
    else if r.holder != Some(holder) then Some("not_holder")
    else if r.token != token then Some("stale_token")
    else None
  }

  function RenewBody(r: Record, holder: string, token: int, ttl: real, at: int, skew: nat): Effect {
    var fault := HolderFault(r, holder, token);
    if fault.Some? then Effect(None, Refused(fault.value))
    else if IsExpired(r, at, skew) then Effect(None, Refused("lease_expired"))
    else Effect(Some(Refreshed(r, at, ttl)), Updated(Refreshed(r, at, ttl)))
  }

  function ReleaseBody(r: Record, holder: string, token: int): Effect {
    var fault := HolderFault(r, holder, token);
    if fault.Some? then Effect(None, Refused(fault.value))
    else
      var next := Record(r.token, None, None, None);
      Effect(Some(next), Updated(next))
  }

  function CheckBody(r: Record, holder: string, token: int, at: int, skew: nat): Outcome {
    var fault := HolderFault(r, holder, token);
    if fault.Some? then Refused(fault.value)
    else if IsExpired(r, at, skew) then Refused("lease_expired")
    else Held(r)
  }

  function FenceBody(r: Record, token: int): Outcome {
    if token == r.token then Verdict(true, r.token, "current")
    else if token < r.token then Verdict(false, r.token, "superseded")
    else Verdict(false, r.token, "unknown_token")
  }

  function Body(op: Op, r: Record, at: int, skew: nat): Effect {
    match op
    case Acquire(holder, ttl) => AcquireBody(r, holder, ttl, at, skew)
    case OwnTry(holder) => OwnTryBody(r, holder, at, skew)
    case GrantTry(holder, ttl) => GrantTryBody(r, holder, ttl, at, skew)
    case Renew(holder, token, ttl) => RenewBody(r, holder, token, ttl, at, skew)
    case Release(holder, token) => ReleaseBody(r, holder, token)
    case Check(holder, token) => Effect(None, CheckBody(r, holder, token, at, skew))
    case Fence(token) => Effect(None, FenceBody(r, token))
    case Status => Effect(None, StatusIs(r, r.holder == None, IsExpired(r, at, skew)))
  }

  predicate ReadOnly(op: Op) {
    op.Check? || op.Fence? || op.Status?
  }

  /** An operation on the slot's file, as one atomic step. */
  function OnFile(op: Op, f: File, slot: string, at: int, skew: nat): Effect {
    match ReadLease(f, slot)
    case None => Effect(None, Refused("lease_corrupt"))
    case Some(r) => Body(op, r, at, skew)
  }

  // ------------------------------------------------------------------ what one operation answers

  /** Exactly these files are corrupt: text that is not JSON, a record of another schema or slot or
      with a negative token, and a half-set lease or one whose expiry is not a date. */
  lemma CorruptFiles(f: File, slot: string)
    ensures ReadLease(f, slot) == None <==>
              || f.NotJson?
              || (f.Json? && (f.schema != "odin.lease.v1" || f.slot != slot || f.record.token < 0))
              || (f.Json? && f.record.holder == None && (f.record.acquiredAt.Some? || f.record.expiresAt.Some?))
              || (f.Json? && f.record.holder.Some? && f.record.acquiredAt == None)
              || (f.Json? && f.record.holder.Some? && (f.record.expiresAt == None || f.record.expiresAt.value.Garbled?))
    ensures ReadLease(Absent, slot) == Some(Record(0, None, None, None))
  {
  }

  /** A lease of `ttl` seconds that begins at `at`. */
  predicate LeasedFrom(r: Record, holder: string, ttl: real, at: int) {
    && r.holder == Some(holder) && r.acquiredAt == Some(At(at)) && r.expiresAt.Some? && r.expiresAt.value.At?
    && var ms, exact := r.expiresAt.value.ms, at as real + ttl * 1000.0;
       if exact >= 0.0 then ms as real <= exact < ms as real + 1.0 else ms as real - 1.0 < exact <= ms as real
  }

  /** Acquiring: granted exactly over a free slot, one's own lease or an expired one; the caller's
      own keeps its token, any other grant is a new tenure under the next. */
  predicate AcquireAnswer(was: Record, holder: string, ttl: real, at: int, skew: nat, r: Outcome) {
    var own := was.holder == Some(holder);
    && (r.Granted? <==> was.holder == None || own || IsExpired(was, at, skew))
    && (!r.Granted? <==> r == Refused("slot_held"))
    && (r.Granted? ==>
          && LeasedFrom(r.record, holder, ttl, at) && r.record.token == was.token + (if own then 0 else 1)
          && (r.acquired <==> !own) && (r.tookOver <==> was.holder.Some? && !own))
  }

  /** Renewing: the holder's unexpired lease, under its token, begins anew; else the first thing
      wrong is named. */
  predicate RenewAnswer(was: Record, holder: string, token: int, ttl: real, at: int, skew: nat, r: Outcome) {
    if was.holder == None then r == Refused("lease_missing")
    else if was.holder != Some(holder) then r == Refused("not_holder")
    else if was.token != token then r == Refused("stale_token")
    else if IsExpired(was, at, skew) then r == Refused("lease_expired")
    else r.Updated? && LeasedFrom(r.record, holder, ttl, at) && r.record.token == token
  }

  /** Releasing: the holder's lease, expired or not, is given up and its token stays. */
  predicate ReleaseAnswer(was: Record, holder: string, token: int, r: Outcome) {
    if was.holder == None then r == Refused("lease_missing")
    else if was.holder != Some(holder) then r == Refused("not_holder")
    else if was.token != token then r == Refused("stale_token")
    else r == Updated(Record(token, None, None, None))
  }

  function RecordIn(r: Outcome): Option<Record> {
    match r
    case Granted(record, _, _) => Some(record)
    case Updated(record) => Some(record)
    case _ => None
  }

  /** What the three locked operations answer over any readable record, and that they write exactly
      what they answer. */
  lemma LockedAnswers(was: Record, holder: string, token: int, ttl: real, at: int, skew: nat)
    ensures var acquire := Body(Acquire(holder, ttl), was, at, skew);
            AcquireAnswer(was, holder, ttl, at, skew, acquire.outcome) && acquire.write == RecordIn(acquire.outcome)
    ensures var renew := Body(Renew(holder, token, ttl), was, at, skew);
            RenewAnswer(was, holder, token, ttl, at, skew, renew.outcome) && renew.write == RecordIn(renew.outcome)
    ensures var release := Body(Release(holder, token), was, at, skew);
            ReleaseAnswer(was, holder, token, release.outcome) && release.write == RecordIn(release.outcome)
  {
    LeaseFrom(at, ttl, holder);
  }

  lemma LeaseFrom(at: int, ttl: real, holder: string)
    ensures forall token ::
              LeasedFrom(Record(token, Some(holder), Some(At(at)), Some(ExpiryOf(at, ttl))), holder, ttl, at)
  {
  }

  // ------------------------------------------------------------------ what one operation keeps

  /** `later` can follow `earlier` in one slot's life: a newer tenure, or the same tenure with the
      same holder or already given up. */
  predicate Follows(earlier: Record, later: Record) {
    || earlier.token < later.token
    || (earlier.token == later.token && (later.holder == earlier.holder || later.holder == None))
  }

  lemma FollowsTransitive(a: Record, b: Record, c: Record)
    requires Follows(a, b) && Follows(b, c)
    ensures Follows(a, c)
  {
  }

  /** Every write moves the slot forward; a holder who was not the holder is granted only with a
      strictly higher token, and only over a free or (by the grantee's clock) expired lease. */
  lemma WritesMoveForward(op: Op, r: Record, at: int, skew: nat)
    requires Body(op, r, at, skew).write.Some?
    ensures var next := Body(op, r, at, skew).write.value;
            && Follows(r, next)
            && (next.holder.Some? && next.holder != r.holder ==>
                  next.token == r.token + 1 && (r.holder == None || IsExpired(r, at, skew)))
            && (next.token == r.token || next.token == r.token + 1)
  {
  }

  /** What is written is a record again: never half set, never with an unreadable expiry. */
  lemma WritesAreRecords(op: Op, f: File, slot: string, at: int, skew: nat)
    requires OnFile(op, f, slot, at, skew).write.Some?
    ensures IsRecord(AsFile(slot, OnFile(op, f, slot, at, skew).write.value), slot)
    ensures ReadLease(AsFile(slot, OnFile(op, f, slot, at, skew).write.value), slot) ==
            OnFile(op, f, slot, at, skew).write
    ensures ReadLease(f, slot).Some? && !ReadOnly(op) && !op.OwnTry?
  {
  }

  /** The two acquires part ways on one's own expired lease: the single-slot one revives the
      tenure under its token, the any-of one starts a new tenure. */
  lemma OwnExpiredLease(r: Record, holder: string, ttl: real, at: int, skew: nat)
    requires r.holder == Some(holder) && IsExpired(r, at, skew)
    ensures AcquireBody(r, holder, ttl, at, skew).write.Some? && GrantTryBody(r, holder, ttl, at, skew).write.Some?
    ensures AcquireBody(r, holder, ttl, at, skew).write.value.token == r.token
    ensures GrantTryBody(r, holder, ttl, at, skew).write.value.token == r.token + 1
    ensures RenewBody(r, holder, r.token, ttl, at, skew) == Effect(None, Refused("lease_expired"))
  {
  }

  /** Over an expired record both acquires succeed; the single-slot one raises the token exactly
      when the lease was somebody else's, the any-of one always. */
  lemma ExpiredTokens(r: Record, holder: string, ttl: real, at: int, skew: nat)
    requires IsExpired(r, at, skew)
    ensures AcquireBody(r, holder, ttl, at, skew).write.Some? && GrantTryBody(r, holder, ttl, at, skew).write.Some?
    ensures AcquireBody(r, holder, ttl, at, skew).write.value.token > r.token <==> r.holder != Some(holder)
    ensures GrantTryBody(r, holder, ttl, at, skew).write.value.token > r.token
  {
  }

  /** A holder keeps the slot for exactly the term it was given: with the written token the check
      succeeds at every clock before the expiry plus the skew, and at none after; and until then,
      on that same clock, nobody else can acquire the slot. */
  lemma HeldForItsTerm(
    op: Op, r: Record, at: int, skew: nat, holder: string, ttl: real, rival: string, rivalTtl: real, later: int)
    requires || op == Acquire(holder, ttl)
             || op == GrantTry(holder, ttl)
             || (op.Renew? && op.holder == holder && op.ttl == ttl)
    requires Body(op, r, at, skew).write.Some? && rival != holder && at as real + ttl * 1000.0 >= 0.0
    ensures var next := Body(op, r, at, skew).write.value;
            var held := CheckBody(next, holder, next.token, later, skew).Held?;
            && (held <==> (later - skew + 1) as real <= at as real + ttl * 1000.0)
            && (AcquireBody(next, rival, rivalTtl, later, skew).write.Some? <==> !held)
            && (GrantTryBody(next, rival, rivalTtl, later, skew).write.Some? <==> !held)
  {
    var exact := at as real + ttl * 1000.0;
    assert ExpiryOf(at, ttl) == At(exact.Floor);
    assert later < exact.Floor + skew <==> (later - skew + 1) as real <= exact;
  }

  // ------------------------------------------------------------------ runs of atomic steps

  type Dir = map<string, File>

  function FileOf(d: Dir, slot: string): File {
    if slot in d then d[slot] else Absent
  }

  datatype AtomicStep = AtomicStep(slot: string, op: Op, at: int, skew: nat)

  function EffectOf(d: Dir, s: AtomicStep): Effect {
    OnFile(s.op, FileOf(d, s.slot), s.slot, s.at, s.skew)
  }

  function Apply(d: Dir, s: AtomicStep): Dir {
    var write := EffectOf(d, s).write;
    if write.Some? then d[s.slot := AsFile(s.slot, write.value)] else d
  }

  function RunAll(d: Dir, steps: seq<AtomicStep>): Dir {
    if steps == [] then d else Apply(RunAll(d, steps[..|steps| - 1]), steps[|steps| - 1])
  }

  /** The slot's record before step `i` of the run. */
  function RecordAt(d: Dir, steps: seq<AtomicStep>, i: nat, slot: string): Option<Record>
    requires i <= |steps|
  {
    ReadLease(FileOf(RunAll(d, steps[..i]), slot), slot)
  }

  lemma StepMovesForward(d: Dir, s: AtomicStep, slot: string)
    requires ReadLease(FileOf(d, slot), slot).Some?
    ensures var after := ReadLease(FileOf(Apply(d, s), slot), slot);
            after.Some? && Follows(ReadLease(FileOf(d, slot), slot).value, after.value)
  {
    if s.slot == slot && EffectOf(d, s).write.Some? {
      WritesMoveForward(s.op, ReadLease(FileOf(d, slot), slot).value, s.at, s.skew);
      WritesAreRecords(s.op, FileOf(d, slot), slot, s.at, s.skew);
    }
  }

  /** Over any run a slot only moves forward: the token never falls, and at an unchanged token
      the holder is unchanged or gone. A readable slot stays readable. */
  lemma {:induction false} RunsMoveForward(d: Dir, steps: seq<AtomicStep>, i: nat, j: nat, slot: string)
    requires i <= j <= |steps| && RecordAt(d, steps, i, slot).Some?
    ensures RecordAt(d, steps, j, slot).Some?
    ensures Follows(RecordAt(d, steps, i, slot).value, RecordAt(d, steps, j, slot).value)
  {
    if i < j {
      RunsMoveForward(d, steps, i, j - 1, slot);
      assert steps[..j][..j - 1] == steps[..j - 1];
      StepMovesForward(RunAll(d, steps[..j - 1]), steps[j - 1], slot);
      FollowsTransitive(RecordAt(d, steps, i, slot).value, RecordAt(d, steps, j - 1, slot).value,
                        RecordAt(d, steps, j, slot).value);
    }
  }

  /** No (slot, token) ever has two holders. */
  lemma OneHolderPerToken(d: Dir, steps: seq<AtomicStep>, i: nat, j: nat, slot: string)
    requires i <= |steps| && j <= |steps|
    requires RecordAt(d, steps, i, slot).Some? && RecordAt(d, steps, j, slot).Some?
    requires RecordAt(d, steps, i, slot).value.token == RecordAt(d, steps, j, slot).value.token
    requires RecordAt(d, steps, i, slot).value.holder.Some? && RecordAt(d, steps, j, slot).value.holder.Some?
    ensures RecordAt(d, steps, i, slot).value.holder == RecordAt(d, steps, j, slot).value.holder
  {
    if i <= j {
      RunsMoveForward(d, steps, i, j, slot);
    } else {
      RunsMoveForward(d, steps, j, i, slot);
    }
  }

  /** The outcome of performing `op` on the slot before step `i`, at any clock. */
  function OutcomeAt(d: Dir, steps: seq<AtomicStep>, i: nat, slot: string, op: Op, at: int, skew: nat): Outcome
    requires i <= |steps|
  {
    OnFile(op, FileOf(RunAll(d, steps[..i]), slot), slot, at, skew).outcome
  }

  /** No ABA: if the same check succeeds at two points of a run, whatever the two clocks, the
      holder held that very tenure at every point between. */
  lemma CheckedTwiceHeldThroughout(
    d: Dir, steps: seq<AtomicStep>, i: nat, j: nat, k: nat, slot: string,
    holder: string, token: int, at1: int, at2: int, skew: nat)
    requires i <= j <= k <= |steps|
    requires OutcomeAt(d, steps, i, slot, Check(holder, token), at1, skew).Held?
    requires OutcomeAt(d, steps, k, slot, Check(holder, token), at2, skew).Held?
    ensures RecordAt(d, steps, j, slot).Some?
    ensures RecordAt(d, steps, j, slot).value.holder == Some(holder)
    ensures RecordAt(d, steps, j, slot).value.token == token
  {
    RunsMoveForward(d, steps, i, j, slot);
    RunsMoveForward(d, steps, j, k, slot);
  }

  /** Fencing is sound: a token judged superseded stays superseded for ever, and one judged
      current is never judged unknown afterwards. */
  lemma SupersededStays(d: Dir, steps: seq<AtomicStep>, i: nat, j: nat, slot: string, token: int, at: int, skew: nat)
    requires i <= j <= |steps|
    ensures var first := OutcomeAt(d, steps, i, slot, Fence(token), at, skew);
            var second := OutcomeAt(d, steps, j, slot, Fence(token), at, skew);
            && (first.Verdict? ==> second.Verdict? && first.current <= second.current)
            && (first.Verdict? && first.reason == "superseded" ==> second.reason == "superseded" && !second.valid)
            && (first.Verdict? && first.valid ==> second.reason != "unknown_token")
  {
    if RecordAt(d, steps, i, slot).Some? {
      RunsMoveForward(d, steps, i, j, slot);
    }
  }

  /** A grant to a new holder voids every earlier token: after a takeover the old holder's token
      is superseded at once and for ever. */
  lemma NewHolderFencesOld(d: Dir, steps: seq<AtomicStep>, i: nat, j: nat, slot: string, at: int, skew: nat)
    requires i < j <= |steps| && steps[i].slot == slot && RecordAt(d, steps, i, slot).Some?
    requires EffectOf(RunAll(d, steps[..i]), steps[i]).write.Some?
    requires var next := EffectOf(RunAll(d, steps[..i]), steps[i]).write.value;
             next.holder.Some? && next.holder != RecordAt(d, steps, i, slot).value.holder
    ensures var verdict := OutcomeAt(d, steps, j, slot, Fence(RecordAt(d, steps, i, slot).value.token), at, skew);
            verdict.Verdict? && verdict.reason == "superseded"
  {
    var before := RunAll(d, steps[..i]);
    assert steps[..i + 1][..i] == steps[..i];
    WritesMoveForward(steps[i].op, RecordAt(d, steps, i, slot).value, steps[i].at, steps[i].skew);
    WritesAreRecords(steps[i].op, FileOf(before, slot), slot, steps[i].at, steps[i].skew);
    RunsMoveForward(d, steps, i + 1, j, slot);
  }

  /** Nobody writes the slot in this run. */
  predicate LeftAlone(steps: seq<AtomicStep>, slot: string) {
    forall i :: 0 <= i < |steps| ==> steps[i].slot != slot || ReadOnly(steps[i].op)
  }

  lemma {:induction false} LeftAloneStays(d: Dir, steps: seq<AtomicStep>, slot: string)
    requires LeftAlone(steps, slot)
    ensures FileOf(RunAll(d, steps), slot) == FileOf(d, slot)
  {
    if steps != [] {
      LeftAloneStays(d, steps[..|steps| - 1], slot);
    }
  }

  /** The next acquire of a slot that nobody has leased: anyone gets it, under the token after `token`. */
  ghost predicate NextAcquireGets(d: Dir, slot: string, token: int) {
    forall steps, holder, ttl, at, skew: nat :: LeftAlone(steps, slot) ==>
      var r := OnFile(Acquire(holder, ttl), FileOf(RunAll(d, steps), slot), slot, at, skew).outcome;
      && r.Granted? && r.acquired && !r.tookOver
      && r.record.holder == Some(holder) && r.record.token == token + 1
  }

  lemma FreeSlotIsGranted(d: Dir, slot: string, token: int)
    requires ReadLease(FileOf(d, slot), slot) == Some(Record(token, None, None, None))
    ensures NextAcquireGets(d, slot, token)
  {
    forall steps, holder, ttl, at, skew: nat | LeftAlone(steps, slot)
      ensures var r := OnFile(Acquire(holder, ttl), FileOf(RunAll(d, steps), slot), slot, at, skew).outcome;
              && r.Granted? && r.acquired && !r.tookOver
              && r.record.holder == Some(holder) && r.record.token == token + 1
    {
      LeftAloneStays(d, steps, slot);
    }
  }

  /** A slot without a record file is granted to the first comer under token 1, and a released one
      to the next under the token after the released, whatever happens to other slots meanwhile. */
  lemma ReleasedIsFree(d: Dir, slot: string, holder: string, token: int, at: int, skew: nat)
    ensures FileOf(d, slot).Absent? ==> NextAcquireGets(d, slot, 0)
    ensures var release := AtomicStep(slot, Release(holder, token), at, skew);
            EffectOf(d, release).outcome.Updated? ==> NextAcquireGets(Apply(d, release), slot, token)
  {
    if FileOf(d, slot).Absent? {
      FreeSlotIsGranted(d, slot, 0);
    }
    var release := AtomicStep(slot, Release(holder, token), at, skew);
    if EffectOf(d, release).outcome.Updated? {
      WritesAreRecords(release.op, FileOf(d, slot), slot, at, skew);
      FreeSlotIsGranted(Apply(d, release), slot, token);
    }
  }
}
