// The lease directory under concurrency: each locked operation is mkdir, read, decide, write a
// temp file, rename, rmdir; readers take no lock. Every interleaving is shown to be a sequence
// of the atomic steps of LeaseRecords, in rename order.

module LeaseProtocol {
  import opened Wrappers
  import opened LeaseRecords

  type Pid = nat

  /** One call: an operation on a slot, and a number that tells calls apart. */
  datatype Call = Call(id: nat, slot: string, op: Op, skew: nat)

  /** A completed atomic step of a call: when its process read its clock, and what it answered. */
  datatype Lin = Lin(id: nat, step: AtomicStep, outcome: Outcome)

  datatype Pc =
    | Idle
    | Waits(call: Call)
    | Locked(call: Call)
    | HasRead(call: Call, file: File)
    | HasTmp(call: Call, file: File, at: int)
    | Leaves(slot: string, done: Option<Lin>)
    | Looked(done: Option<Lin>)
    | Dead
  {
    function SlotHeld(): Option<string> {
      match this
      case Locked(call) => Some(call.slot)
      case HasRead(call, _) => Some(call.slot)
      case HasTmp(call, _, _) => Some(call.slot)
      case Leaves(slot, _) => Some(slot)
      case _ => None
    }

    /** The call that has not taken effect yet. */
    function Open(): Option<Call> {
      match this
      case Waits(call) => Some(call)
      case Locked(call) => Some(call)
      case HasRead(call, _) => Some(call)
      case HasTmp(call, _, _) => Some(call)
      case _ => None
    }
  }

  /** The shared directory (`files`, `tmps`, `locks`), the processes, and the history: the steps
      that took effect, the answers returned, and the calls made, which `calls` counts. */
  datatype State = State(
    files: Dir, tmps: map<Pid, File>, locks: map<string, Pid>, procs: map<Pid, Pc>,
    lin: seq<Lin>, returned: seq<Lin>, calls: nat, begun: seq<Call>)

  datatype Action =
    | Begin(slot: string, op: Op, skew: nat)
    | TakeLock
    | GiveUp
    | Read
    | Decide(at: int)
    | Rename
    | Fail
    | Unlock
    | Look(slot: string, op: Op, at: int, skew: nat)
    | Answer
    | Die

  function Goto(s: State, p: Pid, pc: Pc): State {
    s.(procs := s.procs[p := pc])
  }

  function StepOf(call: Call, at: int): AtomicStep {
    AtomicStep(call.slot, call.op, at, call.skew)
  }

  function DoBegin(s: State, p: Pid, slot: string, op: Op, skew: nat): State
    requires p in s.procs
  {
    if s.procs[p].Idle? && !ReadOnly(op) then
      var call := Call(s.calls, slot, op, skew);
      Goto(s, p, Waits(call)).(calls := s.calls + 1, begun := s.begun + [call])
    else s
  }

  function DoTakeLock(s: State, p: Pid): State
    requires p in s.procs
  {
    if s.procs[p].Waits? && s.procs[p].call.slot !in s.locks then
      Goto(s, p, Locked(s.procs[p].call)).(locks := s.locks[s.procs[p].call.slot := p])
    else s
  }

  function DoGiveUp(s: State, p: Pid): State
    requires p in s.procs
  {
    if s.procs[p].Waits? then Goto(s, p, Idle) else s
  }

  function DoRead(s: State, p: Pid): State
    requires p in s.procs
  {
    if s.procs[p].Locked? then
      Goto(s, p, HasRead(s.procs[p].call, FileOf(s.files, s.procs[p].call.slot)))
    else s
  }

  /** Read the clock and decide: an operation that writes nothing takes effect here. */
  function DoDecide(s: State, p: Pid, at: int): State
    requires p in s.procs
  {
    if !s.procs[p].HasRead? then s
    else
      var call, file := s.procs[p].call, s.procs[p].file;
      var effect := OnFile(call.op, file, call.slot, at, call.skew);
      match effect.write
      case Some(record) => Goto(s, p, HasTmp(call, file, at)).(tmps := s.tmps[p := AsFile(call.slot, record)])
      case None =>
        var done := Lin(call.id, StepOf(call, at), effect.outcome);
        Goto(s, p, Leaves(call.slot, Some(done))).(lin := s.lin + [done])
  }

  /** The rename is where a writing operation takes effect. */
  function DoRename(s: State, p: Pid): State
    requires p in s.procs
  {
    if !s.procs[p].HasTmp? || p !in s.tmps then s
    else
      var call, at := s.procs[p].call, s.procs[p].at;
      var effect := OnFile(call.op, s.procs[p].file, call.slot, at, call.skew);
      var done := Lin(call.id, StepOf(call, at), effect.outcome);
      Goto(s, p, Leaves(call.slot, Some(done))).(
        files := s.files[call.slot := s.tmps[p]], tmps := s.tmps - {p}, lin := s.lin + [done])
  }

  /** A file-system error under the lock: nothing takes effect and the lock is still released. */
  function DoFail(s: State, p: Pid): State
    requires p in s.procs
  {
    match s.procs[p]
    case Locked(call) => Goto(s, p, Leaves(call.slot, None))
    case HasRead(call, _) => Goto(s, p, Leaves(call.slot, None))
    case HasTmp(call, _, _) => Goto(s, p, Leaves(call.slot, None))
    case _ => s
  }

  function Returned(done: Option<Lin>): seq<Lin> {
    if done.Some? then [done.value] else []
  }

  function DoUnlock(s: State, p: Pid): State
    requires p in s.procs
  {
    if s.procs[p].Leaves? then
      Goto(s, p, Idle).(locks := s.locks - {s.procs[p].slot}, returned := s.returned + Returned(s.procs[p].done))
    else s
  }

  /** check, status and fence read the file once, under no lock. Clocks are arbitrary, so the
      clock reading is placed at the file read. */
  function DoLook(s: State, p: Pid, slot: string, op: Op, at: int, skew: nat): State
    requires p in s.procs
  {
    if s.procs[p].Idle? && ReadOnly(op) then
      var outcome := OnFile(op, FileOf(s.files, slot), slot, at, skew).outcome;
      var done := Lin(s.calls, AtomicStep(slot, op, at, skew), outcome);
      Goto(s, p, Looked(Some(done))).(
        lin := s.lin + [done], calls := s.calls + 1, begun := s.begun + [Call(s.calls, slot, op, skew)])
    else s
  }

  function DoAnswer(s: State, p: Pid): State
    requires p in s.procs
  {
    if s.procs[p].Looked? then
      Goto(s, p, Idle).(returned := s.returned + Returned(s.procs[p].done))
    else s
  }

  function Do(s: State, p: Pid, a: Action): State {
    if p !in s.procs then s
    else
      match a
      case Begin(slot, op, skew) => DoBegin(s, p, slot, op, skew)
      case TakeLock => DoTakeLock(s, p)
      case GiveUp => DoGiveUp(s, p)
      case Read => DoRead(s, p)
      case Decide(at) => DoDecide(s, p, at)
      case Rename => DoRename(s, p)
      case Fail => DoFail(s, p)
      case Unlock => DoUnlock(s, p)
      case Look(slot, op, at, skew) => DoLook(s, p, slot, op, at, skew)
      case Answer => DoAnswer(s, p)
      case Die => Goto(s, p, Dead)
  }

  datatype Step = Step(pid: Pid, action: Action)

  function Run(s: State, steps: seq<Step>): State {
    if steps == [] then s
    else Do(Run(s, steps[..|steps| - 1]), steps[|steps| - 1].pid, steps[|steps| - 1].action)
  }

  // ------------------------------------------------------------------ linearisation

  function Steps(lin: seq<Lin>): seq<AtomicStep> {
    if lin == [] then [] else Steps(lin[..|lin| - 1]) + [lin[|lin| - 1].step]
  }

  /** Run atomically from `d`, every recorded step would have answered what it did answer. */
  predicate Legal(d: Dir, lin: seq<Lin>) {
    lin == [] ||
    (&& Legal(d, lin[..|lin| - 1])
     && lin[|lin| - 1].outcome == EffectOf(RunAll(d, Steps(lin[..|lin| - 1])), lin[|lin| - 1].step).outcome)
  }

  ghost predicate PcInv(s: State, p: Pid, pc: Pc) {
    && (pc.SlotHeld().Some? ==> pc.SlotHeld().value in s.locks && s.locks[pc.SlotHeld().value] == p)
    && (pc.Open().Some? ==> !ReadOnly(pc.Open().value.op) && pc.Open().value.id < s.calls
                            && forall i :: 0 <= i < |s.lin| ==> s.lin[i].id != pc.Open().value.id)
    && match pc
       case HasRead(call, file) => FileOf(s.files, call.slot) == file
       case HasTmp(call, file, at) =>
         && FileOf(s.files, call.slot) == file
         && var write := OnFile(call.op, file, call.slot, at, call.skew).write;
            write.Some? && p in s.tmps && s.tmps[p] == AsFile(call.slot, write.value)
       case Leaves(_, done) => done.Some? ==> done.value in s.lin
       case Looked(done) => done.Some? ==> done.value in s.lin
       case _ => true
  }

  /** Calls of different processes that have not taken effect are different calls. */
  ghost predicate CallsApart(s: State) {
    forall p, q :: p in s.procs && q in s.procs && p != q
                   && s.procs[p].Open().Some? && s.procs[q].Open().Some? ==>
                   s.procs[p].Open().value.id != s.procs[q].Open().value.id
  }

  ghost predicate LinInv(d: Dir, s: State) {
    && Legal(d, s.lin) && RunAll(d, Steps(s.lin)) == s.files
    && (forall i :: 0 <= i < |s.lin| ==> s.lin[i].id < s.calls)
    && (forall i, j :: 0 <= i < j < |s.lin| ==> s.lin[i].id != s.lin[j].id)
    && (forall r :: r in s.returned ==> r in s.lin)
  }

  ghost predicate Inv(d: Dir, s: State) {
    && (forall p :: p in s.procs ==> PcInv(s, p, s.procs[p]))
    && CallsApart(s)
    && LinInv(d, s)
  }

  /** Any files at all, no lock taken, every process idle. */
  predicate Initial(s: State) {
    && s.locks == map[] && s.lin == [] && s.returned == [] && s.calls == 0 && s.begun == []
    && forall p :: p in s.procs ==> s.procs[p] == Idle
  }

  /** What a step of `p` may do to the shared state without disturbing the other processes. */
  ghost predicate Frames(s: State, s': State, p: Pid, pc: Pc) {
    && p in s.procs && s'.procs == s.procs[p := pc] && s.calls <= s'.calls
    && (forall q :: q in s.tmps && q != p ==> q in s'.tmps && s'.tmps[q] == s.tmps[q])
    && (forall slot :: slot in s.locks && s.locks[slot] != p ==> slot in s'.locks && s'.locks[slot] == s.locks[slot])
    && (forall slot :: slot in s.locks && s.locks[slot] != p ==> FileOf(s'.files, slot) == FileOf(s.files, slot))
    && (s'.lin == s.lin || (|s'.lin| == |s.lin| + 1 && s'.lin[..|s.lin|] == s.lin))
    && (s'.lin != s.lin ==> s'.lin[|s.lin|].id == s.calls
                            || (s.procs[p].Open().Some? && s'.lin[|s.lin|].id == s.procs[p].Open().value.id))
    && (pc.Open().Some? ==> s.procs[p].Open() == pc.Open() || pc.Open().value.id == s.calls < s'.calls)
  }

  lemma OtherPc(d: Dir, s: State, s': State, p: Pid, pc: Pc, q: Pid)
    requires Inv(d, s) && Frames(s, s', p, pc) && q in s.procs && q != p
    ensures PcInv(s', q, s.procs[q])
  {
    assert PcInv(s, q, s.procs[q]);
    if s.procs[q].Open().Some? {
      forall i | 0 <= i < |s'.lin|
        ensures s'.lin[i].id != s.procs[q].Open().value.id
      {
        if i < |s.lin| {
          assert s'.lin[..|s.lin|][i] == s.lin[i];
        }
      }
    }
    match s.procs[q]
    case Leaves(_, done) => InPrefix(s.lin, s'.lin, done);
    case Looked(done) => InPrefix(s.lin, s'.lin, done);
    case _ =>
  }

  lemma InPrefix(lin: seq<Lin>, lin': seq<Lin>, done: Option<Lin>)
    requires |lin| <= |lin'| && lin'[..|lin|] == lin
    ensures done.Some? && done.value in lin ==> done.value in lin'
  {
  }

  lemma Keeps(d: Dir, s: State, s': State, p: Pid, pc: Pc)
    requires Inv(d, s) && Frames(s, s', p, pc)
    requires PcInv(s', p, pc) && LinInv(d, s')
    ensures Inv(d, s')
  {
    forall q | q in s'.procs ensures PcInv(s', q, s'.procs[q]) {
      if q != p {
        OtherPc(d, s, s', p, pc, q);
      }
    }
    ApartKept(s, s', p, pc);
  }

  lemma ApartKept(s: State, s': State, p: Pid, pc: Pc)
    requires (forall q :: q in s.procs ==> PcInv(s, q, s.procs[q])) && CallsApart(s) && Frames(s, s', p, pc)
    ensures CallsApart(s')
  {
    forall q, r | q in s'.procs && r in s'.procs && q != r
                  && s'.procs[q].Open().Some? && s'.procs[r].Open().Some?
      ensures s'.procs[q].Open().value.id != s'.procs[r].Open().value.id
    {
      assert PcInv(s, q, s.procs[q]) && PcInv(s, r, s.procs[r]);
    }
  }

  /** Appending a step that answers as the atomic operation would, and does to the files what it
      would, keeps the linearisation. */
  lemma LinSnoc(d: Dir, s: State, s': State, done: Lin)
    requires LinInv(d, s)
    requires s'.lin == s.lin + [done] && s'.returned == s.returned && s.calls <= s'.calls
    requires done.outcome == EffectOf(s.files, done.step).outcome
    requires s'.files == Apply(s.files, done.step)
    requires done.id < s'.calls && forall i :: 0 <= i < |s.lin| ==> s.lin[i].id != done.id
    ensures LinInv(d, s')
  {
    LegalSnoc(d, s.lin, done, s.files);
    RunSnoc(d, s.lin, done);
    forall i, j | 0 <= i < j < |s'.lin| ensures s'.lin[i].id != s'.lin[j].id {
      assert s'.lin[i] == s.lin[i];
    }
  }

  lemma RunSnoc(d: Dir, lin: seq<Lin>, done: Lin)
    ensures RunAll(d, Steps(lin + [done])) == Apply(RunAll(d, Steps(lin)), done.step)
  {
    assert (lin + [done])[..|lin|] == lin;
    assert (Steps(lin) + [done.step])[..|Steps(lin)|] == Steps(lin);
  }

  lemma LegalSnoc(d: Dir, lin: seq<Lin>, done: Lin, files: Dir)
    requires Legal(d, lin) && RunAll(d, Steps(lin)) == files && done.outcome == EffectOf(files, done.step).outcome
    ensures Legal(d, lin + [done])
  {
    assert (lin + [done])[..|lin|] == lin;
  }

  lemma LinSame(d: Dir, s: State, s': State)
    requires LinInv(d, s) && s'.lin == s.lin && s'.files == s.files && s.calls <= s'.calls
    requires forall r :: r in s'.returned ==> r in s.returned || r in s.lin
    ensures LinInv(d, s')
  {
  }

  lemma QuietInv(d: Dir, s: State, s': State, p: Pid, pc: Pc)
    requires Inv(d, s) && p in s.procs
    requires s' == s.(procs := s.procs[p := pc], locks := s'.locks, calls := s'.calls, returned := s'.returned,
                      begun := s'.begun)
    requires Frames(s, s', p, pc) && PcInv(s', p, pc)
    requires forall r :: r in s'.returned ==> r in s.returned || r in s.lin
    ensures Inv(d, s')
  {
    LinSame(d, s, s');
    Keeps(d, s, s', p, pc);
  }

  lemma BeginInv(d: Dir, s: State, p: Pid, slot: string, op: Op, skew: nat, s': State)
    requires Inv(d, s) && p in s.procs && s' == DoBegin(s, p, slot, op, skew)
    ensures Inv(d, s')
  {
    if s.procs[p].Idle? && !ReadOnly(op) {
      assert PcInv(s', p, s'.procs[p]);
      assert Frames(s, s', p, s'.procs[p]);
      QuietInv(d, s, s', p, s'.procs[p]);
    }
  }

  lemma LockedPc(s: State, s': State, p: Pid, call: Call)
    requires PcInv(s, p, Waits(call))
    requires s'.lin == s.lin && s'.calls == s.calls && s'.locks == s.locks[call.slot := p]
    ensures PcInv(s', p, Locked(call))
  {
  }

  lemma TakeLockInv(d: Dir, s: State, p: Pid)
    requires Inv(d, s) && p in s.procs
    ensures Inv(d, DoTakeLock(s, p))
  {
    if s.procs[p].Waits? && s.procs[p].call.slot !in s.locks {
      var s', call := DoTakeLock(s, p), s.procs[p].call;
      assert PcInv(s, p, s.procs[p]);
      LockedPc(s, s', p, call);
      assert Frames(s, s', p, Locked(call));
      QuietInv(d, s, s', p, Locked(call));
    }
  }

  lemma GiveUpInv(d: Dir, s: State, p: Pid)
    requires Inv(d, s) && p in s.procs
    ensures Inv(d, DoGiveUp(s, p))
  {
    if s.procs[p].Waits? {
      QuietInv(d, s, DoGiveUp(s, p), p, Idle);
    }
  }

  lemma ReadInv(d: Dir, s: State, p: Pid)
    requires Inv(d, s) && p in s.procs
    ensures Inv(d, DoRead(s, p))
  {
    if s.procs[p].Locked? {
      var s' := DoRead(s, p);
      assert PcInv(s, p, s.procs[p]);
      QuietInv(d, s, s', p, s'.procs[p]);
    }
  }

  /** A locked operation that writes nothing takes effect when it decides. */
  lemma DecideAnswerInv(d: Dir, s: State, p: Pid, call: Call, done: Lin)
    requires Inv(d, s) && p in s.procs && s.procs[p].HasRead? && s.procs[p].call == call
    requires done.id == call.id && done.step.slot == call.slot
    requires EffectOf(s.files, done.step).write == None && EffectOf(s.files, done.step).outcome == done.outcome
    ensures Inv(d, Goto(s, p, Leaves(call.slot, Some(done))).(lin := s.lin + [done]))
  {
    var pc := Leaves(call.slot, Some(done));
    var s' := Goto(s, p, pc).(lin := s.lin + [done]);
    assert PcInv(s, p, s.procs[p]);
    assert LinInv(d, s') by { LinSnoc(d, s, s', done); }
    assert s'.lin[|s.lin|] == done && PcInv(s', p, pc);
    assert Frames(s, s', p, pc);
    Keeps(d, s, s', p, pc);
  }

  lemma TmpFrames(s: State, p: Pid, pc: Pc, tmp: File)
    requires p in s.procs && (pc.Open().Some? ==> s.procs[p].Open() == pc.Open())
    ensures Frames(s, Goto(s, p, pc).(tmps := s.tmps[p := tmp]), p, pc)
  {
  }

  lemma DecideWriteInv(d: Dir, s: State, p: Pid, at: int)
    requires Inv(d, s) && p in s.procs && s.procs[p].HasRead? && DoDecide(s, p, at).procs[p].HasTmp?
    ensures Inv(d, DoDecide(s, p, at))
  {
    var s', pc := DoDecide(s, p, at), DoDecide(s, p, at).procs[p];
    assert PcInv(s, p, s.procs[p]);
    LinSame(d, s, s');
    TmpFrames(s, p, pc, s'.tmps[p]);
    assert PcInv(s', p, pc);
    Keeps(d, s, s', p, pc);
  }

  lemma DecideInv(d: Dir, s: State, p: Pid, at: int)
    requires Inv(d, s) && p in s.procs
    ensures Inv(d, DoDecide(s, p, at))
  {
    if s.procs[p].HasRead? {
      var call := s.procs[p].call;
      var effect := OnFile(call.op, s.procs[p].file, call.slot, at, call.skew);
      assert FileOf(s.files, call.slot) == s.procs[p].file by { assert PcInv(s, p, s.procs[p]); }
      if effect.write.Some? {
        DecideWriteInv(d, s, p, at);
      } else {
        DecideAnswerInv(d, s, p, call, Lin(call.id, StepOf(call, at), effect.outcome));
      }
    }
  }

  lemma RenameFrames(s: State, p: Pid, slot: string, file: File, done: Lin)
    requires p in s.procs && s.procs[p].Open().Some? && done.id == s.procs[p].Open().value.id
    requires slot in s.locks && s.locks[slot] == p
    ensures var pc := Leaves(slot, Some(done));
            var s' := Goto(s, p, pc).(files := s.files[slot := file], tmps := s.tmps - {p}, lin := s.lin + [done]);
            Frames(s, s', p, pc)
  {
  }

  lemma RenameLin(d: Dir, s: State, p: Pid)
    requires Inv(d, s) && p in s.procs && s.procs[p].HasTmp? && p in s.tmps
    ensures LinInv(d, DoRename(s, p)) && PcInv(s, p, s.procs[p])
  {
    assert PcInv(s, p, s.procs[p]);
    var s' := DoRename(s, p);
    LinSnoc(d, s, s', s'.procs[p].done.value);
  }

  lemma RenameInv(d: Dir, s: State, p: Pid)
    requires Inv(d, s) && p in s.procs
    ensures Inv(d, DoRename(s, p))
  {
    if s.procs[p].HasTmp? && p in s.tmps {
      var s', call := DoRename(s, p), s.procs[p].call;
      var done := s'.procs[p].done.value;
      RenameLin(d, s, p);
      RenameFrames(s, p, call.slot, s.tmps[p], done);
      assert s'.lin[|s.lin|] == done && PcInv(s', p, s'.procs[p]);
      Keeps(d, s, s', p, s'.procs[p]);
    }
  }

  lemma FailInv(d: Dir, s: State, p: Pid)
    requires Inv(d, s) && p in s.procs
    ensures Inv(d, DoFail(s, p))
  {
    if s.procs[p].Locked? || s.procs[p].HasRead? || s.procs[p].HasTmp? {
      var s' := DoFail(s, p);
      assert PcInv(s, p, s.procs[p]);
      QuietInv(d, s, s', p, s'.procs[p]);
    }
  }

  lemma UnlockInv(d: Dir, s: State, p: Pid)
    requires Inv(d, s) && p in s.procs
    ensures Inv(d, DoUnlock(s, p))
  {
    if s.procs[p].Leaves? {
      assert PcInv(s, p, s.procs[p]);
      QuietInv(d, s, DoUnlock(s, p), p, Idle);
    }
  }

  lemma LookedInv(d: Dir, s: State, p: Pid, done: Lin, call: Call, s': State)
    requires Inv(d, s) && p in s.procs && s.procs[p].Idle? && done.id == s.calls
    requires EffectOf(s.files, done.step).write == None && EffectOf(s.files, done.step).outcome == done.outcome
    requires s' == Goto(s, p, Looked(Some(done))).(
                     lin := s.lin + [done], calls := s.calls + 1, begun := s.begun + [call])
    ensures Inv(d, s')
  {
    var pc := Looked(Some(done));
    assert LinInv(d, s') by { LinSnoc(d, s, s', done); }
    assert s'.lin[|s.lin|] == done && PcInv(s', p, pc);
    assert Frames(s, s', p, pc);
    Keeps(d, s, s', p, pc);
  }

  lemma LookInv(d: Dir, s: State, p: Pid, slot: string, op: Op, at: int, skew: nat, s': State)
    requires Inv(d, s) && p in s.procs && s' == DoLook(s, p, slot, op, at, skew)
    ensures Inv(d, s')
  {
    if s.procs[p].Idle? && ReadOnly(op) {
      var step := AtomicStep(slot, op, at, skew);
      var done := Lin(s.calls, step, EffectOf(s.files, step).outcome);
      assert EffectOf(s.files, step).write == None;
      LookedInv(d, s, p, done, Call(s.calls, slot, op, skew), s');
    }
  }

  lemma AnswerInv(d: Dir, s: State, p: Pid, s': State)
    requires Inv(d, s) && p in s.procs && s' == DoAnswer(s, p)
    ensures Inv(d, s')
  {
    if s.procs[p].Looked? {
      assert PcInv(s, p, s.procs[p]);
      QuietInv(d, s, s', p, Idle);
    }
  }

  lemma StepInv(d: Dir, s: State, p: Pid, a: Action)
    requires Inv(d, s)
    ensures Inv(d, Do(s, p, a))
  {
    if p in s.procs {
      match a
      case TakeLock => TakeLockInv(d, s, p);
      case GiveUp => GiveUpInv(d, s, p);
      case Read => ReadInv(d, s, p);
      case Decide(at) => DecideInv(d, s, p, at);
      case Rename => RenameInv(d, s, p);
      case Fail => FailInv(d, s, p);
      case Unlock => UnlockInv(d, s, p);
      case _ => FreeInv(d, s, p, a, Do(s, p, a));
    }
  }

  lemma FreeInv(d: Dir, s: State, p: Pid, a: Action, s': State)
    requires Inv(d, s) && p in s.procs && (a.Begin? || a.Look? || a.Answer? || a.Die?) && s' == Do(s, p, a)
    ensures Inv(d, s')
  {
    match a
    case Begin(slot, op, skew) => BeginInv(d, s, p, slot, op, skew, s');
    case Look(slot, op, at, skew) => LookInv(d, s, p, slot, op, at, skew, s');
    case Answer => AnswerInv(d, s, p, s');
    case Die => QuietInv(d, s, s', p, Dead);
  }

  lemma {:induction false} RunInv(s: State, steps: seq<Step>)
    requires Initial(s)
    ensures Inv(s.files, Run(s, steps))
  {
    if steps != [] {
      var last := steps[|steps| - 1];
      RunInv(s, steps[..|steps| - 1]);
      StepInv(s.files, Run(s, steps[..|steps| - 1]), last.pid, last.action);
    }
  }

  // ------------------------------------------------------------------ results

  /** What took effect is what was asked: every step is that of a call made, at some clock. */
  ghost predicate CallsInv(s: State) {
    && |s.begun| == s.calls
    && (forall k :: 0 <= k < |s.begun| ==> s.begun[k].id == k)
    && (forall p :: p in s.procs && s.procs[p].Open().Some? ==> s.procs[p].Open().value in s.begun)
    && (forall i :: 0 <= i < |s.lin| ==> OfCall(s.begun, s.lin[i]))
  }

  predicate OfCall(begun: seq<Call>, done: Lin) {
    done.id < |begun| && done.step == StepOf(begun[done.id], done.step.at)
  }

  lemma CallsKept(s: State, s': State, p: Pid, pc: Pc, made: seq<Call>, done: seq<Lin>)
    requires CallsInv(s) && p in s.procs && s'.procs == s.procs[p := pc]
    requires s'.begun == s.begun + made && s'.calls == s.calls + |made| && |made| <= 1
    requires made != [] ==> made[0].id == s.calls
    requires s'.lin == s.lin + done && forall k :: 0 <= k < |done| ==> OfCall(s'.begun, done[k])
    requires pc.Open().Some? ==> pc.Open() == s.procs[p].Open() || pc.Open().value in made
    ensures CallsInv(s')
  {
    forall i | 0 <= i < |s'.lin| ensures OfCall(s'.begun, s'.lin[i]) {
      if i < |s.lin| {
        assert OfCall(s.begun, s.lin[i]);
      }
    }
    forall k | 0 <= k < |s'.begun| ensures s'.begun[k].id == k {
      if k < |s.begun| {
        assert s'.begun[k] == s.begun[k];
      }
    }
  }

  /** The open call of a process, taking effect at clock `at`. */
  lemma OpenCallDone(s: State, p: Pid, at: int, outcome: Outcome)
    requires CallsInv(s) && p in s.procs && s.procs[p].Open().Some?
    ensures var call := s.procs[p].Open().value; OfCall(s.begun, Lin(call.id, StepOf(call, at), outcome))
  {
    var call := s.procs[p].Open().value;
    var k :| 0 <= k < |s.begun| && s.begun[k] == call;
  }

  lemma DecideCalls(s: State, p: Pid, at: int)
    requires CallsInv(s) && p in s.procs
    ensures CallsInv(DoDecide(s, p, at))
  {
    if s.procs[p].HasRead? {
      var s', call := DoDecide(s, p, at), s.procs[p].call;
      var effect := OnFile(call.op, s.procs[p].file, call.slot, at, call.skew);
      OpenCallDone(s, p, at, effect.outcome);
      var done := if effect.write.Some? then [] else [Lin(call.id, StepOf(call, at), effect.outcome)];
      CallsKept(s, s', p, s'.procs[p], [], done);
    }
  }

  lemma RenameCalls(s: State, p: Pid)
    requires CallsInv(s) && p in s.procs
    ensures CallsInv(DoRename(s, p))
  {
    if s.procs[p].HasTmp? && p in s.tmps {
      var s', call, at := DoRename(s, p), s.procs[p].call, s.procs[p].at;
      var outcome := OnFile(call.op, s.procs[p].file, call.slot, at, call.skew).outcome;
      OpenCallDone(s, p, at, outcome);
      CallsKept(s, s', p, s'.procs[p], [], [Lin(call.id, StepOf(call, at), outcome)]);
    }
  }

  lemma BeginCalls(s: State, p: Pid, slot: string, op: Op, skew: nat)
    requires CallsInv(s) && p in s.procs
    ensures CallsInv(DoBegin(s, p, slot, op, skew))
  {
    if s.procs[p].Idle? && !ReadOnly(op) {
      var s', call := DoBegin(s, p, slot, op, skew), Call(s.calls, slot, op, skew);
      CallsKept(s, s', p, s'.procs[p], [call], []);
    }
  }

  lemma LookCalls(s: State, p: Pid, slot: string, op: Op, at: int, skew: nat)
    requires CallsInv(s) && p in s.procs
    ensures CallsInv(DoLook(s, p, slot, op, at, skew))
  {
    if s.procs[p].Idle? && ReadOnly(op) {
      var s', call := DoLook(s, p, slot, op, at, skew), Call(s.calls, slot, op, skew);
      assert s'.begun[s.calls] == call;
      CallsKept(s, s', p, s'.procs[p], [call], [s'.lin[|s.lin|]]);
    }
  }

  lemma QuietStep(s: State, s': State, p: Pid)
    requires CallsInv(s) && p in s.procs && p in s'.procs && s'.procs == s.procs[p := s'.procs[p]]
    requires s'.begun == s.begun && s'.calls == s.calls && s'.lin == s.lin
    requires s'.procs[p].Open().Some? ==> s'.procs[p].Open() == s.procs[p].Open()
    ensures CallsInv(s')
  {
    CallsKept(s, s', p, s'.procs[p], [], []);
  }

  lemma LockCalls(s: State, p: Pid)
    requires CallsInv(s) && p in s.procs
    ensures CallsInv(DoTakeLock(s, p)) && CallsInv(DoGiveUp(s, p)) && CallsInv(DoUnlock(s, p))
  {
    QuietStep(s, DoTakeLock(s, p), p);
    QuietStep(s, DoGiveUp(s, p), p);
    QuietStep(s, DoUnlock(s, p), p);
  }

  lemma ReadCalls(s: State, p: Pid)
    requires CallsInv(s) && p in s.procs
    ensures CallsInv(DoRead(s, p)) && CallsInv(DoFail(s, p))
  {
    QuietStep(s, DoRead(s, p), p);
    QuietStep(s, DoFail(s, p), p);
  }

  lemma EndCalls(s: State, p: Pid)
    requires CallsInv(s) && p in s.procs
    ensures CallsInv(DoAnswer(s, p)) && CallsInv(Goto(s, p, Dead))
  {
    QuietStep(s, DoAnswer(s, p), p);
    QuietStep(s, Goto(s, p, Dead), p);
  }

  lemma StepCalls(s: State, p: Pid, a: Action)
    requires CallsInv(s)
    ensures CallsInv(Do(s, p, a))
  {
    if p in s.procs {
      match a
      case Begin(slot, op, skew) => BeginCalls(s, p, slot, op, skew);
      case Decide(at) => DecideCalls(s, p, at);
      case Rename => RenameCalls(s, p);
      case Look(slot, op, at, skew) => LookCalls(s, p, slot, op, at, skew);
      case _ =>
        LockCalls(s, p);
        ReadCalls(s, p);
        EndCalls(s, p);
    }
  }

  lemma {:induction false} RunCalls(s: State, steps: seq<Step>)
    requires CallsInv(s)
    ensures CallsInv(Run(s, steps))
  {
    if steps != [] {
      RunCalls(s, steps[..|steps| - 1]);
      StepCalls(Run(s, steps[..|steps| - 1]), steps[|steps| - 1].pid, steps[|steps| - 1].action);
    }
  }

  /** The fine-grained lease refines the atomic one. In every interleaving, with crashes and disk
      errors anywhere, the calls that took effect form an atomic run, in rename order, that ends in
      the present files and in which each call, run as it was made, gives the answer it gave; each
      call takes effect at most once, and every returned answer is that of a call that did. */
  lemma Linearizable(s: State, steps: seq<Step>)
    requires Initial(s)
    ensures var end := Run(s, steps);
            && RunAll(s.files, Steps(end.lin)) == end.files
            && Legal(s.files, end.lin)
            && (forall i :: 0 <= i < |end.lin| ==> OfCall(end.begun, end.lin[i]))
            && (forall i, j :: 0 <= i < j < |end.lin| ==> end.lin[i].id != end.lin[j].id)
            && (forall r :: r in end.returned ==> r in end.lin)
  {
    RunInv(s, steps);
    RunCalls(s, steps);
  }

  lemma StepExtends(s: State, p: Pid, a: Action)
    ensures var s' := Do(s, p, a);
            && s.lin <= s'.lin && s.calls <= s'.calls && s.returned <= s'.returned && s.begun <= s'.begun
  {
  }

  /** What has taken effect stays in place, and calls and answers are only added. */
  lemma {:induction false} RunExtends(s: State, steps: seq<Step>, n: nat)
    requires n <= |steps|
    ensures var mid, end := Run(s, steps[..n]), Run(s, steps);
            && mid.lin <= end.lin && mid.calls <= end.calls && mid.returned <= end.returned && mid.begun <= end.begun
  {
    if n < |steps| {
      var init, last := steps[..|steps| - 1], steps[|steps| - 1];
      assert init[..n] == steps[..n];
      RunExtends(s, init, n);
      StepExtends(Run(s, init), last.pid, last.action);
    } else {
      assert steps[..n] == steps;
    }
  }

  /** Real-time order: a call takes effect while it runs. If an answer had been returned before a
      call was made, its step precedes that call's in the atomic run, and no step precedes the
      making of its call. */
  lemma RealTimeOrder(s: State, steps: seq<Step>, n: nat, j: nat)
    requires Initial(s) && n <= |steps| && j < |Run(s, steps).lin|
    ensures var mid, end := Run(s, steps[..n]), Run(s, steps);
            && (end.lin[j].id >= mid.calls ==> j >= |mid.lin| && forall r :: r in mid.returned ==> r in end.lin[..j])
            && (j < |mid.lin| ==> end.lin[j].id < |mid.begun| && OfCall(mid.begun, end.lin[j]))
  {
    var mid, end := Run(s, steps[..n]), Run(s, steps);
    RunInv(s, steps[..n]);
    RunCalls(s, steps[..n]);
    RunExtends(s, steps, n);
    if j < |mid.lin| {
      assert end.lin[j] == mid.lin[j];
    } else {
      assert mid.lin == end.lin[..|mid.lin|];
      forall r | r in mid.returned ensures r in end.lin[..j] {
        assert r in mid.lin;
        var i :| 0 <= i < |mid.lin| && mid.lin[i] == r;
        assert end.lin[..j][i] == r;
      }
    }
  }

  lemma {:induction false} StepsAt(lin: seq<Lin>, i: nat)
    requires i < |lin|
    ensures |Steps(lin)| == |lin| && Steps(lin)[i] == lin[i].step && Steps(lin)[..i] == Steps(lin[..i])
  {
    var init := lin[..|lin| - 1];
    if i < |lin| - 1 {
      StepsAt(init, i);
      assert init[..i] == lin[..i];
    } else {
      if init != [] { StepsAt(init, |init| - 1); }
    }
  }

  lemma {:induction false} LegalAt(d: Dir, lin: seq<Lin>, i: nat)
    requires Legal(d, lin) && i < |lin|
    ensures lin[i].outcome == EffectOf(RunAll(d, Steps(lin[..i])), lin[i].step).outcome
  {
    var init := lin[..|lin| - 1];
    if i < |init| {
      LegalAt(d, init, i);
      assert init[..i] == lin[..i];
    }
  }

  /** Safety carried over to the fine-grained system: if a caller's check of (holder, token) was
      answered `held` twice, then at every step that took effect between the two, by anyone, the
      slot was in that holder's tenure. */
  lemma ChecksBracketTenure(
    s: State, steps: seq<Step>, i: nat, j: nat, k: nat, slot: string,
    holder: string, token: int, at1: int, at2: int, skew: nat)
    requires Initial(s)
    requires var end := Run(s, steps);
             && i <= j <= k < |end.lin|
             && end.lin[i].step == AtomicStep(slot, Check(holder, token), at1, skew) && end.lin[i].outcome.Held?
             && end.lin[k].step == AtomicStep(slot, Check(holder, token), at2, skew) && end.lin[k].outcome.Held?
    ensures var lin := Run(s, steps).lin;
            var between := ReadLease(FileOf(RunAll(s.files, Steps(lin[..j])), slot), slot);
            between.Some? && between.value.holder == Some(holder) && between.value.token == token
  {
    var lin := Run(s, steps).lin;
    Linearizable(s, steps);
    StepsAt(lin, i);
    StepsAt(lin, j);
    StepsAt(lin, k);
    LegalAt(s.files, lin, i);
    LegalAt(s.files, lin, k);
    CheckedTwiceHeldThroughout(s.files, Steps(lin), i, j, k, slot, holder, token, at1, at2, skew);
  }

  /** A slot whose lock another process holds is out of reach. */
  lemma BlockedSlot(s: State, slot: string, owner: Pid, p: Pid, a: Action)
    requires slot in s.locks && s.locks[slot] == owner
    requires p in s.procs && s.procs[p].SlotHeld() != Some(slot)
    ensures var s' := Do(s, p, a);
            && slot in s'.locks && s'.locks[slot] == owner
            && FileOf(s'.files, slot) == FileOf(s.files, slot)
  {
  }

  lemma DeadStaysDead(s: State, dead: Pid, p: Pid, a: Action)
    requires dead in s.procs && s.procs[dead] == Dead
    ensures var s' := Do(s, p, a); dead in s'.procs && s'.procs[dead] == Dead
  {
  }

  lemma DeadHolderStep(d: Dir, s: State, slot: string, dead: Pid, p: Pid, a: Action)
    requires Inv(d, s) && dead in s.procs && s.procs[dead] == Dead && slot in s.locks && s.locks[slot] == dead
    ensures var s' := Do(s, p, a);
            && dead in s'.procs && s'.procs[dead] == Dead && slot in s'.locks && s'.locks[slot] == dead
            && FileOf(s'.files, slot) == FileOf(s.files, slot)
  {
    DeadStaysDead(s, dead, p, a);
    if p in s.procs {
      assert PcInv(s, p, s.procs[p]);
      BlockedSlot(s, slot, dead, p, a);
    }
  }

  /** A process that dies holding a slot's lock only blocks: the slot's file never changes again. */
  lemma {:induction false} DeadHolderOnlyBlocks(d: Dir, s: State, slot: string, dead: Pid, steps: seq<Step>)
    requires Inv(d, s) && dead in s.procs && s.procs[dead] == Dead && slot in s.locks && s.locks[slot] == dead
    ensures var end := Run(s, steps);
            && Inv(d, end) && dead in end.procs && end.procs[dead] == Dead
            && slot in end.locks && end.locks[slot] == dead
            && FileOf(end.files, slot) == FileOf(s.files, slot)
  {
    if steps != [] {
      var before, last := steps[..|steps| - 1], steps[|steps| - 1];
      DeadHolderOnlyBlocks(d, s, slot, dead, before);
      DeadHolderStep(d, Run(s, before), slot, dead, last.pid, last.action);
      StepInv(d, Run(s, before), last.pid, last.action);
    }
  }

  // ------------------------------------------------------------------ what one process gets done

  /** `steps` are steps of `p` alone. */
  ghost predicate ByItself(p: Pid, steps: seq<Step>) {
    forall i :: 0 <= i < |steps| ==> steps[i].pid == p
  }

  lemma OneMore(s: State, steps: seq<Step>, p: Pid, a: Action) returns (more: seq<Step>)
    requires ByItself(p, steps)
    ensures ByItself(p, more) && Run(s, more) == Do(Run(s, steps), p, a)
  {
    more := steps + [Step(p, a)];
    assert more[..|steps|] == steps;
  }

  lemma CallBegins(s: State, p: Pid, slot: string, op: Op, skew: nat)
    requires p in s.procs && s.procs[p].Idle? && slot !in s.locks && !ReadOnly(op)
    ensures var call := Call(s.calls, slot, op, skew);
            Do(Do(Do(s, p, Begin(slot, op, skew)), p, TakeLock), p, Read) ==
            s.(procs := s.procs[p := HasRead(call, FileOf(s.files, slot))], locks := s.locks[slot := p],
               calls := s.calls + 1, begun := s.begun + [call])
  {
    var call := Call(s.calls, slot, op, skew);
    assert s.procs[p := Waits(call)][p := Locked(call)] == s.procs[p := Locked(call)];
    assert s.procs[p := Locked(call)][p := HasRead(call, FileOf(s.files, slot))] ==
           s.procs[p := HasRead(call, FileOf(s.files, slot))];
  }

  /** What the call does and answers, seen as one atomic step. */
  lemma CallDecides(s: State, p: Pid, call: Call, at: int)
    requires p in s.procs && s.procs[p] == HasRead(call, FileOf(s.files, call.slot))
    ensures var done := Lin(call.id, StepOf(call, at), EffectOf(s.files, StepOf(call, at)).outcome);
            var s' := Do(Do(s, p, Decide(at)), p, Action.Rename);
            && s'.files == Apply(s.files, StepOf(call, at)) && s'.lin == s.lin + [done]
            && s'.procs == s.procs[p := Leaves(call.slot, Some(done))]
            && s'.locks == s.locks && s'.returned == s.returned && s'.calls == s.calls && s'.begun == s.begun
  {
    var file := FileOf(s.files, call.slot);
    var done := Lin(call.id, StepOf(call, at), EffectOf(s.files, StepOf(call, at)).outcome);
    assert s.procs[p := HasTmp(call, file, at)][p := Leaves(call.slot, Some(done))] ==
           s.procs[p := Leaves(call.slot, Some(done))];
  }

  lemma CallEnds(s: State, procs: map<Pid, Pc>, locks: map<string, Pid>, p: Pid, slot: string, done: Lin)
    requires p in procs && procs[p] == Idle && s.procs == procs[p := Leaves(slot, Some(done))]
    requires slot !in locks && s.locks == locks[slot := p]
    ensures Do(s, p, Unlock) == s.(procs := procs, locks := locks, returned := s.returned + [done])
  {
    assert procs[p := Leaves(slot, Some(done))][p := Idle] == procs;
    assert locks[slot := p] - {slot} == locks;
  }

  /** A locked call that meets nobody, on a free lock, is its atomic step: the files become what that
      step makes of them, and the answer returned is that step's. */
  lemma UndisturbedCall(s: State, p: Pid, slot: string, op: Op, skew: nat, at: int, step: AtomicStep)
    returns (steps: seq<Step>)
    requires p in s.procs && s.procs[p].Idle? && slot !in s.locks && !ReadOnly(op)
    requires step == AtomicStep(slot, op, at, skew)
    ensures ByItself(p, steps)
    ensures var end, done := Run(s, steps), Lin(s.calls, step, EffectOf(s.files, step).outcome);
            && end.files == Apply(s.files, step) && end.lin == s.lin + [done] && end.returned == s.returned + [done]
            && end.procs == s.procs && end.locks == s.locks
  {
    var call := Call(s.calls, slot, op, skew);
    var done := Lin(s.calls, step, EffectOf(s.files, step).outcome);
    steps := OneMore(s, [], p, Begin(slot, op, skew));
    steps := OneMore(s, steps, p, TakeLock);
    steps := OneMore(s, steps, p, Read);
    CallBegins(s, p, slot, op, skew);
    var read := Run(s, steps);
    steps := OneMore(s, steps, p, Decide(at));
    steps := OneMore(s, steps, p, Action.Rename);
    CallDecides(read, p, call, at);
    var left := Run(s, steps);
    steps := OneMore(s, steps, p, Unlock);
    assert left.procs == s.procs[p := Leaves(slot, Some(done))];
    CallEnds(left, s.procs, s.locks, p, slot, done);
  }

  /** A look takes no lock: whoever holds it, the answer is that of the file that is there. */
  lemma UndisturbedLook(s: State, p: Pid, slot: string, op: Op, skew: nat, at: int) returns (steps: seq<Step>)
    requires p in s.procs && s.procs[p].Idle? && ReadOnly(op)
    ensures ByItself(p, steps)
    ensures var end, step := Run(s, steps), AtomicStep(slot, op, at, skew);
            && end.files == s.files && end.locks == s.locks && end.procs == s.procs
            && end.returned == s.returned + [Lin(s.calls, step, EffectOf(s.files, step).outcome)]
  {
    steps := OneMore(s, [], p, Look(slot, op, at, skew));
    var looked := Run(s, steps);
    steps := OneMore(s, steps, p, Answer);
    assert s.procs[p := looked.procs[p]][p := Idle] == s.procs;
  }
}
