// The delivery record: what the sender writes (crates/odin-say/src/proof.rs:57-87) and how the
// validator judges it (src/protocol/service.ts:799-1050). The two programs share only the record.

module DeliveryProof {
  import opened Wrappers
  import opened Text
  import opened JsonValues
  import opened PaneScreen
  import D = Delivery

  // ------------------------------------------------------------------ the sender's side

  function StateText(s: D.State): string {
    match s
    case DeliveredAcked => "DELIVERED_ACKED"
    case DeliveredNoAck => "DELIVERED_NO_ACK"
    case InputBarOnly => "INPUT_BAR_ONLY"
    case PaneBlockedOnPermission => "PANE_BLOCKED_ON_PERMISSION"
    case PaneReadFailed => "PANE_READ_FAILED"
    case PaneStillThinking => "PANE_STILL_THINKING"
    case SeatCapped => "SEAT_CAPPED"
  }

  function SourceText(s: Source): string {
    match s
    case Flag => "flag"
    case Env => "env"
    case Detected => "detected"
    case Unknown => "unknown"
  }

  function SurfaceLocator(id: string): string {
    "surface:" + if StartsWith(id, "surface:") then id[|"surface:"|..] else id
  }

  /** The locator names the surface: two surfaces share one exactly if they are the same id, with the
      prefix or without. */
  lemma LocatorNamesSurface(a: string, b: string)
    ensures SurfaceLocator(a) == SurfaceLocator(b) <==>
              a == b || (a == "surface:" + b && !StartsWith(b, "surface:"))
              || (b == "surface:" + a && !StartsWith(a, "surface:"))
    ensures SurfaceLocator(a) == if StartsWith(a, "surface:") then a else "surface:" + a
  {
    if StartsWith(a, "surface:") {
      assert a == "surface:" + a[|"surface:"|..];
    }
    if StartsWith(b, "surface:") {
      assert b == "surface:" + b[|"surface:"|..];
    }
    assert StartsWith("surface:" + a, "surface:") && StartsWith("surface:" + b, "surface:");
    assert ("surface:" + a)[|"surface:"|..] == a && ("surface:" + b)[|"surface:"|..] == b;
  }

  function OrNull(s: Option<string>): Json {
    match s
    case Some(text) => String(text)
    case None => Null
  }

  /** ProofEntry::for_outcome, serialized. */
  function ForOutcome(
    subcommand: string, surface: string, o: D.Outcome, note: string, senderRole: string, now: string): Record
  {
    map[
      RecordKind := String(if o.submitted then "delivery" else "send_refusal"),
      Timestamp := String(now),
      Subcommand := String(subcommand),
      TargetSurfaceLocator := String(SurfaceLocator(surface)),
      Submitted := Bool(o.submitted),
      VerificationMethod := String("read_screen"),
      ObservedProcessingState := String(StateText(o.state)),
      SenderRole := String(senderRole),
      Note := String(note),
      Polls := Number(o.polls),
      WaitedMs := Number(o.waitedMs),
      HarnessName := String(o.harness.harness),
      HarnessSource := String(SourceText(o.harness.source)),
      QueuedFlag := Bool(o.queued),
      ResetAt := OrNull(if o.cap.Some? then o.cap.value.resetAt else None),
      CapMarkerId := OrNull(if o.cap.Some? then Some(o.cap.value.marker) else None)]
  }

  // ------------------------------------------------------------------ the validator's side

  const PROOF_FIELDS :=
    [TargetSurfaceLocator, Submitted, VerificationMethod, ObservedProcessingState, Timestamp, SenderRole]
  const PLAN_FIELDS := [TargetSurfaceLocator, SenderRole, Timestamp]
  const TEXT_FIELDS := [TargetSurfaceLocator, VerificationMethod, ObservedProcessingState, Timestamp, SenderRole]

  /** CMUX_SEND_REFUSAL_STATES */
  predicate RefusalState(s: string) {
    s == "PANE_STILL_THINKING" || s == "PANE_BLOCKED_ON_PERMISSION" || s == "INPUT_BAR_ONLY" || s == "SEAT_CAPPED"
  }

  /** CMUX_DELIVERY_STATES */
  predicate KnownState(s: string) {
    s == "DELIVERED_ACKED" || s == "DELIVERED_NO_ACK" || RefusalState(s)
  }

  datatype Verdict = Delivered | DeliveredNoAck | NotDelivered | NotProven

  predicate IsRefusal(r: Record) {
    TextOf(r, RecordKind) == Some("send_refusal")
  }

  predicate KindKnown(r: Record) {
    !Present(r, RecordKind) || TextOf(r, RecordKind) == Some("delivery") || IsRefusal(r)
  }

  predicate HasNewline(s: string) {
    exists i :: 0 <= i < |s| && (s[i] == '\r' || s[i] == '\n')
  }

  /** A multi-line payload for a harness that submits on every newline. */
  predicate NewlineFault(r: Record) {
    && TextOf(r, TargetSubmitProfile) == Some("single_line_flatten")
    && (IsTrue(r, PayloadContainsNewline)
        || (TextOf(r, PayloadPreview).Some? && HasNewline(TextOf(r, PayloadPreview).value)))
    && !IsTrue(r, NewlinesFlattened)
  }

  /** A state the validator knows and does not read as text stuck in the input bar. */
  predicate GoodState(r: Record) {
    TextOf(r, ObservedProcessingState).Some? ==>
      && KnownState(TextOf(r, ObservedProcessingState).value)
      && TextOf(r, ObservedProcessingState) != Some("INPUT_BAR_ONLY")
  }

  /** Every text field is there. */
  predicate Stated(r: Record) {
    && HasText(r, TargetSurfaceLocator) && HasText(r, VerificationMethod) && HasText(r, ObservedProcessingState)
    && HasText(r, Timestamp) && HasText(r, SenderRole)
  }

  /** The kind is left out or says delivery. */
  predicate SaysDelivery(r: Record) {
    RecordKind in r ==> r[RecordKind] == Null || r[RecordKind] == String("delivery")
  }

  /** For a harness that submits on every newline, a payload that is said or seen to have one must
      have been flattened. */
  predicate NewlinesHandled(r: Record) {
    Field(r, TargetSubmitProfile) == Some(String("single_line_flatten")) ==>
      var said := Field(r, PayloadContainsNewline) == Some(Bool(true));
      var seen := exists ch :: ch in TextOf(r, PayloadPreview).GetOr("") && ch in "\r\n";
      said || seen ==> Field(r, NewlinesFlattened) == Some(Bool(true))
  }

  /** Exactly these records are valid deliveries: everything stated, submitted, nothing broken. */
  predicate ValidDelivery(r: Record) {
    && SaysDelivery(r) && Field(r, DryRun) != Some(Bool(true))
    && Stated(r)
    && GoodState(r) && Field(r, Submitted) == Some(Bool(true)) && NewlinesHandled(r)
  }

  /** A dry run validates the plan: where it goes, who sends it and when. */
  predicate ValidPlan(r: Record) {
    && SaysDelivery(r) && Field(r, DryRun) == Some(Bool(true))
    && HasText(r, TargetSurfaceLocator) && HasText(r, SenderRole) && HasText(r, Timestamp)
    && !NotText(r)(VerificationMethod) && !NotText(r)(ObservedProcessingState)
    && GoodState(r) && (Submitted in r ==> r[Submitted].Bool?) && NewlinesHandled(r)
  }

  /** Exactly these are valid refusals: a pane that could not take the message, nothing sent. */
  predicate ValidRefusal(r: Record) {
    && Field(r, RecordKind) == Some(String("send_refusal"))
    && Stated(r)
    && RefusalState(TextOf(r, ObservedProcessingState).value)
    && Field(r, Submitted) == Some(Bool(false))
  }

  lemma NewlineRule(r: Record)
    ensures NewlineFault(r) <==> !NewlinesHandled(r)
  {
    var preview := TextOf(r, PayloadPreview).GetOr("");
    if HasNewline(preview) {
      var i :| 0 <= i < |preview| && (preview[i] == '\r' || preview[i] == '\n');
      assert preview[i] in preview && preview[i] in "\r\n";
    }
    if ch :| ch in preview && ch in "\r\n" {
      var i :| 0 <= i < |preview| && preview[i] == ch;
    }
  }

  lemma KindRule(r: Record)
    ensures KindKnown(r) && !IsRefusal(r) <==> SaysDelivery(r)
    ensures IsRefusal(r) <==> Field(r, RecordKind) == Some(String("send_refusal"))
  {
  }

  function Pushed(list: seq<Name>, name: Name): seq<Name> {
    if name in list then list else list + [name]
  }

  /** validateCmuxDeliveryProofProse for a record that is not a refusal. */
  method ValidateDeliveryRecord(r: Record) returns (valid: bool)
    requires !IsRefusal(r)
    ensures valid <==> ValidDelivery(r) || ValidPlan(r)
  {
    var dryRun := IsTrue(r, DryRun);
    var required := if dryRun then PLAN_FIELDS else PROOF_FIELDS;
    var missing := ValidateRequiredFields(r, required);
    var invalid := ValidateTextFields(r, TEXT_FIELDS);
    NewlineRule(r);
    KindRule(r);
    NothingMissing(r, required);
    NothingMistyped(r, TEXT_FIELDS);
    assert missing == [] && invalid == [] <==> FieldsFine(r, required);
    var state := TextOf(r, ObservedProcessingState);
    if state.Some? && !KnownState(state.value) {
      invalid := Pushed(invalid, ObservedProcessingState);
    }
    if Submitted in r && !r[Submitted].Bool? {
      invalid := invalid + [Submitted];
    }
    if !dryRun && Field(r, Submitted) == Some(Bool(false)) {
      invalid := invalid + [Submitted];
    }
    if NewlineFault(r) {
      invalid := invalid + [PayloadContainsNewline];
    }
    if state == Some("INPUT_BAR_ONLY") {
      invalid := Pushed(invalid, ObservedProcessingState);
    }
    if !KindKnown(r) {
      invalid := invalid + [RecordKind];
    }
    FieldsMean(r);
    valid := missing == [] && invalid == [];
  }

  ghost predicate FieldsFine(r: Record, required: seq<Name>) {
    && (forall name :: name in required ==> !MissingIn(r)(name))
    && (forall name :: name in TEXT_FIELDS ==> !NotText(r)(name))
  }

  lemma FieldsMean(r: Record)
    ensures FieldsFine(r, PROOF_FIELDS) <==> Stated(r) && !MissingIn(r)(Submitted)
    ensures FieldsFine(r, PLAN_FIELDS) <==>
              && HasText(r, TargetSurfaceLocator) && HasText(r, SenderRole) && HasText(r, Timestamp)
              && !NotText(r)(VerificationMethod) && !NotText(r)(ObservedProcessingState)
  {
    NoneOf(PROOF_FIELDS, MissingIn(r));
    NoneOf(PLAN_FIELDS, MissingIn(r));
    NoneOf(TEXT_FIELDS, NotText(r));
    RequiredText(r, TargetSurfaceLocator);
    RequiredText(r, VerificationMethod);
    RequiredText(r, ObservedProcessingState);
    RequiredText(r, Timestamp);
    RequiredText(r, SenderRole);
  }

  lemma NoneOf(names: seq<Name>, p: Name -> bool)
    requires 3 <= |names| <= 6
    ensures (forall name :: name in names ==> !p(name)) <==>
            && !p(names[0]) && !p(names[1]) && !p(names[2])
            && (|names| > 3 ==> !p(names[3])) && (|names| > 4 ==> !p(names[4])) && (|names| > 5 ==> !p(names[5]))
  {
    assert forall i :: 0 <= i < |names| ==> names[i] in names;
  }

  /** validateCmuxSendRefusalProse */
  method ValidateSendRefusal(r: Record) returns (valid: bool)
    requires IsRefusal(r)
    ensures valid <==> ValidRefusal(r)
  {
    var missing := ValidateRequiredFields(r, PROOF_FIELDS);
    var invalid := ValidateTextFields(r, TEXT_FIELDS);
    NothingMissing(r, PROOF_FIELDS);
    NothingMistyped(r, TEXT_FIELDS);
    var state := TextOf(r, ObservedProcessingState);
    if state.Some? && !KnownState(state.value) {
      invalid := invalid + [ObservedProcessingState];
    } else if state.Some? && !RefusalState(state.value) {
      invalid := invalid + [ObservedProcessingState];
    }
    if Submitted in r && !r[Submitted].Bool? {
      invalid := invalid + [Submitted];
    }
    if IsTrue(r, Submitted) {
      invalid := invalid + [Submitted];
    }
    FieldsMean(r);
    valid := missing == [] && invalid == [];
  }

  /** deliveryVerdictFor, for a record that is not a refusal. */
  function VerdictFor(r: Record, valid: bool): Verdict {
    if !valid || IsTrue(r, DryRun) then NotProven
    else
      match TextOf(r, ObservedProcessingState)
      case None => NotProven
      case Some(state) =>
        if state == "SEAT_CAPPED" then NotDelivered
        else if state == "DELIVERED_ACKED" then Delivered
        else if KnownState(state) then DeliveredNoAck
        else NotProven
  }

  /** What a record attests, declared. */
  function Attests(r: Record): Verdict {
    if ValidRefusal(r) then NotDelivered
    else if !ValidDelivery(r) then NotProven
    else if TextOf(r, ObservedProcessingState) == Some("SEAT_CAPPED") then NotDelivered
    else if TextOf(r, ObservedProcessingState) == Some("DELIVERED_ACKED") then Delivered
    else DeliveredNoAck
  }

  /** validateCmuxDeliveryProof. `adjudicated` is the registry's own verdict when the record names
      registry authority: it can make a record valid, never a delivery. */
  method ValidateCmuxDeliveryProof(r: Record, adjudicated: Option<bool>) returns (valid: bool, verdict: Verdict)
    ensures valid <==> adjudicated.GetOr(ValidDelivery(r) || ValidPlan(r) || ValidRefusal(r))
    ensures verdict == if valid then Attests(r) else NotProven
  {
    var proseValid: bool;
    var proseVerdict: Verdict;
    if IsRefusal(r) {
      proseValid := ValidateSendRefusal(r);
      proseVerdict := if proseValid then NotDelivered else NotProven;
    } else {
      proseValid := ValidateDeliveryRecord(r);
      proseVerdict := VerdictFor(r, proseValid);
      AttestsDelivery(r, proseValid);
    }
    valid := adjudicated.GetOr(proseValid);
    verdict := if valid then proseVerdict else NotProven;
  }

  lemma AttestsDelivery(r: Record, valid: bool)
    requires !IsRefusal(r) && (valid <==> ValidDelivery(r) || ValidPlan(r))
    ensures VerdictFor(r, valid) == Attests(r)
  {
    KindRule(r);
  }

  // ------------------------------------------------------------------ the two together

  /** What a record says that the validator looks at. */
  ghost predicate Tells(r: Record, o: D.Outcome, senderRole: string, now: string) {
    && TextOf(r, RecordKind) == Some(if o.submitted then "delivery" else "send_refusal")
    && TextOf(r, ObservedProcessingState) == Some(StateText(o.state))
    && Field(r, Submitted) == Some(Bool(o.submitted))
    && TextOf(r, Timestamp) == Some(now) && TextOf(r, SenderRole) == Some(senderRole)
    && HasText(r, TargetSurfaceLocator) && HasText(r, VerificationMethod)
    && DryRun !in r && TargetSubmitProfile !in r
  }

  lemma StartsInk(s: string)
    requires s != "" && !IsSpace(s[0])
    ensures !Blank(s)
  {
  }

  lemma InkOfConstants(surface: string)
    ensures !Blank(SurfaceLocator(surface)) && !Blank("read_screen")
  {
    StartsInk(SurfaceLocator(surface));
    StartsInk("read_screen");
  }

  lemma RecordFields(subcommand: string, surface: string, o: D.Outcome, note: string, senderRole: string, now: string)
    ensures var r := ForOutcome(subcommand, surface, o, note, senderRole, now);
            && Field(r, RecordKind) == Some(String(if o.submitted then "delivery" else "send_refusal"))
            && Field(r, ObservedProcessingState) == Some(String(StateText(o.state)))
            && Field(r, Submitted) == Some(Bool(o.submitted))
            && Field(r, Timestamp) == Some(String(now)) && Field(r, SenderRole) == Some(String(senderRole))
            && Field(r, TargetSurfaceLocator) == Some(String(SurfaceLocator(surface)))
            && Field(r, VerificationMethod) == Some(String("read_screen"))
            && DryRun !in r && TargetSubmitProfile !in r
  {
  }

  lemma RecordRest(subcommand: string, surface: string, o: D.Outcome, note: string, senderRole: string, now: string)
    ensures var r := ForOutcome(subcommand, surface, o, note, senderRole, now);
            && TextOf(r, Subcommand) == Some(subcommand) && TextOf(r, Note) == Some(note)
            && Field(r, Polls) == Some(Number(o.polls)) && Field(r, WaitedMs) == Some(Number(o.waitedMs))
            && TextOf(r, HarnessName) == Some(o.harness.harness)
            && TextOf(r, HarnessSource) ==
               Some(match o.harness.source case Flag => "flag" case Env => "env" case Detected => "detected"
                                           case Unknown => "unknown")
            && (o.state == D.PaneReadFailed ==> TextOf(r, ObservedProcessingState) == Some("PANE_READ_FAILED"))
            && Field(r, QueuedFlag) == Some(Bool(o.queued))
            && Field(r, CapMarkerId) == Some(if o.cap.Some? then String(o.cap.value.marker) else Null)
            && Field(r, ResetAt) ==
               Some(if o.cap.Some? && o.cap.value.resetAt.Some? then String(o.cap.value.resetAt.value) else Null)
  {
  }

  lemma SourceTexts(a: Source, b: Source)
    ensures SourceText(a) == SourceText(b) ==> a == b
  {
    assert "flag"[0] != "env"[0] && "flag"[0] != "detected"[0] && "flag"[0] != "unknown"[0];
    assert "env"[0] != "detected"[0] && "env"[0] != "unknown"[0] && "detected"[0] != "unknown"[0];
  }

  /** Nothing is lost in the record but the exit code: equal records come from equal attempts on the
      same surface. */
  lemma RecordDeterminesAttempt(
    subcommand: string, surface: string, o: D.Outcome, note: string, senderRole: string, now: string,
    subcommand': string, surface': string, o': D.Outcome, note': string, senderRole': string, now': string)
    requires ForOutcome(subcommand, surface, o, note, senderRole, now) ==
             ForOutcome(subcommand', surface', o', note', senderRole', now')
    ensures o'.(exit := o.exit) == o && SurfaceLocator(surface) == SurfaceLocator(surface')
    ensures subcommand == subcommand' && note == note' && senderRole == senderRole' && now == now'
  {
    RecordFields(subcommand, surface, o, note, senderRole, now);
    RecordFields(subcommand', surface', o', note', senderRole', now');
    RecordRest(subcommand, surface, o, note, senderRole, now);
    RecordRest(subcommand', surface', o', note', senderRole', now');
    StateTextsDiffer(o.state, o'.state);
    SourceTexts(o.harness.source, o'.harness.source);
    SameCap(o.cap, o'.cap);
  }

  lemma SameCap(a: Option<CapHit>, b: Option<CapHit>)
    requires a.Some? == b.Some? && (a.Some? ==> a.value.marker == b.value.marker && a.value.resetAt == b.value.resetAt)
    ensures a == b
  {
  }

  lemma StateTextsDiffer(a: D.State, b: D.State)
    requires StateText(a) == StateText(b)
    ensures a == b
  {
    assert "DELIVERED_ACKED"[10] != "DELIVERED_NO_ACK"[10];
    assert "PANE_BLOCKED_ON_PERMISSION"[5] != "PANE_READ_FAILED"[5];
    assert "PANE_STILL_THINKING"[5] != "PANE_READ_FAILED"[5];
    assert "PANE_STILL_THINKING"[5] != "PANE_BLOCKED_ON_PERMISSION"[5];
  }

  lemma RecordTells(
    subcommand: string, surface: string, o: D.Outcome, note: string, senderRole: string, now: string, r: Record)
    requires r == ForOutcome(subcommand, surface, o, note, senderRole, now)
    ensures Tells(r, o, senderRole, now)
  {
    RecordFields(subcommand, surface, o, note, senderRole, now);
    InkOfConstants(surface);
  }

  lemma StateTexts(s: D.State)
    ensures KnownState(StateText(s)) <==> s != D.PaneReadFailed
    ensures RefusalState(StateText(s)) <==> s != D.PaneReadFailed && s != D.DeliveredAcked && s != D.DeliveredNoAck
    ensures StateText(s) == "INPUT_BAR_ONLY" <==> s == D.InputBarOnly
    ensures StateText(s) == "SEAT_CAPPED" <==> s == D.SeatCapped
    ensures StateText(s) == "DELIVERED_ACKED" <==> s == D.DeliveredAcked
    ensures !Blank(StateText(s))
  {
    assert "PANE_READ_FAILED"[0] != "DELIVERED_NO_ACK"[0];
    StartsInk(StateText(s));
  }

  lemma TellsValid(r: Record, o: D.Outcome, senderRole: string, now: string)
    requires Tells(r, o, senderRole, now)
    ensures var signed := !Blank(senderRole) && !Blank(now);
            && (ValidDelivery(r) <==> signed && o.submitted && o.state != D.PaneReadFailed && o.state != D.InputBarOnly)
            && (ValidRefusal(r) <==> signed && !o.submitted && RefusalState(StateText(o.state)))
  {
    StateTexts(o.state);
    assert "delivery" != "send_refusal";
    assert IsRefusal(r) <==> !o.submitted;
    assert Stated(r) <==> !Blank(senderRole) && !Blank(now);
  }

  /** The two programs agree: whatever an attempt reports, the validator reads its record as a
      delivery exactly when the sender exited with zero (and the sender and the time are named),
      and as an acknowledged one exactly when the sender saw the text echoed. Every refusal is a
      valid record, save that of a pane that could not be read. */
  lemma ProgramsAgree(subcommand: string, surface: string, o: D.Outcome, note: string, senderRole: string, now: string)
    requires D.InTable(o)
    ensures var verdict := Attests(ForOutcome(subcommand, surface, o, note, senderRole, now));
            var signed := !Blank(senderRole) && !Blank(now);
            && (verdict == Delivered || verdict == DeliveredNoAck <==> o.exit == D.EXIT_DELIVERED && signed)
            && (verdict == Delivered <==> o.state == D.DeliveredAcked && signed)
            && (verdict == NotDelivered <==> !o.submitted && o.state != D.PaneReadFailed && signed)
  {
    var r := ForOutcome(subcommand, surface, o, note, senderRole, now);
    RecordTells(subcommand, surface, o, note, senderRole, now, r);
    AgreeOn(r, o, senderRole, now);
  }

  lemma AgreeOn(r: Record, o: D.Outcome, senderRole: string, now: string)
    requires D.InTable(o) && Tells(r, o, senderRole, now)
    ensures var signed := !Blank(senderRole) && !Blank(now);
            && (Attests(r) == Delivered || Attests(r) == DeliveredNoAck <==> o.exit == D.EXIT_DELIVERED && signed)
            && (Attests(r) == Delivered <==> o.state == D.DeliveredAcked && signed)
            && (Attests(r) == NotDelivered <==> !o.submitted && o.state != D.PaneReadFailed && signed)
  {
    TellsValid(r, o, senderRole, now);
    StateTexts(o.state);
  }
}
