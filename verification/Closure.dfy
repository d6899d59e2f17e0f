// Closure independence (src/protocol/service.ts:2785-3035): a closure claim is accepted only if
// two parties other than the implementer and the closer each passed the work.

module Closure {
  import opened Wrappers
  import opened Text
  import opened JsonValues
  import opened RoleSlots

  /** The canonical seat a value names, if any, and the library normalisation of artifact-class
      names. */
  datatype Folding = Folding(slot: Option<Json> -> Option<string>, artifactClass: string -> string)

  ghost predicate LawfulFolding(f: Folding) {
    && (forall value :: f.slot(value).Some? ==> value.Some? && value.value.String? && !Blank(value.value.s))
    && (forall s :: f.artifactClass(s) == "" <==> Blank(s))
  }

  /** The validator's own: canonicalRoleSlot. */
  function CanonicalFolding(fold: string -> string, artifactClass: string -> string): Folding {
    Folding(value => CanonicalSlot(fold, value), artifactClass)
  }

  lemma CanonicalFoldingIsLawful(fold: string -> string, artifactClass: string -> string)
    requires LawfulFold(fold) && forall s :: artifactClass(s) == "" <==> Blank(s)
    ensures LawfulFolding(CanonicalFolding(fold, artifactClass))
  {
    forall value | CanonicalSlot(fold, value).Some?
      ensures value.Some? && value.value.String? && !Blank(value.value.s)
    {
      ReadableIsNotBlank(fold, value.value.s);
    }
  }

  // ------------------------------------------------------------------ evidence typing

  predicate IsEvidenceClass(s: string) {
    || s == "observed" || s == "derived" || s == "claimed" || s == "provisional" || s == "blocked"
    || s == "rejected" || s == "accepted"
  }

  predicate VerdictClassName(s: string) {
    s == "qa_verdict" || s == "feedback_finding" || s == "scp_feedback"
  }

  function ArtifactClassOf(f: Folding, v: Record): string {
    match TextOf(v, ArtifactClass)
    case Some(s) => f.artifactClass(s)
    case None => ""
  }

  /** What is stated must be legal, and a verdict-class payload must state its evidence class and
      its source. */
  predicate TypedEvidence(f: Folding, v: Record) {
    && (Present(v, ArtifactClass) ==> HasText(v, ArtifactClass))
    && (Present(v, EvidenceClass) ==>
          && HasText(v, EvidenceClass)
          && TextOf(v, EvidenceClass).value in
             {"observed", "derived", "claimed", "provisional", "blocked", "rejected", "accepted"})
    && (Present(v, SourceBinding) ==> HasText(v, SourceBinding))
    && (ArtifactClassOf(f, v) in {"qa_verdict", "feedback_finding", "scp_feedback"} ==>
          Present(v, EvidenceClass) && Present(v, SourceBinding))
  }

  /** validateEvidenceClassification */
  method ValidateEvidenceClassification(f: Folding, v: Record) returns (valid: bool)
    requires LawfulFolding(f)
    ensures valid <==> TypedEvidence(f, v)
  {
    var invalid: seq<Name> := [];
    var artifactClass := ArtifactClassOf(f, v);
    if Present(v, ArtifactClass) && artifactClass == "" {
      invalid := invalid + [ArtifactClass];
    }
    var hasEvidenceClass := HasText(v, EvidenceClass);
    if Present(v, EvidenceClass) && !hasEvidenceClass {
      invalid := invalid + [EvidenceClass];
    } else if hasEvidenceClass && !IsEvidenceClass(TextOf(v, EvidenceClass).value) {
      invalid := invalid + [EvidenceClass];
    }
    var hasSourceBinding := HasText(v, SourceBinding);
    if Present(v, SourceBinding) && !hasSourceBinding {
      invalid := invalid + [SourceBinding];
    }
    if VerdictClassName(artifactClass) {
      if !hasEvidenceClass { invalid := invalid + [EvidenceClass]; }
      if !hasSourceBinding { invalid := invalid + [SourceBinding]; }
    }
    return invalid == [];
  }

  // ------------------------------------------------------------------ the claim, as it is judged

  datatype Kind = SliceQaPass | HoldoutAccepted | MissionInternalValidator | UnknownKind

  function KindOf(v: Record): Kind {
    var kind := TextOf(v, VerdictKind);
    if kind == Some("SLICE_QA_PASS") then SliceQaPass
    else if kind == Some("HOLDOUT_ACCEPTED") then HoldoutAccepted
    else if kind == Some("MISSION_INTERNAL_VALIDATOR") then MissionInternalValidator
    else UnknownKind
  }

  predicate Passed(v: Record) {
    TextOf(v, Result) == Some("PASS")
  }

  /** One verdict as the closure rules see it. */
  datatype Ballot = Ballot(typed: bool, kind: Kind, passed: bool, emitter: Option<string>)

  /** A claim as the closure rules see it: seats appear only in canonical form. */
  datatype View = View(taskRef: bool, implementer: Option<string>, closer: Option<string>, ballots: Option<seq<Ballot>>)

  function BallotOf(f: Folding, v: Record): Ballot {
    Ballot(TypedEvidence(f, v), KindOf(v), Passed(v), f.slot(Field(v, EmittedBy)))
  }

  function Ballots(f: Folding, items: seq<Json>): (ballots: seq<Ballot>)
    ensures |ballots| == |items|
    ensures forall i :: 0 <= i < |items| ==> ballots[i] == BallotOf(f, AsRecord(items[i]))
  {
    if items == [] then [] else Ballots(f, items[..|items| - 1]) + [BallotOf(f, AsRecord(items[|items| - 1]))]
  }

  function VerdictsOf(claim: Record): Option<seq<Json>> {
    match Field(claim, Verdicts)
    case Some(Array(items)) => Some(items)
    case _ => None
  }

  function ViewOf(f: Folding, claim: Record): View {
    View(!MissingIn(claim)(TaskRef), f.slot(Field(claim, ImplementerLane)),
         f.slot(Field(claim, ClosingAuthority)),
         match VerdictsOf(claim) case Some(items) => Some(Ballots(f, items)) case None => None)
  }

  // ------------------------------------------------------------------ the rule

  /** Somebody readable who neither implemented nor closes. */
  predicate ThirdParty(w: View, b: Ballot) {
    b.emitter.Some? && b.emitter != w.implementer && b.emitter != w.closer
  }

  predicate Sound(w: View, b: Ballot) {
    b.typed && b.kind != UnknownKind && ThirdParty(w, b)
  }

  /** An independent pass of the lane by the seat. */
  predicate PassBy(w: View, b: Ballot, lane: Kind, seat: string) {
    b.kind == lane && b.passed && ThirdParty(w, b) && b.emitter == Some(seat)
  }

  ghost predicate LanePassed(w: View, ballots: seq<Ballot>, lane: Kind, seat: string) {
    exists i :: 0 <= i < |ballots| && PassBy(w, ballots[i], lane, seat)
  }

  ghost predicate AllSound(w: View, ballots: seq<Ballot>) {
    forall i :: 0 <= i < |ballots| ==> Sound(w, ballots[i])
  }

  ghost predicate LanesSeparate(w: View, ballots: seq<Ballot>) {
    && AllSound(w, ballots)
    && (exists seat :: LanePassed(w, ballots, SliceQaPass, seat))
    && (exists seat :: LanePassed(w, ballots, HoldoutAccepted, seat))
    && LanesApart(w, ballots)
  }

  /** No seat passed both lanes. */
  ghost predicate LanesApart(w: View, ballots: seq<Ballot>) {
    forall seat :: LanePassed(w, ballots, SliceQaPass, seat) ==> !LanePassed(w, ballots, HoldoutAccepted, seat)
  }

  /** Four parties: an implementer, a closer, and a third and a fourth seat that passed one lane
      each; no verdict in any other hand, and no seat on both lanes. */
  ghost predicate FourPartySeparation(w: View) {
    && w.taskRef && w.implementer.Some? && w.closer.Some? && w.ballots.Some?
    && LanesSeparate(w, w.ballots.value)
  }

  // ------------------------------------------------------------------ the validator

  /** The state of the loop over the verdicts. */
  ghost predicate Tallied(w: View, ballots: seq<Ballot>, faulty: bool, slice: set<string>, holdout: set<string>) {
    && (!faulty <==> AllSound(w, ballots))
    && (forall seat :: seat in slice <==> LanePassed(w, ballots, SliceQaPass, seat))
    && (forall seat :: seat in holdout <==> LanePassed(w, ballots, HoldoutAccepted, seat))
  }

  lemma LaneSnoc(w: View, ballots: seq<Ballot>, b: Ballot, lane: Kind, seat: string)
    ensures LanePassed(w, ballots + [b], lane, seat) <==> LanePassed(w, ballots, lane, seat) || PassBy(w, b, lane, seat)
  {
    var more := ballots + [b];
    if LanePassed(w, ballots, lane, seat) {
      var i :| 0 <= i < |ballots| && PassBy(w, ballots[i], lane, seat);
      assert PassBy(w, more[i], lane, seat);
    }
    if PassBy(w, b, lane, seat) {
      assert PassBy(w, more[|ballots|], lane, seat);
    }
  }

  function Joined(seats: set<string>, w: View, b: Ballot, lane: Kind): set<string> {
    if ThirdParty(w, b) && b.passed && b.kind == lane then seats + {b.emitter.value} else seats
  }

  lemma TallySnoc(w: View, ballots: seq<Ballot>, faulty: bool, slice: set<string>, holdout: set<string>, b: Ballot)
    requires Tallied(w, ballots, faulty, slice, holdout)
    ensures Tallied(w, ballots + [b], faulty || !Sound(w, b),
                    Joined(slice, w, b, SliceQaPass), Joined(holdout, w, b, HoldoutAccepted))
  {
    forall seat
      ensures seat in Joined(slice, w, b, SliceQaPass) <==> LanePassed(w, ballots + [b], SliceQaPass, seat)
      ensures seat in Joined(holdout, w, b, HoldoutAccepted) <==> LanePassed(w, ballots + [b], HoldoutAccepted, seat)
    {
      LaneSnoc(w, ballots, b, SliceQaPass, seat);
      LaneSnoc(w, ballots, b, HoldoutAccepted, seat);
    }
    assert (ballots + [b])[|ballots|] == b;
    assert forall i :: 0 <= i < |ballots| ==> (ballots + [b])[i] == ballots[i];
  }

  method ReadBallot(f: Folding, v: Record) returns (b: Ballot)
    requires LawfulFolding(f)
    ensures b == BallotOf(f, v)
  {
    var typed := ValidateEvidenceClassification(f, v);
    b := Ballot(typed, KindOf(v), Passed(v), f.slot(Field(v, EmittedBy)));
  }

  lemma BallotsStep(f: Folding, items: seq<Json>, i: nat)
    requires i < |items|
    ensures Ballots(f, items)[..i + 1] == Ballots(f, items)[..i] + [BallotOf(f, AsRecord(items[i]))]
  {
  }

  /** The body of the loop; its early returns are the source's `continue`s. */
  method JudgeOne(w: View, b: Ballot, slice: set<string>, holdout: set<string>)
    returns (sound: bool, slice': set<string>, holdout': set<string>)
    ensures sound <==> Sound(w, b)
    ensures slice' == Joined(slice, w, b, SliceQaPass) && holdout' == Joined(holdout, w, b, HoldoutAccepted)
  {
    sound, slice', holdout' := b.typed, slice, holdout;
    if b.kind == UnknownKind { return false, slice, holdout; }
    if b.emitter == None { return false, slice, holdout; }
    if b.emitter == w.implementer { return false, slice, holdout; }
    if b.emitter == w.closer { return false, slice, holdout; }
    if b.passed {
      if b.kind == SliceQaPass { slice' := slice + {b.emitter.value}; }
      if b.kind == HoldoutAccepted { holdout' := holdout + {b.emitter.value}; }
    }
  }

  /** The loop of validateClosureIndependence over the verdicts. */
  method JudgeVerdicts(f: Folding, w: View, items: seq<Json>)
    returns (faulty: bool, slice: set<string>, holdout: set<string>)
    requires LawfulFolding(f)
    ensures Tallied(w, Ballots(f, items), faulty, slice, holdout)
  {
    faulty, slice, holdout := false, {}, {};
    ghost var ballots := Ballots(f, items);
    for i := 0 to |items|
      invariant Tallied(w, ballots[..i], faulty, slice, holdout)
    {
      var b := ReadBallot(f, AsRecord(items[i]));
      BallotsStep(f, items, i);
      TallySnoc(w, ballots[..i], faulty, slice, holdout, b);
      var sound: bool;
      sound, slice, holdout := JudgeOne(w, b, slice, holdout);
      faulty := faulty || !sound;
    }
    assert ballots[..|items|] == ballots;
  }

  predicate PartyUnreadable(f: Folding, claim: Record, name: Name) {
    Present(claim, name) && !(claim[name].String? && Blank(claim[name].s)) && f.slot(Field(claim, name)) == None
  }

  /** validateClosureIndependence accepts a claim exactly when its four parties are separate. */
  method ValidateClosureIndependence(f: Folding, claim: Record) returns (valid: bool)
    requires LawfulFolding(f)
    ensures valid <==> FourPartySeparation(ViewOf(f, claim))
    ensures valid <==> SeparateOnClaim(f, claim)
  {
    var missing := ValidateRequiredFields(claim, [TaskRef, ImplementerLane, ClosingAuthority, Verdicts]);
    var invalid: seq<Name> := [];
    var items := VerdictsOf(claim);
    var w := ViewOf(f, claim);
    if Verdicts in claim && items == None { invalid := invalid + [Verdicts]; }
    if PartyUnreadable(f, claim, ImplementerLane) { invalid := invalid + [ImplementerLane]; }
    if PartyUnreadable(f, claim, ClosingAuthority) { invalid := invalid + [ClosingAuthority]; }
    if items.Some? {
      if items.value == [] { invalid := invalid + [Verdicts]; }
      var faulty, slice, holdout := JudgeVerdicts(f, w, items.value);
      if faulty { invalid := invalid + [Verdicts]; }
      if slice * holdout != {} { invalid := invalid + [Verdicts]; }
      var closureEligible := slice != {} && holdout != {};
      if items.value != [] && !closureEligible && Verdicts !in invalid { invalid := invalid + [Verdicts]; }
      LanesTold(w, w.ballots.value, faulty, slice, holdout);
    }
    RequiredClaimFields(claim);
    PartyReadable(f, claim, ImplementerLane);
    PartyReadable(f, claim, ClosingAuthority);
    AcceptedOnClaim(f, claim);
    return missing == [] && invalid == [];
  }

  lemma LanesTold(w: View, ballots: seq<Ballot>, faulty: bool, slice: set<string>, holdout: set<string>)
    requires Tallied(w, ballots, faulty, slice, holdout)
    ensures LanesSeparate(w, ballots) <==> !faulty && slice * holdout == {} && slice != {} && holdout != {}
    ensures LanesSeparate(w, ballots) ==> ballots != []
  {
    assert slice != {} <==> exists seat :: LanePassed(w, ballots, SliceQaPass, seat) by {
      if slice != {} {
        var seat :| seat in slice;
        assert LanePassed(w, ballots, SliceQaPass, seat);
      }
    }
    assert holdout != {} <==> exists seat :: LanePassed(w, ballots, HoldoutAccepted, seat) by {
      if holdout != {} {
        var seat :| seat in holdout;
        assert LanePassed(w, ballots, HoldoutAccepted, seat);
      }
    }
    assert slice * holdout == {} <==> LanesApart(w, ballots) by {
      forall seat
        ensures seat in slice * holdout <==> seat in slice && LanePassed(w, ballots, HoldoutAccepted, seat)
      {
      }
    }
  }

  lemma RequiredClaimFields(claim: Record)
    ensures ValidateRequiredFields(claim, [TaskRef, ImplementerLane, ClosingAuthority, Verdicts]) == [] <==>
            && !MissingIn(claim)(TaskRef) && !MissingIn(claim)(ImplementerLane)
            && !MissingIn(claim)(ClosingAuthority) && !MissingIn(claim)(Verdicts)
  {
    var required := [TaskRef, ImplementerLane, ClosingAuthority, Verdicts];
    NothingMissing(claim, required);
    assert forall i :: 0 <= i < |required| ==> required[i] in required;
    assert required[0] == TaskRef && required[1] == ImplementerLane;
    assert required[2] == ClosingAuthority && required[3] == Verdicts;
  }

  lemma PartyReadable(f: Folding, claim: Record, name: Name)
    requires LawfulFolding(f)
    ensures f.slot(Field(claim, name)).Some? <==> !MissingIn(claim)(name) && !PartyUnreadable(f, claim, name)
  {
  }

  // ------------------------------------------------------------------ on the claim itself

  /** An entry of the claim's verdict list with these two fields. */
  predicate Entry(items: seq<Json>, i: int, kind: string) {
    && 0 <= i < |items| && items[i].Object? && VerdictKind in items[i].fields
    && items[i].fields[VerdictKind] == String(kind)
  }

  predicate Pass(items: seq<Json>, i: int, kind: string) {
    Entry(items, i, kind) && Result in items[i].fields && items[i].fields[Result] == String("PASS")
  }

  /** The seat that the entry says emitted it. */
  function Emitter(f: Folding, items: seq<Json>, i: int): Option<string>
    requires 0 <= i < |items|
  {
    f.slot(Field(AsRecord(items[i]), EmittedBy))
  }

  /** The entry is soundly typed, of one of the three kinds, and from a seat that is neither party. */
  predicate EntrySound(f: Folding, claim: Record, items: seq<Json>, i: int)
    requires 0 <= i < |items|
  {
    && TypedEvidence(f, AsRecord(items[i]))
    && (Entry(items, i, "SLICE_QA_PASS") || Entry(items, i, "HOLDOUT_ACCEPTED")
        || Entry(items, i, "MISSION_INTERNAL_VALIDATOR"))
    && Emitter(f, items, i).Some?
    && Emitter(f, items, i) != f.slot(Field(claim, ImplementerLane))
    && Emitter(f, items, i) != f.slot(Field(claim, ClosingAuthority))
  }

  ghost predicate EntriesSound(f: Folding, claim: Record, items: seq<Json>) {
    forall i :: 0 <= i < |items| ==> EntrySound(f, claim, items, i)
  }

  /** No seat has a passing entry in each lane. */
  ghost predicate EntriesApart(f: Folding, items: seq<Json>) {
    forall i, j :: Pass(items, i, "SLICE_QA_PASS") && Pass(items, j, "HOLDOUT_ACCEPTED") ==>
      Emitter(f, items, i) != Emitter(f, items, j)
  }

  /** The rule on the claim's own fields: both lanes have a passing entry, and no seat has one in each. */
  ghost predicate SeparateOnClaim(f: Folding, claim: Record) {
    && TaskRef in claim && claim[TaskRef] != Null && (claim[TaskRef].String? ==> !Blank(claim[TaskRef].s))
    && f.slot(Field(claim, ImplementerLane)).Some? && f.slot(Field(claim, ClosingAuthority)).Some?
    && Verdicts in claim && claim[Verdicts].Array?
    && var items := claim[Verdicts].items;
       && EntriesSound(f, claim, items)
       && (exists i :: Pass(items, i, "SLICE_QA_PASS")) && (exists j :: Pass(items, j, "HOLDOUT_ACCEPTED"))
       && EntriesApart(f, items)
  }

  lemma BallotIsEntry(f: Folding, items: seq<Json>, i: nat)
    requires i < |items|
    ensures var b := Ballots(f, items)[i];
            && b.typed == TypedEvidence(f, AsRecord(items[i])) && b.emitter == Emitter(f, items, i)
            && (b.kind == SliceQaPass <==> Entry(items, i, "SLICE_QA_PASS"))
            && (b.kind == HoldoutAccepted <==> Entry(items, i, "HOLDOUT_ACCEPTED"))
            && (b.kind == MissionInternalValidator <==> Entry(items, i, "MISSION_INTERNAL_VALIDATOR"))
            && (b.passed ==> items[i].Object?)
            && (b.passed <==> Field(AsRecord(items[i]), Result) == Some(String("PASS")))
  {
    var kind := TextOf(AsRecord(items[i]), VerdictKind);
    assert Entry(items, i, "SLICE_QA_PASS") <==> kind == Some("SLICE_QA_PASS");
    assert Entry(items, i, "HOLDOUT_ACCEPTED") <==> kind == Some("HOLDOUT_ACCEPTED");
    assert Entry(items, i, "MISSION_INTERNAL_VALIDATOR") <==> kind == Some("MISSION_INTERNAL_VALIDATOR");
  }

  lemma SoundOnClaim(f: Folding, claim: Record, items: seq<Json>, i: nat)
    requires Field(claim, Verdicts) == Some(Array(items)) && i < |items|
    ensures EntrySound(f, claim, items, i) <==> Sound(ViewOf(f, claim), Ballots(f, items)[i])
  {
    BallotIsEntry(f, items, i);
  }

  lemma AllSoundOnClaim(f: Folding, claim: Record, items: seq<Json>, w: View, ballots: seq<Ballot>)
    requires Field(claim, Verdicts) == Some(Array(items)) && w == ViewOf(f, claim) && ballots == Ballots(f, items)
    ensures EntriesSound(f, claim, items) <==> AllSound(w, ballots)
  {
    forall i | 0 <= i < |items| ensures EntrySound(f, claim, items, i) <==> Sound(w, ballots[i]) {
      SoundOnClaim(f, claim, items, i);
    }
  }

  /** With sound entries, a seat passed a lane exactly if one of its entries of that kind says PASS. */
  lemma LaneOnClaim(f: Folding, claim: Record, items: seq<Json>, lane: Kind, kind: string, seat: string)
    requires Field(claim, Verdicts) == Some(Array(items)) && EntriesSound(f, claim, items)
    requires (lane == SliceQaPass && kind == "SLICE_QA_PASS") || (lane == HoldoutAccepted && kind == "HOLDOUT_ACCEPTED")
    ensures LanePassed(ViewOf(f, claim), Ballots(f, items), lane, seat) <==>
            exists i :: Pass(items, i, kind) && Emitter(f, items, i) == Some(seat)
  {
    var w, ballots := ViewOf(f, claim), Ballots(f, items);
    if LanePassed(w, ballots, lane, seat) {
      var i :| 0 <= i < |ballots| && PassBy(w, ballots[i], lane, seat);
      BallotIsEntry(f, items, i);
      assert Pass(items, i, kind);
    }
    if i :| Pass(items, i, kind) && Emitter(f, items, i) == Some(seat) {
      BallotIsEntry(f, items, i);
      SoundOnClaim(f, claim, items, i);
      assert PassBy(w, ballots[i], lane, seat);
    }
  }

  /** The four-party rule is that rule. */
  lemma AcceptedOnClaim(f: Folding, claim: Record)
    ensures FourPartySeparation(ViewOf(f, claim)) <==> SeparateOnClaim(f, claim)
  {
    if VerdictsOf(claim).Some? {
      var items := VerdictsOf(claim).value;
      AllSoundOnClaim(f, claim, items, ViewOf(f, claim), Ballots(f, items));
      if EntriesSound(f, claim, items) {
        LanesOnClaim(f, claim, items, ViewOf(f, claim), Ballots(f, items));
      }
    }
  }

  lemma LanesOnClaim(f: Folding, claim: Record, items: seq<Json>, w: View, ballots: seq<Ballot>)
    requires Field(claim, Verdicts) == Some(Array(items)) && EntriesSound(f, claim, items)
    requires w == ViewOf(f, claim) && ballots == Ballots(f, items)
    ensures LanesSeparate(w, ballots) <==>
              && (exists i :: Pass(items, i, "SLICE_QA_PASS")) && (exists j :: Pass(items, j, "HOLDOUT_ACCEPTED"))
              && EntriesApart(f, items)
  {
    AllSoundOnClaim(f, claim, items, w, ballots);
    BothLanes(f, claim, items);
    ApartOnClaim(f, claim, items);
  }

  lemma BothLanes(f: Folding, claim: Record, items: seq<Json>)
    requires Field(claim, Verdicts) == Some(Array(items)) && EntriesSound(f, claim, items)
    ensures (exists seat :: LanePassed(ViewOf(f, claim), Ballots(f, items), SliceQaPass, seat)) <==>
            exists i :: Pass(items, i, "SLICE_QA_PASS")
    ensures (exists seat :: LanePassed(ViewOf(f, claim), Ballots(f, items), HoldoutAccepted, seat)) <==>
            exists i :: Pass(items, i, "HOLDOUT_ACCEPTED")
  {
    SomeSeat(f, claim, items, SliceQaPass, "SLICE_QA_PASS");
    SomeSeat(f, claim, items, HoldoutAccepted, "HOLDOUT_ACCEPTED");
  }

  lemma ApartOnClaim(f: Folding, claim: Record, items: seq<Json>)
    requires Field(claim, Verdicts) == Some(Array(items)) && EntriesSound(f, claim, items)
    ensures LanesApart(ViewOf(f, claim), Ballots(f, items)) <==> EntriesApart(f, items)
  {
    var w, ballots := ViewOf(f, claim), Ballots(f, items);
    if LanesApart(w, ballots) {
      forall i, j | Pass(items, i, "SLICE_QA_PASS") && Pass(items, j, "HOLDOUT_ACCEPTED")
        ensures Emitter(f, items, i) != Emitter(f, items, j)
      {
        assert EntrySound(f, claim, items, i);
        var seat := Emitter(f, items, i).value;
        LaneOnClaim(f, claim, items, SliceQaPass, "SLICE_QA_PASS", seat);
        LaneOnClaim(f, claim, items, HoldoutAccepted, "HOLDOUT_ACCEPTED", seat);
      }
    }
    if EntriesApart(f, items) {
      forall seat | LanePassed(w, ballots, SliceQaPass, seat) ensures !LanePassed(w, ballots, HoldoutAccepted, seat) {
        LaneOnClaim(f, claim, items, SliceQaPass, "SLICE_QA_PASS", seat);
        LaneOnClaim(f, claim, items, HoldoutAccepted, "HOLDOUT_ACCEPTED", seat);
      }
    }
  }

  lemma SomeSeat(f: Folding, claim: Record, items: seq<Json>, lane: Kind, kind: string)
    requires Field(claim, Verdicts) == Some(Array(items)) && EntriesSound(f, claim, items)
    requires (lane == SliceQaPass && kind == "SLICE_QA_PASS") || (lane == HoldoutAccepted && kind == "HOLDOUT_ACCEPTED")
    ensures (exists seat :: LanePassed(ViewOf(f, claim), Ballots(f, items), lane, seat)) <==>
            exists i :: Pass(items, i, kind)
  {
    if i :| Pass(items, i, kind) {
      assert EntrySound(f, claim, items, i);
      LaneOnClaim(f, claim, items, lane, kind, Emitter(f, items, i).value);
    }
    if seat :| LanePassed(ViewOf(f, claim), Ballots(f, items), lane, seat) {
      LaneOnClaim(f, claim, items, lane, kind, seat);
    }
  }

  /** A claim one of whose lanes has no entry that says PASS is never accepted, whatever its other
      entries are. */
  lemma FailedLaneRejects(f: Folding, claim: Record, kind: string)
    requires kind == "SLICE_QA_PASS" || kind == "HOLDOUT_ACCEPTED"
    requires Verdicts in claim && claim[Verdicts].Array?
    requires forall i :: Entry(claim[Verdicts].items, i, kind) ==> !Pass(claim[Verdicts].items, i, kind)
    ensures !FourPartySeparation(ViewOf(f, claim))
  {
    AcceptedOnClaim(f, claim);
  }

  // ------------------------------------------------------------------ respelling

  /** `spelling` names the seat that `value` names. */
  predicate SameSeat(f: Folding, value: Option<Json>, spelling: string) {
    f.slot(value).Some? && f.slot(value) == f.slot(Some(String(spelling)))
  }

  /** The claim with one party's seat written another way. */
  lemma RespelledParty(f: Folding, claim: Record, name: Name, spelling: string)
    requires LawfulFolding(f) && (name == ImplementerLane || name == ClosingAuthority)
    requires SameSeat(f, Field(claim, name), spelling)
    ensures ViewOf(f, claim[name := String(spelling)]) == ViewOf(f, claim)
  {
    var told := claim[name := String(spelling)];
    assert Field(told, TaskRef) == Field(claim, TaskRef) && Field(told, Verdicts) == Field(claim, Verdicts);
    assert Field(told, name) == Some(String(spelling));
  }

  /** A verdict with its emitter's seat written another way. */
  lemma RespelledEmitter(f: Folding, v: Record, spelling: string)
    requires SameSeat(f, Field(v, EmittedBy), spelling)
    ensures BallotOf(f, v[EmittedBy := String(spelling)]) == BallotOf(f, v)
  {
    var told := v[EmittedBy := String(spelling)];
    SameEvidence(f, told, v);
    SameField(told, v, VerdictKind);
    SameField(told, v, Result);
    assert KindOf(told) == KindOf(v);
  }

  lemma SameEvidence(f: Folding, a: Record, b: Record)
    requires Field(a, ArtifactClass) == Field(b, ArtifactClass)
    requires Field(a, EvidenceClass) == Field(b, EvidenceClass)
    requires Field(a, SourceBinding) == Field(b, SourceBinding)
    ensures TypedEvidence(f, a) <==> TypedEvidence(f, b)
  {
    SameField(a, b, ArtifactClass);
    SameField(a, b, EvidenceClass);
    SameField(a, b, SourceBinding);
    assert ArtifactClassOf(f, a) == ArtifactClassOf(f, b);
  }

  lemma SameField(a: Record, b: Record, name: Name)
    requires Field(a, name) == Field(b, name)
    ensures Present(a, name) <==> Present(b, name)
    ensures TextOf(a, name) == TextOf(b, name)
  {
  }

  function Respelled(items: seq<Json>, i: nat, spelling: string): seq<Json>
    requires i < |items| && items[i].Object?
  {
    items[i := Object(items[i].fields[EmittedBy := String(spelling)])]
  }

  lemma RespelledBallots(f: Folding, items: seq<Json>, i: nat, spelling: string)
    requires i < |items| && items[i].Object?
    requires SameSeat(f, Field(items[i].fields, EmittedBy), spelling)
    ensures Ballots(f, Respelled(items, i, spelling)) == Ballots(f, items)
  {
    RespelledEmitter(f, items[i].fields, spelling);
    var told := Respelled(items, i, spelling);
    forall k | 0 <= k < |items| ensures Ballots(f, told)[k] == Ballots(f, items)[k] {
      if k == i {
        assert AsRecord(told[i]) == items[i].fields[EmittedBy := String(spelling)];
      }
    }
  }

  /** Respelling any verdict's emitter leaves what the rules see, and so the outcome, unchanged. */
  lemma RespelledVerdict(f: Folding, claim: Record, items: seq<Json>, i: nat, spelling: string)
    requires i < |items| && Field(claim, Verdicts) == Some(Array(items)) && items[i].Object?
    requires SameSeat(f, Field(items[i].fields, EmittedBy), spelling)
    ensures ViewOf(f, claim[Verdicts := Array(Respelled(items, i, spelling))]) == ViewOf(f, claim)
  {
    var told := claim[Verdicts := Array(Respelled(items, i, spelling))];
    RespelledBallots(f, items, i, spelling);
    assert Field(told, TaskRef) == Field(claim, TaskRef);
    assert Field(told, ImplementerLane) == Field(claim, ImplementerLane);
    assert Field(told, ClosingAuthority) == Field(claim, ClosingAuthority);
  }
}
