// The governance event union of src/protocol/event-registry/types.ts, with the schema's
// length constraints (src/protocol/schemas.ts) as a predicate.

module Events {
  import opened Wrappers

  datatype EventClass = ATTEMPT | FINDING | BREAK_GLASS | BUDGET | TERMINAL | AUDIT

  datatype AttemptType = ATTEMPT_STARTED | ATTEMPT_COUNTED | ATTEMPT_REFUSED
  datatype FindingType = FINDING_OPENED | FINDING_OWNED | FINDING_DELIVERED | FINDING_CLOSED
  datatype BudgetType = BUDGET_CROSSED | BUDGET_EXHAUSTED
  datatype TerminalType = TERMINAL_BLOCKED | TERMINAL_COMPLETED
  datatype AuditType = AUDIT_OPENED | AUDIT_COMPLETED
  datatype Trigger = Start | Reset | Restaff | Rename | Cure | Rerun
  datatype BudgetKind = Tokens | Time | Artifacts | Roles

  datatype ContentHash = ContentHash(path: string, sha256: string)
  datatype AuditTarget = OrdinaryWork | AuditOf(targetEventId: string)

  datatype Event =
    | Attempt(eventId: string, ts: string, objective: string, actorRole: Option<string>,
              attemptType: AttemptType, attemptIndex: Option<int>, trigger: Option<Trigger>)
    | Finding(eventId: string, ts: string, objective: string, actorRole: Option<string>,
              findingType: FindingType, findingId: string, ownerRole: Option<string>)
    | BreakGlass(eventId: string, ts: string, objective: string, actorRole: Option<string>,
                 authorizingHuman: string, contradictionRef: string)
    | Budget(eventId: string, ts: string, objective: string, actorRole: Option<string>,
             budgetType: BudgetType, budgetKind: BudgetKind)
    | Terminal(eventId: string, ts: string, objective: string, actorRole: Option<string>,
               terminalType: TerminalType, contentHashes: seq<ContentHash>)
    | Audit(eventId: string, ts: string, objective: string, actorRole: Option<string>,
            auditType: AuditType, target: AuditTarget)
  {
    function Class(): (k: EventClass)
      ensures (k == ATTEMPT <==> Attempt?) && (k == FINDING <==> Finding?) && (k == BREAK_GLASS <==> BreakGlass?)
      ensures (k == BUDGET <==> Budget?) && (k == TERMINAL <==> Terminal?) && (k == AUDIT <==> Audit?)
    {
      match this
      case Attempt(_, _, _, _, _, _, _) => ATTEMPT
      case Finding(_, _, _, _, _, _, _) => FINDING
      case BreakGlass(_, _, _, _, _, _) => BREAK_GLASS
      case Budget(_, _, _, _, _, _) => BUDGET
      case Terminal(_, _, _, _, _, _) => TERMINAL
      case Audit(_, _, _, _, _, _) => AUDIT
    }

    predicate IsTerminalBlocked() {
      Terminal? && terminalType == TERMINAL_BLOCKED
    }
  }

  predicate NonEmpty(s: Option<string>) {
    s.Some? ==> s.value != ""
  }

  /** The strict schema of src/protocol/schemas.ts:1018-1098. */
  predicate ValidEvent(e: Event) {
    && e.eventId != "" && e.ts != "" && e.objective != "" && NonEmpty(e.actorRole)
    && match e
       case Attempt(_, _, _, _, _, index, _) => index.Some? ==> index.value >= 1
       case Finding(_, _, _, _, _, findingId, owner) => findingId != "" && NonEmpty(owner)
       case BreakGlass(_, _, _, _, human, reference) => human != "" && reference != ""
       case Budget(_, _, _, _, _, _) => true
       case Terminal(_, _, _, _, _, hashes) =>
         && hashes != []
         && forall h :: h in hashes ==> h.path != "" && h.sha256 != ""
       case Audit(_, _, _, _, _, target) => target.AuditOf? ==> target.targetEventId != ""
  }

  function Given(s: Option<string>): set<string> {
    match s
    case Some(text) => {text}
    case None => {}
  }

  /** Every string that an event carries. */
  function StringsOf(e: Event): set<string> {
    {e.eventId, e.ts, e.objective} + Given(e.actorRole) +
    match e
    case Attempt(_, _, _, _, _, _, _) => {}
    case Finding(_, _, _, _, _, id, owner) => {id} + Given(owner)
    case BreakGlass(_, _, _, _, human, reference) => {human, reference}
    case Budget(_, _, _, _, _, _) => {}
    case Terminal(_, _, _, _, _, hashes) => (set h | h in hashes :: h.path) + (set h | h in hashes :: h.sha256)
    case Audit(_, _, _, _, _, target) => if target.AuditOf? then {target.targetEventId} else {}
  }

  /** The schema rejects an event for an empty string, an attempt number below one, or a terminal
      event without hashes, and for nothing else. */
  lemma NoEmptyStrings(e: Event)
    ensures ValidEvent(e) <==>
              && "" !in StringsOf(e)
              && (e.Attempt? && e.attemptIndex.Some? ==> e.attemptIndex.value >= 1)
              && (e.Terminal? ==> e.contentHashes != [])
  {
    if e.Terminal? {
      HashStrings(e.contentHashes);
    }
  }

  lemma HashStrings(hashes: seq<ContentHash>)
    ensures "" !in (set h | h in hashes :: h.path) + (set h | h in hashes :: h.sha256) <==>
            forall h :: h in hashes ==> h.path != "" && h.sha256 != ""
  {
    forall h | h in hashes
      ensures h.path in (set h | h in hashes :: h.path) && h.sha256 in (set h | h in hashes :: h.sha256)
    {
    }
  }
}
