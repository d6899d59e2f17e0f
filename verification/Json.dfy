// JSON values as the validators see them, and the shared field checks
// (src/protocol/validators.ts:12-65). An absent field and an undefined one are the same.

module JsonValues {
  import opened Wrappers
  import opened Sequences
  import opened Text

  /** The field names this model reads or writes; any other name is `Other`. */
  datatype Name =
    | RecordKind | Timestamp | Subcommand | TargetSurfaceLocator | Submitted | VerificationMethod
    | ObservedProcessingState | SenderRole | Note | Polls | WaitedMs | HarnessName | HarnessSource | QueuedFlag
    | ResetAt | CapMarkerId | DryRun | TargetSubmitProfile | PayloadPreview | PayloadContainsNewline
    | NewlinesFlattened | TaskRef | ImplementerLane | ClosingAuthority | Verdicts | VerdictKind | Result
    | EmittedBy | ArtifactClass | EvidenceClass | SourceBinding | Other(text: string)

  datatype Json =
    | Null | Bool(b: bool) | Number(n: int) | String(s: string) | Array(items: seq<Json>) | Object(fields: Record)

  type Record = map<Name, Json>

  function Field(r: Record, name: Name): Option<Json> {
    if name in r then Some(r[name]) else None
  }

  /** Neither undefined nor null. */
  predicate Present(r: Record, name: Name) {
    name in r && r[name] != Null
  }

  predicate IsTrue(r: Record, name: Name) {
    Field(r, name) == Some(Bool(true))
  }

  function AsRecord(j: Json): Record {
    if j.Object? then j.fields else map[]
  }

  /** The field's string value, if it has one. */
  function TextOf(r: Record, name: Name): Option<string> {
    match Field(r, name)
    case Some(String(s)) => Some(s)
    case _ => None
  }

  /** A non-blank string. */
  predicate HasText(r: Record, name: Name) {
    TextOf(r, name).Some? && !Blank(TextOf(r, name).value)
  }

  function MissingIn(r: Record): Name -> bool {
    (name: Name) => !Present(r, name) || (r[name].String? && Blank(r[name].s))
  }

  function NotText(r: Record): Name -> bool {
    (name: Name) => Present(r, name) && !(r[name].String? && !Blank(r[name].s))
  }

  /** validateRequiredFields */
  function ValidateRequiredFields(r: Record, required: seq<Name>): seq<Name> {
    Filter(required, MissingIn(r))
  }

  /** validateFieldTypes, for fields that must be strings. */
  function ValidateTextFields(r: Record, names: seq<Name>): seq<Name> {
    Filter(names, NotText(r))
  }

  lemma NothingMissing(r: Record, required: seq<Name>)
    ensures ValidateRequiredFields(r, required) == [] <==> forall name :: name in required ==> !MissingIn(r)(name)
  {
    EmptyFilter(required, MissingIn(r));
  }

  lemma NothingMistyped(r: Record, names: seq<Name>)
    ensures ValidateTextFields(r, names) == [] <==> forall name :: name in names ==> !NotText(r)(name)
  {
    EmptyFilter(names, NotText(r));
  }

  lemma EmptyFilter(s: seq<Name>, p: Name -> bool)
    ensures Filter(s, p) == [] <==> forall x :: x in s ==> !p(x)
  {
    FilterMembers(s, p);
    if Filter(s, p) != [] {
      assert Filter(s, p)[0] in Filter(s, p);
    }
  }

  /** A null field is judged as an absent one: missing where it is required, and of no wrong type. */
  lemma NullIsAbsent(r: Record, name: Name)
    requires Field(r, name) in {None, Some(Null)}
    ensures !Present(r, name) && MissingIn(r)(name) && !NotText(r)(name) && !HasText(r, name)
  {
  }

  /** A required field of string type passes both checks exactly when it is a non-blank string. */
  lemma RequiredText(r: Record, name: Name)
    ensures !MissingIn(r)(name) && !NotText(r)(name) <==> HasText(r, name)
  {
  }
}
