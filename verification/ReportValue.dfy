/** The measurement document after JSON text has been read: a tree of values
    whose member names and fixed strings are enumerations. */
module ReportValue {
  import opened Prelude

  datatype Key =
    | Schema | Status | Boundary | WireName | Kind | RateHz | RequestedUpdates
    | Offered | Admitted | Rejected | RejectedSettlements | Unresolved
    | Coalesced | Settled | Timeouts | Disconnects | MaxInFlight | MaxQueueDepth
    | ElapsedNs | Samples | Failures | UnresolvedUpdates | Error
    | CheckpointMode | FrontendAcks | Pixels | Acceptance
    | OfferedSequence | Reason | RequestId | Transaction
    | ScheduledNs | EnqueuedNs | ObservedNs | SettledNs | OutcomeName
    | UnknownKey(name: string)

  datatype Word =
    | Complete | Failed
    | CurrentIpc | NineP2000L
    | Move | Resize
    | EnqueueRefused | TimedOut | Disconnected | RejectedStale | RejectedInvalid | MeasurementDeadline
    | Committed
    | SessionBoundary | NormalCheckpoint | SuppliedAcks | SuppliedPixels
    | Diagnostic(first: Option<Fault>, interrupted: bool)
    | OtherText(text: string)

  /** The texts a capture can stop with, each a fixed string of the fixture save
      the two that carry another component's words. A diagnostic is the first
      such text, with the fixture's note appended when accounting was interrupted. */
  datatype Fault =
    | RepeatedQueuedGeometry
    | OwnerDisappeared
    | UnmeasuredSource
    | UnmeasuredEntry
    | UnmeasuredCause
    | IdentityChanged
    | CustodyLost
    | UnmeasuredProposal
    | SettlementWithoutRequest
    | LayoutOutcome(reason: Word)
    | TransportFailed
    | ProposalWithoutIdentity
    | AbsoluteDeadline
    | OwnerWords(text: string)
    | PanicWords(text: string)

  /** `Fraction` stands for every number that is not an integer. */
  datatype Value =
    | Null
    | Bool(flag: bool)
    | Number(n: int)
    | Fraction
    | Text(word: Word)
    | Array(items: seq<Value>)
    | Object(members: map<Key, Value>)

  datatype Refusal =
    | FieldsMismatch | BadNumber(key: Key) | BadChoice(key: Key) | NotAnArray(key: Key)
    | UnsupportedSchema | UnknownQualification | RateOrUpdatesOutOfRange
    | CountersExceedOffered | IncoherentCounters | TooManyRecords | CompleteWithFailedWork
    | BadTiming | BadFailureIdentity | RepeatedIdentity | ReasonsDisagree
    | NotCommitted | BadSampleOrder

  /** Indexing by a member name: anything absent reads as null. */
  function Get(value: Value, key: Key): Value {
    if value.Object? && key in value.members then value.members[key] else Null
  }

  function AsU64(value: Value): Option<u64> {
    if value.Number? && 0 <= value.n < TWO64 then Some(value.n) else None
  }

  function NumberAt(value: Value, key: Key): Result<u64, Refusal> {
    match AsU64(Get(value, key))
    case Some(n) => Success(n)
    case None => Failure(BadNumber(key))
  }

  function Choice(value: Value, key: Key, choices: set<Word>): Result<Word, Refusal> {
    match Get(value, key)
    case Text(word) => if word in choices then Success(word) else Failure(BadChoice(key))
    case _ => Failure(BadChoice(key))
  }

  function ItemsAt(value: Value, key: Key): Result<seq<Value>, Refusal> {
    match Get(value, key)
    case Array(items) => Success(items)
    case _ => Failure(NotAnArray(key))
  }

  /** The member count and the presence of each expected name are compared. */
  function Fields(value: Value, expected: seq<Key>): Outcome<Refusal> {
    Need(value.Object? && |value.members| == |expected| && (forall k | k in expected :: k in value.members),
         FieldsMismatch)
  }

  /** Counting members and probing each expected name decides set equality: no
      name can be missing and none can be added. */
  lemma FieldsAreExact(value: Value, expected: seq<Key>)
    requires NoDup(expected)
    ensures Fields(value, expected).Pass? <==> value.Object? && value.members.Keys == Elements(expected)
  {
    NoDupCardinality(expected);
    if Fields(value, expected).Pass? {
      var extra := value.members.Keys - Elements(expected);
      assert value.members.Keys == Elements(expected) + extra;
      assert |value.members.Keys| == |Elements(expected)| + |extra|;
      assert extra == {};
    }
    if value.Object? && value.members.Keys == Elements(expected) {
      assert |value.members| == |value.members.Keys|;
    }
  }
}
