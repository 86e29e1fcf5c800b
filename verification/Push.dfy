/** Provider-neutral values of the push package: targets, results and error codes.
    Durations and instants are integers in nanoseconds. */
module Push {

  datatype Option<+T> = None | Some(value: T)

  const SECOND: int := 1_000_000_000
  const MINUTE: int := 60 * SECOND
  const HOUR: int := 60 * MINUTE
  const DAY: int := 24 * HOUR

  const MAX_BATCH_TARGETS: nat := 500
  const MAX_BATCH_CONCURRENCY: nat := 4

  // Go declares TargetType and ErrorCode as strings, so values outside the declared
  // constants are representable and are kept here.
  datatype TargetType = Fid | Token | OtherType(name: string)
  {
    predicate Valid() { Fid? || Token? }
    function Name(): string {
      match this
      case Fid => "fid"
      case Token => "token"
      case OtherType(name) => name
    }
  }

  datatype Target = Target(id: string, recipientId: string, targetType: TargetType, address: string)
  {
    predicate Valid() { address != "" && targetType.Valid() }
  }

  datatype Ref = Ref(uid: string, installationId: string)

  datatype ErrorCode = NoError | Unregistered | Transient | RateLimited | Permanent | Unknown | OtherCode(name: string)

  // A classified error is only made by NewSendError, so it always carries a code.
  datatype ErrorValue = Classified(code: ErrorCode, text: string) | Plain(text: string)
  type Error = e: ErrorValue | e.Classified? ==> e.code != NoError witness Plain("")

  function NewSendError(code: ErrorCode, text: string): (e: Error)
    ensures SendErrorCode(Some(e)) != NoError
    ensures code != NoError ==> SendErrorCode(Some(e)) == code
  {
    Classified(if code == NoError then Unknown else code, text)
  }

  function SendErrorCode(err: Option<Error>): ErrorCode {
    match err
    case None => NoError
    case Some(Classified(code, _)) => code
    case Some(Plain(_)) => Unknown
  }

  datatype TargetResult = TargetResult(target: Target, messageId: string, code: ErrorCode, err: Option<Error>)
  {
    predicate Succeeded() { err.None? && code == NoError }
  }

  // The address a provider sees: the type name, a NUL and the address.
  function Key(t: Target): string {
    t.targetType.Name() + "\0" + t.address
  }

  predicate SameAddress(a: Target, b: Target) {
    a.targetType == b.targetType && a.address == b.address
  }

  lemma KeyIdentifiesAddress(a: Target, b: Target)
    requires a.targetType.Valid() && b.targetType.Valid()
    ensures Key(a) == Key(b) <==> SameAddress(a, b)
  {
    if Key(a) == Key(b) {
      assert Key(a)[0] == a.targetType.Name()[0] && Key(b)[0] == b.targetType.Name()[0];
      var n := |a.targetType.Name()| + 1;
      assert a.address == Key(a)[n..] == Key(b)[n..] == b.address;
    }
  }

  ghost predicate DistinctKeys(targets: seq<Target>) {
    forall i, j :: 0 <= i < j < |targets| ==> Key(targets[i]) != Key(targets[j])
  }

  ghost predicate AllValid(targets: seq<Target>) {
    forall t :: t in targets ==> t.Valid()
  }
}
