/** The Firebase adapter: one multicast call whose responses are attributed by position. */
module Fcm {
  import opened Push
  import opened Dispatcher
  import opened RetrySpec

  // The classification flags the Admin SDK reports for an error.
  datatype FcmError = FcmError(unregistered: bool, quotaExceeded: bool, internal: bool, unavailable: bool,
                               thirdPartyAuth: bool, invalidArgument: bool, senderIdMismatch: bool)

  datatype FcmResponse = FcmResponse(success: bool, messageId: string, error: Option<FcmError>)

  datatype ClientReply = CallFailed(error: FcmError) | Responses(responses: seq<FcmResponse>)

  // The SDK client: tokens and FIDs of one multicast message, at some attempt.
  type Client = (nat, seq<string>, seq<string>) -> ClientReply

  function ClassifyError(err: Option<FcmError>): ErrorCode {
    match err
    case None => NoError
    case Some(e) =>
      if e.unregistered then Unregistered
      else if e.quotaExceeded then RateLimited
      else if e.internal || e.unavailable then Transient
      else if e.thirdPartyAuth then Unknown
      else if e.invalidArgument || e.senderIdMismatch then Permanent
      else Unknown
  }

  function OfType(targets: seq<Target>, kind: TargetType): (r: seq<Target>)
    ensures forall t :: t in r <==> t in targets && t.targetType == kind
  {
    if targets == [] then []
    else OfType(targets[..|targets| - 1], kind)
         + (if targets[|targets| - 1].targetType == kind then [targets[|targets| - 1]] else [])
  }

  function Addresses(targets: seq<Target>): (r: seq<string>)
    ensures |r| == |targets| && forall i :: 0 <= i < |r| ==> r[i] == targets[i].address
  {
    if targets == [] then [] else Addresses(targets[..|targets| - 1]) + [targets[|targets| - 1].address]
  }

  // The order of the multicast message, and therefore of its responses.
  function Ordered(targets: seq<Target>): seq<Target> {
    OfType(targets, Token) + OfType(targets, Fid)
  }

  function Attribute(t: Target, r: FcmResponse): TargetResult {
    if r.success then TargetResult(t, r.messageId, NoError, None)
    else TargetResult(t, "", ClassifyError(r.error), if r.error.Some? then Some(Plain("fcm")) else None)
  }

  // messageError is what validating and building the message reports.
  function AdapterReply(client: Client, messageError: Option<Error>, attempt: nat, targets: seq<Target>): Reply {
    if targets == [] then Reply([], None)
    else if |targets| > MAX_BATCH_TARGETS then Reply([], Some(Plain("too many targets")))
    else if messageError.Some? then Reply([], messageError)
    else
      var ordered := Ordered(targets);
      if |ordered| != |targets| then Reply([], Some(Plain("unsupported target type")))
      else
        match client(attempt, Addresses(OfType(targets, Token)), Addresses(OfType(targets, Fid)))
        case CallFailed(e) => Reply([], Some(NewSendError(ClassifyError(Some(e)), "send FCM multicast")))
        case Responses(responses) =>
          if |responses| != |ordered| then Reply([], Some(Plain("response count")))
          else Reply(seq(|ordered|, i requires 0 <= i < |ordered| => Attribute(ordered[i], responses[i])), None)
  }

  lemma OfTypeStep(targets: seq<Target>, i: nat, kind: TargetType)
    requires i < |targets|
    ensures OfType(targets[..i + 1], kind)
         == OfType(targets[..i], kind) + (if targets[i].targetType == kind then [targets[i]] else [])
  {
    assert targets[..i + 1][..i] == targets[..i];
  }

  lemma OfTypeNone(kind: TargetType)
    ensures OfType([], kind) == []
  {
  }

  // The addresses of one kind, appended in batch order.
  method Collect(targets: seq<Target>, kind: TargetType) returns (addresses: seq<string>, ordered: seq<Target>)
    ensures ordered == OfType(targets, kind) && addresses == Addresses(ordered)
  {
    hide OfType, Addresses;
    addresses, ordered := [], [];
    assert OfType([], kind) == [] by { OfTypeNone(kind); }
    for i := 0 to |targets|
      invariant ordered == OfType(targets[..i], kind)
      invariant |addresses| == |ordered| && forall j :: 0 <= j < |ordered| ==> addresses[j] == ordered[j].address
    {
      OfTypeStep(targets, i, kind);
      if targets[i].targetType == kind {
        addresses := addresses + [targets[i].address];
        ordered := ordered + [targets[i]];
      }
    }
    assert targets[..|targets|] == targets;
    assert addresses == Addresses(ordered);
  }

  // Tokens first, then FIDs.
  method Partition(targets: seq<Target>) returns (tokens: seq<string>, fids: seq<string>, ordered: seq<Target>)
    ensures tokens == Addresses(OfType(targets, Token)) && fids == Addresses(OfType(targets, Fid))
    ensures ordered == Ordered(targets)
  {
    hide OfType, Addresses;
    var fidTargets;
    tokens, ordered := Collect(targets, Token);
    fids, fidTargets := Collect(targets, Fid);
    ordered := ordered + fidTargets;
  }

  method SendBatch(client: Client, messageError: Option<Error>, attempt: nat, targets: seq<Target>)
    returns (reply: Reply)
    ensures reply == AdapterReply(client, messageError, attempt, targets)
  {
    hide OfType, Addresses, ClassifyError, Ordered;
    if |targets| == 0 {
      return Reply([], None);
    }
    if |targets| > MAX_BATCH_TARGETS {
      return Reply([], Some(Plain("too many targets")));
    }
    if messageError.Some? {
      return Reply([], messageError);
    }
    var tokens, fids, ordered := Partition(targets);
    if |ordered| != |targets| {
      return Reply([], Some(Plain("unsupported target type")));
    }
    var answer := client(attempt, tokens, fids);
    match answer {
      case CallFailed(e) =>
        return Reply([], Some(NewSendError(ClassifyError(Some(e)), "send FCM multicast")));
      case Responses(responses) =>
        if |responses| != |ordered| {
          return Reply([], Some(Plain("response count")));
        }
        var results: seq<TargetResult> := [];
        for i := 0 to |responses|
          invariant |results| == i && forall j :: 0 <= j < i ==> results[j] == Attribute(ordered[j], responses[j])
        {
          results := results + [Attribute(ordered[i], responses[i])];
        }
        return Reply(results, None);
    }
  }

  lemma {:induction false} OfTypeCounts(targets: seq<Target>)
    requires AllValid(targets)
    ensures |Ordered(targets)| == |targets|
  {
    if targets != [] {
      var n := |targets| - 1;
      assert targets[n].Valid();
      OfTypeCounts(targets[..n]);
    }
  }

  lemma {:induction false} OfTypeDistinct(targets: seq<Target>, kind: TargetType)
    requires DistinctKeys(targets)
    ensures DistinctKeys(OfType(targets, kind))
  {
    hide Key;
    if targets != [] {
      var n := |targets| - 1;
      OfTypeDistinct(targets[..n], kind);
      var rest := OfType(targets[..n], kind);
      forall i | 0 <= i < |rest| ensures Key(rest[i]) != Key(targets[n]) {
        assert rest[i] in targets[..n];
      }
    }
  }

  lemma OrderedDistinct(targets: seq<Target>)
    requires DistinctKeys(targets)
    ensures DistinctKeys(Ordered(targets))
  {
    hide Key;
    OfTypeDistinct(targets, Token);
    OfTypeDistinct(targets, Fid);
    var tokens, fids := OfType(targets, Token), OfType(targets, Fid);
    forall i, j | 0 <= i < |tokens| && 0 <= j < |fids| ensures Key(tokens[i]) != Key(fids[j]) {
      assert tokens[i] in targets && fids[j] in targets;
      if Key(tokens[i]) == Key(fids[j]) {
        KeyIndex(targets, tokens[i], fids[j]);
      }
    }
  }

  // The adapter is a sender the retry loop can rely on.
  lemma AdapterKeepsContract(client: Client, messageError: Option<Error>, p: Provider)
    requires forall attempt: nat, pending: seq<Target> ::
               p.respond(attempt, pending) == AdapterReply(client, messageError, attempt, pending)
    ensures SenderContract(p)
  {
    forall attempt: nat, pending: seq<Target> | DistinctKeys(pending)
      ensures OneResultPerKey(p.respond(attempt, pending))
    {
      hide AdapterReply, OneResultPerKey, DistinctKeys;
      AdapterOnePerKey(client, messageError, attempt, pending);
    }
  }

  lemma AdapterOnePerKey(client: Client, messageError: Option<Error>, attempt: nat, pending: seq<Target>)
    requires DistinctKeys(pending)
    ensures OneResultPerKey(AdapterReply(client, messageError, attempt, pending))
  {
    hide Key, Ordered;
    OrderedDistinct(pending);
  }

  // Every target of a good batch is answered from the response at its own position, and
  // a response counts as success exactly when it is marked so or carries no error.
  lemma AdapterAttribution(client: Client, attempt: nat, targets: seq<Target>, i: nat)
    requires AllValid(targets) && i < |targets| <= MAX_BATCH_TARGETS
    requires var reply := client(attempt, Addresses(OfType(targets, Token)), Addresses(OfType(targets, Fid)));
             reply.Responses? && |reply.responses| == |targets|
    ensures var reply := AdapterReply(client, None, attempt, targets);
            var responses := client(attempt, Addresses(OfType(targets, Token)),
                                    Addresses(OfType(targets, Fid))).responses;
            && reply.err.None? && |reply.results| == |targets|
            && reply.results[i].target == Ordered(targets)[i]
            && (reply.results[i].Succeeded() <==> responses[i].success || responses[i].error.None?)
            && (i < |OfType(targets, Token)| ==> reply.results[i].target.targetType == Token)
            && (i >= |OfType(targets, Token)| ==> reply.results[i].target.targetType == Fid)
    ensures multiset(Ordered(targets)) == multiset(targets)
  {
    hide OfType, Addresses;
    OfTypeCounts(targets);
    OrderedPermutes(targets);
    assert i < |OfType(targets, Token)| ==> OfType(targets, Token)[i] in OfType(targets, Token);
    assert i >= |OfType(targets, Token)| ==>
        Ordered(targets)[i] == OfType(targets, Fid)[i - |OfType(targets, Token)|];
  }

  // The code a failure stands for: the first of its flags, in this order.
  ghost predicate CodeFor(e: FcmError, code: ErrorCode) {
    var limited := !e.unregistered && e.quotaExceeded;
    var passing := !e.unregistered && !e.quotaExceeded && (e.internal || e.unavailable);
    var refused := !e.unregistered && !e.quotaExceeded && !e.internal && !e.unavailable && !e.thirdPartyAuth
                   && (e.invalidArgument || e.senderIdMismatch);
    && (code == Unregistered <==> e.unregistered) && (code == RateLimited <==> limited)
    && (code == Transient <==> passing) && (code == Permanent <==> refused)
    && (code == Unknown <==> !e.unregistered && !limited && !passing && !refused)
  }

  // What each response becomes: a success keeps its message id, a failure has the code of its
  // flags and an error; a failed call, a malformed batch or answer gives no results and an
  // error, with the code of the flags when the call failed.
  lemma AdapterCodes(client: Client, messageError: Option<Error>, attempt: nat, targets: seq<Target>)
    requires AllValid(targets) && targets != []
    ensures var reply := AdapterReply(client, messageError, attempt, targets);
            var answer := client(attempt, Addresses(OfType(targets, Token)), Addresses(OfType(targets, Fid)));
            if |targets| > 500 || messageError.Some? then
              reply.results == [] && reply.err.Some? && (|targets| <= 500 ==> reply.err == messageError)
            else if answer.CallFailed? then
              reply.results == [] && reply.err.Some? && CodeFor(answer.error, SendErrorCode(reply.err))
            else if |answer.responses| != |targets| then reply.results == [] && reply.err.Some?
            else
              && reply.err.None? && |reply.results| == |targets|
              && forall i :: 0 <= i < |targets| ==>
                   var r, given := reply.results[i], answer.responses[i];
                   if given.success then r.code == NoError && r.err.None? && r.messageId == given.messageId
                   else r.messageId == "" && (r.err.Some? <==> given.error.Some?)
                        && (if given.error.Some? then CodeFor(given.error.value, r.code) else r.code == NoError)
  {
    hide OfType, Addresses;
    OfTypeCounts(targets);
  }

  lemma {:induction false} OrderedPermutes(targets: seq<Target>)
    requires AllValid(targets)
    ensures multiset(Ordered(targets)) == multiset(targets)
  {
    if targets != [] {
      var n := |targets| - 1;
      assert targets[n].Valid();
      OrderedPermutes(targets[..n]);
      assert targets == targets[..n] + [targets[n]];
      assert multiset(OfType(targets, Token) + OfType(targets, Fid))
               == multiset(OfType(targets, Token)) + multiset(OfType(targets, Fid));
    }
  }
}
