/** What a request does with each answer of the node: the effect of every read, reply by reply. */
module Replies {
  import opened Wrappers
  import opened Bytes
  import opened Types
  import opened World
  import opened Attestor
  import opened Labels
  import opened Metrics
  import opened Gate
  import opened Batch
  import opened Encodings
  import opened PacketLists
  import opened Service
  import opened Accounting

  // The height.

  /** A height the node may take for the finalized one: the finalized one, or on Solana one not too far behind. */
  ghost predicate Known(c: Config, w: World, f: nat, behind: nat)
    requires |w.blocks| > 0
  {
    && f <= Finalized(c.chain, w)
    && (c.chain != Solana || c.slotLag == 0 || behind == 0 ==> f == Finalized(c.chain, w))
    && (c.chain == Solana ==> w.final <= f + c.slotLag)
  }

  /** Reported to whoever asked for it; let through or refused for whoever asked about another height. */
  ghost predicate Gates(r: Request, f: nat, k: Counters, e: Effect) {
    && e.attempts == [Attempt(HeightQuery, Replied)] && e.signed == None
    && match r
       case HeightRequest =>
         && e.phase == Resolved(Ok(HeightResponse(f)))
         && e.counters.finalizedHeight == (if f <= I64_MAX then f else I64_MAX)
         && e.counters.(finalizedHeight := 0) == k.(finalizedHeight := 0)
       case StateRequest(h) =>
         && Measures(k, e.counters, f, h)
         && e.phase == if h <= f then AtTimestamp(0) else Resolved(Err(HeightNotFinalized))
       case PacketRequest(packets, h, _) =>
         && Measures(k, e.counters, f, h)
         && if h <= f then e.phase.AtPackets? && Unstarted(e.phase.tasks, |packets|)
            else e.phase == Resolved(Err(HeightNotFinalized))
  }

  predicate Unstarted(tasks: seq<Task>, n: nat) {
    |tasks| == n && forall i :: 0 <= i < n ==> tasks[i] == Running(0)
  }

  lemma HeightReplied(c: Config, w: World, j: Job, k: Counters, behind: nat)
    requires w.Valid() && Ready(j, ReadHeight(Truth(behind)))
    ensures exists f :: Known(c, w, f, behind) && Gates(j.request, f, k, React(c, w, j, k, ReadHeight(Truth(behind))))
  {
    var f := LastHeightOf(c, w, Truth(behind));
    assert Known(c, w, f, behind);
    match j.request
    case HeightRequest =>
    case StateRequest(h) => GateMeasures(k, f, h);
    case PacketRequest(_, h, _) => GateMeasures(k, f, h);
  }

  /** Without a reply it is asked for again, three times in all; a missing block ends the request at once. */
  lemma HeightNotReplied(c: Config, w: World, j: Job, k: Counters, reply: Reply)
    requires w.Valid() && Ready(j, ReadHeight(reply)) && !reply.Truth? && j.phase.attempts < 3
    ensures var e, missing := React(c, w, j, k, ReadHeight(reply)), c.chain.Evm? && reply == Absent;
            && e.phase == (if missing then Resolved(Err(AdapterFailure(BlockNotFinalized)))
                           else if j.phase.attempts == 2 then Resolved(Err(AdapterFailure(RetrievalError)))
                           else AtGate(j.phase.attempts + 1))
            && e.counters == if !missing && j.phase.attempts == 2 then RetryFailed(k, "get_last_height") else k
  {
  }

  // The timestamp.

  /** The time of the block is claimed as it is; one that is no u64 is an error. */
  lemma TimestampReplied(c: Config, w: World, j: Job, k: Counters, behind: nat)
    requires w.Valid() && Ready(j, ReadTimestamp(Truth(behind))) && j.request.height < |w.blocks|
    requires c.chain == Cosmos ==> j.request.height <= I64_MAX
    ensures var e := React(c, w, j, k, ReadTimestamp(Truth(behind)));
            var h := j.request.height;
            && e.attempts == [Attempt(TimestampQuery, Replied)] && e.counters == k
            && e.phase == if 0 <= w.blocks[h].time < U64_SIZE then AtSigner(StateClaim(h, w.blocks[h].time))
                          else Resolved(Err(AdapterFailure(RetrievalError)))
  {
  }

  /** The ways it fails; above the tip there is no block to reply about. */
  lemma TimestampNotReplied(c: Config, w: World, j: Job, k: Counters, reply: Reply)
    requires w.Valid() && Ready(j, ReadTimestamp(reply)) && j.phase.attempts < 3
    requires !reply.Truth? || |w.blocks| <= j.request.height
    ensures var e := React(c, w, j, k, ReadTimestamp(reply));
            if c.chain == Cosmos && j.request.height > I64_MAX then
              e == Effect(Resolved(Err(AdapterFailure(InvalidHeight))), [], k, None)
            else if c.chain.Evm? && reply != Unreachable then
              e.phase == Resolved(Err(AdapterFailure(BlockNotFinalized))) && e.counters == k
            else if j.phase.attempts == 2 then
              && e.phase == Resolved(Err(AdapterFailure(RetrievalError)))
              && e.counters == RetryFailed(k, "get_block_timestamp")
            else e.phase == AtTimestamp(j.phase.attempts + 1) && e.counters == k
  {
  }

  // A commitment.

  /** The height of a commitment read: the requested one, or on Solana the slot the node knows to be finalized. */
  ghost predicate ReadFrom(c: Config, w: World, h: nat, at: nat, behind: nat)
    requires |w.blocks| > 0
  {
    if c.chain == Solana then Known(c, w, at, behind) else at == h
  }

  /** The packet's task ends with what the store at that height gives. */
  lemma CommitmentReplied(c: Config, w: World, j: Job, k: Counters, i: nat, behind: nat)
    requires w.Valid() && Ready(j, ReadCommitment(i, Truth(behind))) && j.request.height < |w.blocks|
    ensures var (kind, packets) := Decoded(j.request).value;
            exists at: nat ::
              && at < |w.blocks| && ReadFrom(c, w, j.request.height, at, behind)
              && var verdict :=
                   Attest(c.crypto, c.chain, c.discriminator, StoreAt(c, w, at), kind, packets[i], j.request.height);
                 React(c, w, j, k, ReadCommitment(i, Truth(behind))).phase ==
                 AtPackets(j.phase.tasks[i := Finished(at, verdict)])
  {
    var at := ReadHeightOf(c, w, j.request.height, Truth(behind));
    assert at < |w.blocks| && ReadFrom(c, w, j.request.height, at, behind);
  }

  lemma CommitmentNotReplied(c: Config, w: World, j: Job, k: Counters, i: nat, reply: Reply)
    requires w.Valid() && Ready(j, ReadCommitment(i, reply)) && j.phase.tasks[i].attempts < 3
    requires !reply.Truth? || (c.chain != Solana && |w.blocks| <= j.request.height)
    ensures var e, n := React(c, w, j, k, ReadCommitment(i, reply)), j.phase.tasks[i].attempts;
            && e.phase == AtPackets(j.phase.tasks[i := if n == 2 then Finished(0, Err(AdapterFailure(RetrievalError)))
                                                       else Running(n + 1)])
            && e.counters == if n == 2 then RetryFailed(k, "get_commitment") else k
  {
  }

  // What is counted, under which labels.

  /** The label of a packet's failure; an adapter's error has none. */
  function FailureText(e: AttestorError): Option<string> {
    match e
    case CommitmentNotFound(_, _, _) => Some("not_found")
    case InvalidCommitment(_, _, Mismatch(_, _)) => Some("mismatch")
    case InvalidCommitment(_, _, UnexpectedReceipt(_)) => Some("unexpected_receipt")
    case _ => None
  }

  lemma FailureRecorded(k: Counters, attempts: nat, readAt: nat, v: Verdict)
    ensures var k' := AnswerCounted(k, attempts, Batch.Answered(readAt, v));
            && (forall name :: Count(k'.commitmentFailures, name) ==
                                Count(k.commitmentFailures, name)
                                + if v.Err? && FailureText(v.error) == Some(name) then 1 else 0)
            && k'.(commitmentFailures := map[]) == k.(commitmentFailures := map[])
  {
  }

  function RpcText(r: Request): string {
    match r
    case HeightRequest => "latest_height"
    case StateRequest(_) => "state_attestation"
    case PacketRequest(_, _, _) => "packet_attestation"
  }

  function CodeText(o: Outcome): string {
    match o
    case Ok(_) => "ok"
    case Err(HeightNotFinalized) => "failed_precondition"
    case Err(CommitmentNotFound(_, _, _)) => "not_found"
    case Err(InvalidCommitment(_, _, _)) | Err(MalformedCommitmentType) => "invalid_argument"
    case Err(_) => "internal"
  }

  /** An answered request is recorded under its own method and code, with its duration, and its answer stays. */
  lemma AnswerRecorded(c: Config, w: World, j: Job, k: Counters, duration: nat)
    requires w.Valid() && Ready(j, Close(duration))
    ensures var e := React(c, w, j, k, Close(duration));
            var rpc, code := RpcText(j.request), CodeText(j.phase.outcome);
            && e.phase == Closed(j.phase.outcome)
            && (forall names :: Count(e.counters.rpcRequests, names) ==
                                 Count(k.rpcRequests, names) + if names == (rpc, code) then 1 else 0)
            && Observations(e.counters.rpcDurations, rpc) == Observations(k.rpcDurations, rpc) + [duration]
  {
    var rpc, code := RpcText(j.request), CodeText(j.phase.outcome);
    TextsAreLabels(j.request, j.phase.outcome);
    forall names: (string, string) {
      RecordedUnder(k, rpc, code, duration, names.0, names.1);
    }
  }

  lemma TextsAreLabels(r: Request, o: Outcome)
    ensures MethodLabel(MethodOf(r)) == RpcText(r) && CodeLabel(ResultCode(o)) == CodeText(o)
  {
    CodeLabelsSpelled();
  }

  lemma SignerRecorded(c: Config, w: World, j: Job, k: Counters, ok: bool)
    requires w.Valid() && Ready(j, Service.Sign(ok))
    ensures var e := React(c, w, j, k, Service.Sign(ok));
            && (forall name :: Count(e.counters.signerSigns, name) ==
                                Count(k.signerSigns, name) + if name == (if ok then "ok" else "err") then 1 else 0)
            && (e.signed.Some? <==> ok) && (e.phase == Resolved(Err(SignerFailure)) <==> !ok)
  {
  }

  // What is not read at all.

  /** The commitment types a request may ask for; others are malformed, and so are packets that do not decode. */
  lemma RequestDecoded(r: Request)
    requires r.PacketRequest?
    ensures Decoded(r).Ok? <==> 0 <= r.commitmentType <= 2 && forall b :: b in r.packets ==> DecodePacket(b).Some?
    ensures Decoded(r) == Err(AbiError) <==> exists b :: b in r.packets && DecodePacket(b) == None
    ensures Decoded(r) == Err(MalformedCommitmentType) <==>
            !(0 <= r.commitmentType <= 2) && forall b :: b in r.packets ==> DecodePacket(b).Some?
    ensures Decoded(r).Ok? ==>
              && (Decoded(r).value.0 == PacketCommitment <==> r.commitmentType == 0)
              && (Decoded(r).value.0 == AckCommitment <==> r.commitmentType == 1)
              && (Decoded(r).value.0 == ReceiptCommitment <==> r.commitmentType == 2)
              && AllDecode(DecodePacket, r.packets, Decoded(r).value.1)
  {
    DecodeAllExact(r.packets);
    if DecodeAll(r.packets).Ok? {
      var ps := DecodeAll(r.packets).value;
      forall b | b in r.packets ensures DecodePacket(b).Some? {
        var i :| 0 <= i < |r.packets| && r.packets[i] == b;
        assert DecodePacket(r.packets[i]) == Some(ps[i]);
      }
    }
  }
}
