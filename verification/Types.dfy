/** Packets, commitment kinds and the error taxonomy shared by the adapters and the service. */
module Types {
  import opened Wrappers
  import opened Bytes

  datatype Payload = Payload(sourcePort: bytes, destPort: bytes, version: bytes, encoding: bytes, value: bytes)

  datatype Packet = Packet(
    sequence: u64, sourceClient: bytes, destClient: bytes, timeoutTimestamp: u64, payloads: seq<Payload>)

  /** What is attested about a packet. */
  datatype CommitmentType = PacketCommitment | AckCommitment | ReceiptCommitment

  /** One attested commitment: the hash of its store path and the stored value. */
  datatype PacketCompact = PacketCompact(path: word, commitment: word)

  /** The primitives the service calls but does not define. */
  datatype Crypto = Crypto(
    sha256: bytes -> word,
    keccak256: bytes -> word,
    packetCommitment: Packet -> entry)

  /** `x` and `y` are a collision of the hash `h`. */
  predicate Collide(h: bytes -> word, x: bytes, y: bytes) {
    x != y && h(x) == h(y)
  }

  datatype AdapterError =
    | ConfigError
    | InvalidHeight
    | BlockNotFinalized
    | RetrievalError
    | CommitmentError

  datatype InvalidReason =
    | Mismatch(expected: word, actual: word)
    | UnexpectedReceipt(found: word)

  datatype AttestorError =
    | HeightNotFinalized
    | InvalidCommitment(client: bytes, sequence: u64, reason: InvalidReason)
    | CommitmentNotFound(client: bytes, sequence: u64, height: u64)
    | SignerFailure
    | SignerInitError
    | AbiError
    | AdapterFailure(cause: AdapterError)
    | MalformedCommitmentType

  /** The gRPC status codes. */
  datatype Code =
    | Success | Cancelled | Unknown | InvalidArgument | DeadlineExceeded | NotFound | AlreadyExists | PermissionDenied
    | ResourceExhausted | FailedPrecondition | Aborted | OutOfRange | Unimplemented | Internal | Unavailable
    | DataLoss | Unauthenticated

  function StatusCode(e: AttestorError): Code {
    match e
    case HeightNotFinalized => FailedPrecondition
    case CommitmentNotFound(_, _, _) => NotFound
    case InvalidCommitment(_, _, _) | MalformedCommitmentType => InvalidArgument
    case SignerFailure | SignerInitError | AbiError | AdapterFailure(_) => Internal
  }

  /** The label of `attestor_commitment_validation_failures_total`. */
  datatype FailureKind = FailNotFound | FailMismatch | FailUnexpectedReceipt

  /** The failure a packet's error is counted under; an adapter's error is not counted here. */
  function FailureOf(e: AttestorError): Option<FailureKind> {
    match e
    case CommitmentNotFound(_, _, _) => Some(FailNotFound)
    case InvalidCommitment(_, _, Mismatch(_, _)) => Some(FailMismatch)
    case InvalidCommitment(_, _, UnexpectedReceipt(_)) => Some(FailUnexpectedReceipt)
    case _ => None
  }
}
