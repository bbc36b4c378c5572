/** The metrics registry: a process-wide cell, empty until initialised, and the functions that record into it. */
module Metrics {
  import opened Wrappers
  import opened Bytes
  import opened Types
  import opened Labels

  /** The exposed values; a histogram is the list of its observations. */
  datatype Counters = Counters(
    rpcRequests: map<(string, string), nat>,
    rpcDurations: map<string, seq<nat>>,
    heightLags: seq<int>,
    heightRejections: nat,
    commitmentFailures: map<string, nat>,
    retryFailures: map<string, nat>,
    finalizedHeight: int,
    signerSigns: map<string, nat>)

  const ZEROED := Counters(map[], map[], [], 0, map[], map[], 0, map[])

  function Count<K>(m: map<K, nat>, k: K): nat {
    if k in m then m[k] else 0
  }

  function Bump<K(!new)>(m: map<K, nat>, k: K): (r: map<K, nat>)
    ensures forall l :: Count(r, l) == Count(m, l) + if l == k then 1 else 0
  {
    m[k := Count(m, k) + 1]
  }

  function Observations(m: map<string, seq<nat>>, k: string): seq<nat> {
    if k in m then m[k] else []
  }

  // What each recording function does to the counters.

  function RpcRecorded(c: Counters, rpc: string, code: string, duration: nat): Counters {
    c.(rpcRequests := Bump(c.rpcRequests, (rpc, code)),
       rpcDurations := c.rpcDurations[rpc := Observations(c.rpcDurations, rpc) + [duration]])
  }

  function LagObserved(c: Counters, lag: int): Counters {
    c.(heightLags := c.heightLags + [lag])
  }

  function HeightRejected(c: Counters): Counters {
    c.(heightRejections := c.heightRejections + 1)
  }

  function CommitmentFailed(c: Counters, kind: string): Counters {
    c.(commitmentFailures := Bump(c.commitmentFailures, kind))
  }

  function RetryFailed(c: Counters, operation: string): Counters {
    c.(retryFailures := Bump(c.retryFailures, operation))
  }

  function HeightSet(c: Counters, height: nat): Counters {
    c.(finalizedHeight := if height <= I64_MAX then height else I64_MAX)
  }

  function Signed(c: Counters, ok: bool): Counters {
    c.(signerSigns := Bump(c.signerSigns, SignLabel(ok)))
  }

  /** A packet's verdict moves a failure counter exactly when it is a failure of validation. */
  function VerdictCounted<T>(c: Counters, v: Result<T, AttestorError>): Counters {
    if v.Err? && FailureOf(v.error).Some? then CommitmentFailed(c, FailureLabel(FailureOf(v.error).value)) else c
  }

  datatype Registry = Registry(adapter: string, signer: string, counters: Counters)

  /** The registry after recording `c'`; nothing is recorded before initialisation. */
  function Recorded(cell: Option<Registry>, c': Counters): Option<Registry> {
    match cell
    case None => None
    case Some(r) => Some(r.(counters := c'))
  }

  function Current(cell: Option<Registry>): Counters {
    match cell
    case None => ZEROED
    case Some(r) => r.counters
  }

  class Metrics {
    var cell: Option<Registry>

    constructor ()
      ensures cell == None
    {
      cell := None;
    }

    /** The first call wins; later ones are ignored. */
    method Init(adapter: string, signer: string)
      modifies this
      ensures cell == if old(cell).Some? then old(cell) else Some(Registry(adapter, signer, ZEROED))
    {
      if cell == None {
        cell := Some(Registry(adapter, signer, ZEROED));
      }
    }

    method RecordRpcRequest(rpc: string, code: string, duration: nat)
      modifies this
      ensures cell == Recorded(old(cell), RpcRecorded(Current(old(cell)), rpc, code, duration))
    {
      if cell.Some? {
        var c := cell.value.counters;
        c := c.(rpcRequests := Bump(c.rpcRequests, (rpc, code)));
        c := c.(rpcDurations := c.rpcDurations[rpc := Observations(c.rpcDurations, rpc) + [duration]]);
        cell := Some(cell.value.(counters := c));
      }
    }

    method ObserveHeightLag(lag: int)
      modifies this
      ensures cell == Recorded(old(cell), LagObserved(Current(old(cell)), lag))
    {
      if cell.Some? {
        cell := Some(cell.value.(counters := LagObserved(cell.value.counters, lag)));
      }
    }

    method IncHeightRejections()
      modifies this
      ensures cell == Recorded(old(cell), HeightRejected(Current(old(cell))))
    {
      if cell.Some? {
        cell := Some(cell.value.(counters := HeightRejected(cell.value.counters)));
      }
    }

    method IncCommitmentFailure(kind: string)
      modifies this
      ensures cell == Recorded(old(cell), CommitmentFailed(Current(old(cell)), kind))
    {
      if cell.Some? {
        cell := Some(cell.value.(counters := CommitmentFailed(cell.value.counters, kind)));
      }
    }

    method IncRetryFailure(operation: string)
      modifies this
      ensures cell == Recorded(old(cell), RetryFailed(Current(old(cell)), operation))
    {
      if cell.Some? {
        cell := Some(cell.value.(counters := RetryFailed(cell.value.counters, operation)));
      }
    }

    method SetAdapterFinalizedHeight(height: u64)
      modifies this
      ensures cell == Recorded(old(cell), HeightSet(Current(old(cell)), height))
    {
      if cell.Some? {
        var value := if height <= I64_MAX then height else I64_MAX;
        cell := Some(cell.value.(counters := cell.value.counters.(finalizedHeight := value)));
      }
    }

    method IncSignerSign(ok: bool)
      modifies this
      ensures cell == Recorded(old(cell), Signed(Current(old(cell)), ok))
    {
      if cell.Some? {
        cell := Some(cell.value.(counters := Signed(cell.value.counters, ok)));
      }
    }

    /** Wraps a handler that runs from `start` to `end`: its result is passed on, and counted by method and code. */
    method TrackRpc<T>(m: Method, handled: Result<T, AttestorError>, start: nat, end: nat)
      returns (result: Result<T, AttestorError>, elapsed: nat)
      requires start <= end
      modifies this
      ensures result == handled && elapsed == end - start
      ensures var code := CodeLabel(ResultCode(handled));
              cell == Recorded(old(cell), RpcRecorded(Current(old(cell)), MethodLabel(m), code, end - start))
    {
      var code := ResultCode(handled);
      var codeLabel := PascalToSnake(CodeName(code));
      elapsed := end - start;
      RecordRpcRequest(MethodLabel(m), codeLabel, elapsed);
      result := handled;
    }

    /** `SignerEnum::sign`: counts the outcome of the signer it wraps and passes it on. */
    method Sign<T>(signed: Option<T>) returns (result: Option<T>)
      modifies this
      ensures result == signed
      ensures cell == Recorded(old(cell), Signed(Current(old(cell)), signed.Some?))
    {
      result := signed;
      IncSignerSign(result.Some?);
    }

    /** `AdapterEnum`: a height read successfully also sets the gauge. */
    method LastHeight(read: Result<u64, AdapterError>) returns (result: Result<u64, AdapterError>)
      modifies this
      ensures result == read
      ensures cell == if read.Ok? then Recorded(old(cell), HeightSet(Current(old(cell)), read.value)) else old(cell)
    {
      result := read;
      if result.Ok? {
        SetAdapterFinalizedHeight(result.value);
      }
    }
  }

  function ResultCode<T>(r: Result<T, AttestorError>): Code {
    match r
    case Ok(_) => Success
    case Err(e) => StatusCode(e)
  }
}
