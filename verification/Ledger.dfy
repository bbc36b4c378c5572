/** The IBC router's store on the attested chain, as the fold of the operations its blocks carry. */
module Ledger {
  import opened Wrappers
  import opened Bytes
  import opened Types
  import opened Paths

  /** A client together with a sequence. */
  type Lane = (bytes, u64)

  /** An operation submitted to the router; one whose guard fails reverts. */
  datatype Op =
    | Send(p: Packet)
    | Receive(p: Packet, receipt: entry)
    | WriteAck(client: bytes, sequence: u64, ack: entry)
    | Acknowledge(p: Packet)
    | TimeOut(p: Packet)

  datatype Block = Block(time: int, ops: seq<Op>)

  /** `committed` computes a packet's commitment; `proven` says whether the counterparty's proof of it verifies. */
  datatype Rules = Rules(committed: Packet -> entry, proven: Packet -> bool)

  /** The store, and what has happened to each lane so far. */
  datatype State = State(
    store: map<Key, entry>,
    sent: map<Lane, Packet>,
    received: map<Lane, Packet>,
    acked: set<Lane>,
    timedOut: set<Lane>)

  const EMPTY := State(map[], map[], map[], {}, {})

  function Apply(r: Rules, st: State, time: int, op: Op): State {
    match op
    case Send(p) =>
      var lane := (p.sourceClient, p.sequence);
      if lane in st.sent then st
      else st.(store := st.store[KeyOf(PacketCommitment, p) := r.committed(p)], sent := st.sent[lane := p])
    case Receive(p, receipt) =>
      var k := KeyOf(ReceiptCommitment, p);
      if k in st.store || p.timeoutTimestamp <= time || !r.proven(p) then st
      else st.(store := st.store[k := receipt], received := st.received[(p.destClient, p.sequence) := p])
    case WriteAck(client, sequence, ack) =>
      var k := Key(AckCommitment, client, sequence);
      if k in st.store || Key(ReceiptCommitment, client, sequence) !in st.store then st
      else st.(store := st.store[k := ack])
    case Acknowledge(p) =>
      if !Pending(r, st, p) then st
      else
        st.(store := st.store - {KeyOf(PacketCommitment, p)},
            acked := st.acked + {(p.sourceClient, p.sequence)})
    case TimeOut(p) =>
      if !Pending(r, st, p) then st
      else
        st.(store := st.store - {KeyOf(PacketCommitment, p)},
            timedOut := st.timedOut + {(p.sourceClient, p.sequence)})
  }

  predicate Pending(r: Rules, st: State, p: Packet) {
    var k := KeyOf(PacketCommitment, p);
    k in st.store && st.store[k] == r.committed(p)
  }

  function ApplyAll(r: Rules, st: State, time: int, ops: seq<Op>): State {
    if ops == [] then st else Apply(r, ApplyAll(r, st, time, ops[..|ops| - 1]), time, ops[|ops| - 1])
  }

  /** The state after the given blocks. */
  function After(r: Rules, blocks: seq<Block>): State {
    if blocks == [] then EMPTY
    else
      var b := blocks[|blocks| - 1];
      ApplyAll(r, After(r, blocks[..|blocks| - 1]), b.time, b.ops)
  }

  /** The state at a height. */
  function At(r: Rules, blocks: seq<Block>, height: nat): State
    requires height < |blocks|
  {
    After(r, blocks[..height + 1])
  }

  /** How the store reflects the history: a commitment is there exactly between its send and its ack or timeout. */
  ghost predicate Consistent(r: Rules, st: State) {
    && StoreConsistent(r, st)
    && (forall lane: Lane :: lane in st.sent ==> (st.sent[lane].sourceClient, st.sent[lane].sequence) == lane)
    && (forall lane: Lane :: lane in st.received ==>
          (st.received[lane].destClient, st.received[lane].sequence) == lane && r.proven(st.received[lane]))
    && st.acked <= st.sent.Keys
    && st.timedOut <= st.sent.Keys
  }

  ghost predicate StoreConsistent(r: Rules, st: State) {
    forall k :: InStore(r, st, k)
  }

  /** What it takes for the key `k` to be in the store, by kind. */
  ghost predicate InStore(r: Rules, st: State, k: Key) {
    var lane := (k.client, k.sequence);
    match k.kind
    case PacketCommitment =>
      && (k in st.store <==> Open(st, lane))
      && (k in st.store ==> st.store[k] == r.committed(st.sent[lane]))
    case AckCommitment => k in st.store ==> lane in st.received
    case ReceiptCommitment => k in st.store <==> lane in st.received
  }

  /** Sent, and neither acknowledged nor timed out. */
  predicate Open(st: State, lane: Lane) {
    lane in st.sent && lane !in st.acked && lane !in st.timedOut
  }

  /** Everything but a packet commitment is append-only; the history of a lane only grows. */
  ghost predicate Grows(st: State, st': State) {
    && (forall k :: k in st.store && k.kind != PacketCommitment ==> k in st'.store && st'.store[k] == st.store[k])
    && (forall lane :: lane in st.sent ==> lane in st'.sent && st'.sent[lane] == st.sent[lane])
    && (forall lane :: lane in st.received ==> lane in st'.received && st'.received[lane] == st.received[lane])
    && st.acked <= st'.acked
    && st.timedOut <= st'.timedOut
  }

  /** Packets received between the two states had a timeout later than `time`. */
  ghost predicate ReceivedInTime(time: int, st: State, st': State) {
    forall lane :: lane in st'.received && lane !in st.received ==> st'.received[lane].timeoutTimestamp > time
  }

  lemma ApplySend(r: Rules, st: State, time: int, p: Packet)
    requires Consistent(r, st)
    ensures var st' := Apply(r, st, time, Send(p));
            Consistent(r, st') && Grows(st, st') && ReceivedInTime(time, st, st')
  {
    var st' := Apply(r, st, time, Send(p));
    forall k ensures InStore(r, st', k) {
      assert InStore(r, st, k);
    }
  }

  lemma ReceiveInStore(r: Rules, st: State, time: int, p: Packet, receipt: entry, k: Key)
    requires Consistent(r, st)
    ensures InStore(r, Apply(r, st, time, Receive(p, receipt)), k)
  {
    assert InStore(r, st, k);
  }

  lemma ApplyReceive(r: Rules, st: State, time: int, p: Packet, receipt: entry)
    requires Consistent(r, st)
    ensures var st' := Apply(r, st, time, Receive(p, receipt));
            Consistent(r, st') && Grows(st, st') && ReceivedInTime(time, st, st')
  {
    assert InStore(r, st, KeyOf(ReceiptCommitment, p));
    forall k {
      ReceiveInStore(r, st, time, p, receipt, k);
    }
  }

  lemma ApplyWriteAck(r: Rules, st: State, time: int, client: bytes, sequence: u64, ack: entry)
    requires Consistent(r, st)
    ensures var st' := Apply(r, st, time, WriteAck(client, sequence, ack));
            Consistent(r, st') && Grows(st, st') && ReceivedInTime(time, st, st')
  {
    var st' := Apply(r, st, time, WriteAck(client, sequence, ack));
    assert InStore(r, st, Key(ReceiptCommitment, client, sequence));
    forall k ensures InStore(r, st', k) {
      assert InStore(r, st, k);
    }
  }

  lemma ApplyClose(r: Rules, st: State, time: int, op: Op)
    requires op.Acknowledge? || op.TimeOut?
    requires Consistent(r, st)
    ensures var st' := Apply(r, st, time, op);
            Consistent(r, st') && Grows(st, st') && ReceivedInTime(time, st, st')
  {
    var st' := Apply(r, st, time, op);
    assert InStore(r, st, KeyOf(PacketCommitment, op.p));
    forall k ensures InStore(r, st', k) {
      assert InStore(r, st, k);
    }
  }

  lemma ApplyStep(r: Rules, st: State, time: int, op: Op)
    requires Consistent(r, st)
    ensures var st' := Apply(r, st, time, op);
            Consistent(r, st') && Grows(st, st') && ReceivedInTime(time, st, st')
  {
    match op
    case Send(p) => ApplySend(r, st, time, p);
    case Receive(p, receipt) => ApplyReceive(r, st, time, p, receipt);
    case WriteAck(client, sequence, ack) => ApplyWriteAck(r, st, time, client, sequence, ack);
    case Acknowledge(p) => ApplyClose(r, st, time, op);
    case TimeOut(p) => ApplyClose(r, st, time, op);
  }

  lemma {:induction false} ApplyAllStep(r: Rules, st: State, time: int, ops: seq<Op>)
    requires Consistent(r, st)
    ensures var st' := ApplyAll(r, st, time, ops);
            Consistent(r, st') && Grows(st, st') && ReceivedInTime(time, st, st')
  {
    if ops != [] {
      var mid := ApplyAll(r, st, time, ops[..|ops| - 1]);
      ApplyAllStep(r, st, time, ops[..|ops| - 1]);
      ApplyStep(r, mid, time, ops[|ops| - 1]);
    }
  }

  /** In every chain the store and the history agree. */
  lemma {:induction false} AfterConsistent(r: Rules, blocks: seq<Block>)
    ensures Consistent(r, After(r, blocks))
  {
    if blocks != [] {
      var n := |blocks| - 1;
      AfterConsistent(r, blocks[..n]);
      ApplyAllStep(r, After(r, blocks[..n]), blocks[n].time, blocks[n].ops);
    }
  }

  lemma GrowsTransitive(time: int, st: State, st': State, st'': State)
    requires Grows(st, st') && Grows(st', st'')
    ensures Grows(st, st'')
    ensures ReceivedInTime(time, st, st') && ReceivedInTime(time, st', st'') ==> ReceivedInTime(time, st, st'')
  {
  }

  /** Growth over any stretch of blocks, and no late receive in it. */
  lemma {:induction false} AfterGrows(r: Rules, blocks: seq<Block>, n: nat, time: int)
    requires n <= |blocks|
    requires forall i :: n <= i < |blocks| ==> time <= blocks[i].time
    ensures Grows(After(r, blocks[..n]), After(r, blocks))
    ensures ReceivedInTime(time, After(r, blocks[..n]), After(r, blocks))
  {
    if n == |blocks| {
      assert blocks[..n] == blocks;
    } else {
      var m := |blocks| - 1;
      assert blocks[..m][..n] == blocks[..n];
      AfterGrows(r, blocks[..m], n, time);
      AfterConsistent(r, blocks[..m]);
      ApplyAllStep(r, After(r, blocks[..m]), blocks[m].time, blocks[m].ops);
      GrowsTransitive(time, After(r, blocks[..n]), After(r, blocks[..m]), After(r, blocks));
    }
  }

  function Stored(st: State, k: Key): Option<entry> {
    if k in st.store then Some(st.store[k]) else None
  }

  /** A send, receive or acknowledgement that is not refused is stored; closing a pending packet removes it. */
  lemma OpsTakeEffect(r: Rules, st: State, time: int, p: Packet, value: entry)
    ensures (p.sourceClient, p.sequence) !in st.sent ==>
              Stored(Apply(r, st, time, Send(p)), KeyOf(PacketCommitment, p)) == Some(r.committed(p))
    ensures KeyOf(ReceiptCommitment, p) !in st.store && time < p.timeoutTimestamp && r.proven(p) ==>
              Stored(Apply(r, st, time, Receive(p, value)), KeyOf(ReceiptCommitment, p)) == Some(value)
    ensures KeyOf(ReceiptCommitment, p) in st.store && KeyOf(AckCommitment, p) !in st.store ==>
              var st' := Apply(r, st, time, WriteAck(p.destClient, p.sequence, value));
              Stored(st', KeyOf(AckCommitment, p)) == Some(value)
    ensures Pending(r, st, p) ==>
              && Stored(Apply(r, st, time, Acknowledge(p)), KeyOf(PacketCommitment, p)) == None
              && (p.sourceClient, p.sequence) in Apply(r, st, time, Acknowledge(p)).acked
              && Stored(Apply(r, st, time, TimeOut(p)), KeyOf(PacketCommitment, p)) == None
              && (p.sourceClient, p.sequence) in Apply(r, st, time, TimeOut(p)).timedOut
  {
  }
}
