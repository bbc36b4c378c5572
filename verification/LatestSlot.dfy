/**
 * Attestations read at another height than the one they name, as Solana's are:
 * what a signed entry means at the requested height `h` when it was read at `at`.
 */
module LatestSlot {
  import opened Types
  import opened Paths
  import opened Ledger
  import opened World
  import opened Attestor
  import opened Service
  import opened Soundness
  import opened Runs

  /** Entry `i` of the packet attestation logged at `n`. */
  ghost predicate Logged(c: Config, w: World, steps: seq<Step>, n: nat, i: nat, kind: CommitmentType)
    requires w.Valid()
  {
    var log := Run(c, w, steps).log;
    n < |log| && log[n].claim.PacketClaim? && log[n].claim.kind == kind && i < |log[n].claim.packets|
    && |log[n].claim.readAt| == |log[n].claim.items| == |log[n].claim.packets|
  }

  /** The entry was read no earlier than the height it names, as it always is where no node lags behind. */
  predicate UpToDate(c: Config, m: Claim, i: nat)
    requires m.PacketClaim? && i < |m.readAt|
  {
    c.chain != Solana || c.slotLag == 0 || m.height <= m.readAt[i]
  }

  lemma LoggedSound(c: Config, w: World, steps: seq<Step>, n: nat, i: nat, kind: CommitmentType)
    requires Sane(c) && w.Valid() && Logged(c, w, steps, n, i, kind)
    ensures var s := Run(c, w, steps);
            var m := s.log[n].claim;
            && m.height < |s.world.blocks| && m.readAt[i] < |s.world.blocks|
            && (if c.chain == Solana then m.height <= m.readAt[i] + c.slotLag else m.readAt[i] == m.height)
            && ItemSound(c, s.world, kind, m.height, m.packets[i], m.items[i], m.readAt[i])
  {
    RunSound(c, w, steps);
    var s := Run(c, w, steps);
    assert EntrySound(c, s, s.log[n]);
    FinalizedExists(c.chain, s.world);
  }

  lemma GrowsBetween(r: Rules, blocks: seq<Block>, x: nat, y: nat)
    requires Timely(blocks) && x <= y < |blocks|
    ensures Grows(At(r, blocks, x), At(r, blocks, y))
  {
    assert blocks[..y + 1][..x + 1] == blocks[..x + 1];
    AfterGrows(r, blocks[..y + 1], x + 1, blocks[x].time);
  }

  // Receipts.

  /** Absence is true at every height up to the one read, so an up-to-date receipt attestation is true as signed. */
  lemma ReceiptTrueAtHeight(c: Config, w: World, steps: seq<Step>, n: nat, i: nat)
    requires Sane(c) && w.Valid() && Logged(c, w, steps, n, i, ReceiptCommitment)
    ensures var s := Run(c, w, steps);
            var m := s.log[n].claim;
            && m.height < |s.world.blocks| && m.readAt[i] < |s.world.blocks|
            && (forall x: nat :: x <= m.readAt[i] ==>
                  Holds(c.crypto, StoreAt(c, s.world, x), ReceiptCommitment, m.packets[i], m.items[i]))
            && (UpToDate(c, m, i) ==>
                  Holds(c.crypto, StoreAt(c, s.world, m.height), ReceiptCommitment, m.packets[i], m.items[i]))
  {
    LoggedSound(c, w, steps, n, i, ReceiptCommitment);
    var s := Run(c, w, steps);
    var m := s.log[n].claim;
    forall x: nat | x <= m.readAt[i]
      ensures Holds(c.crypto, StoreAt(c, s.world, x), ReceiptCommitment, m.packets[i], m.items[i])
    {
      GrowsBetween(RulesOf(c), s.world.blocks, x, m.readAt[i]);
    }
  }

  // Acknowledgements.

  /** An acknowledgement read at `at` is there, with the same content, at every later height of every later chain. */
  lemma AckPersists(c: Config, w: World, steps: seq<Step>, k: nat, n: nat, i: nat, x: nat)
    requires Sane(c) && w.Valid() && k <= |steps| && Logged(c, w, steps[..k], n, i, AckCommitment)
    requires Run(c, w, steps[..k]).log[n].claim.readAt[i] <= x < |Run(c, w, steps).world.blocks|
    ensures var s, s' := Run(c, w, steps[..k]), Run(c, w, steps);
            var m := s.log[n].claim;
            var at := m.readAt[i];
            && at < |s'.world.blocks|
            && (|| Holds(c.crypto, StoreAt(c, s'.world, x), AckCommitment, m.packets[i], m.items[i])
                || Misread(c, StoreAt(c, s'.world, at), AckCommitment, m.packets[i]))
  {
    LoggedSound(c, w, steps[..k], n, i, AckCommitment);
    RunLater(c, w, steps, k);
    var s, s' := Run(c, w, steps[..k]), Run(c, w, steps);
    var m := s.log[n].claim;
    ItemPersists(c, s.world, s'.world, AckCommitment, m.height, m.packets[i], m.items[i], m.readAt[i]);
    GrowsBetween(RulesOf(c), s'.world.blocks, m.readAt[i], x);
  }

  /** An acknowledgement present at two heights has the same content at both. */
  lemma AckUnchanged(r: Rules, blocks: seq<Block>, x: nat, y: nat, k: Key)
    requires Timely(blocks) && x < |blocks| && y < |blocks| && k.kind == AckCommitment
    requires k in At(r, blocks, x).store && k in At(r, blocks, y).store
    ensures At(r, blocks, x).store[k] == At(r, blocks, y).store[k]
  {
    if x <= y {
      GrowsBetween(r, blocks, x, y);
    } else {
      GrowsBetween(r, blocks, y, x);
    }
  }

  /** It is true at the requested height exactly when the acknowledgement had been written by then. */
  lemma AckTrueAtHeightIffWritten(c: Config, w: World, steps: seq<Step>, n: nat, i: nat)
    requires Sane(c) && w.Valid() && !c.chain.Evm? && Logged(c, w, steps, n, i, AckCommitment)
    ensures var s := Run(c, w, steps);
            var m := s.log[n].claim;
            && m.height < |s.world.blocks|
            && (Holds(c.crypto, StoreAt(c, s.world, m.height), AckCommitment, m.packets[i], m.items[i]) <==>
                KeyOf(AckCommitment, m.packets[i]) in StoreAt(c, s.world, m.height))
  {
    LoggedSound(c, w, steps, n, i, AckCommitment);
    var s := Run(c, w, steps);
    var m := s.log[n].claim;
    var k := KeyOf(AckCommitment, m.packets[i]);
    if k in StoreAt(c, s.world, m.height) {
      AckUnchanged(RulesOf(c), s.world.blocks, m.height, m.readAt[i], k);
    }
  }

  /** The packet of an acknowledgement was received here, and had been sent: the counterparty's proof of it verified. */
  ghost predicate ReceivedAndProven(r: Rules, st: Ledger.State, p: Packet) {
    var lane := (p.destClient, p.sequence);
    && lane in st.received
    && (st.received[lane].destClient, st.received[lane].sequence) == lane
    && r.proven(st.received[lane])
  }

  lemma AckedIsReceived(r: Rules, blocks: seq<Block>, at: nat, p: Packet)
    requires at < |blocks| && KeyOf(AckCommitment, p) in At(r, blocks, at).store
    ensures ReceivedAndProven(r, At(r, blocks, at), p)
  {
    AfterConsistent(r, blocks[..at + 1]);
    assert InStore(r, At(r, blocks, at), KeyOf(AckCommitment, p));
  }

  /** By the slot read, a packet with an attested acknowledgement had been sent, proven and received. */
  lemma AckMeansReceived(c: Config, w: World, steps: seq<Step>, n: nat, i: nat)
    requires Sane(c) && w.Valid() && Logged(c, w, steps, n, i, AckCommitment)
    ensures var s := Run(c, w, steps);
            var m := s.log[n].claim;
            var p, at := m.packets[i], m.readAt[i];
            && at < |s.world.blocks|
            && (|| ReceivedAndProven(RulesOf(c), At(RulesOf(c), s.world.blocks, at), p)
                || Misread(c, StoreAt(c, s.world, at), AckCommitment, p))
  {
    LoggedSound(c, w, steps, n, i, AckCommitment);
    var s := Run(c, w, steps);
    var m := s.log[n].claim;
    if !Misread(c, StoreAt(c, s.world, m.readAt[i]), AckCommitment, m.packets[i]) {
      AckedIsReceived(RulesOf(c), s.world.blocks, m.readAt[i], m.packets[i]);
    }
  }

  // Packets.

  /** The commitment of a packet determines the packet, or two packets share a commitment. */
  predicate SamePacket(c: Config, p: Packet, q: Packet) {
    p == q || (p != q && c.crypto.packetCommitment(p) == c.crypto.packetCommitment(q))
  }

  /** What is stored had been sent, with that content, and neither acknowledged nor timed out. */
  lemma StoredIsOpen(c: Config, blocks: seq<Block>, at: nat, p: Packet, item: PacketCompact)
    requires at < |blocks|
    requires Holds(c.crypto, At(RulesOf(c), blocks, at).store, PacketCommitment, p, item)
    ensures var st := At(RulesOf(c), blocks, at);
            Open(st, (p.sourceClient, p.sequence)) && SamePacket(c, st.sent[(p.sourceClient, p.sequence)], p)
  {
    AfterConsistent(RulesOf(c), blocks[..at + 1]);
    assert InStore(RulesOf(c), At(RulesOf(c), blocks, at), KeyOf(PacketCommitment, p));
  }

  /** A packet read at `at` had been sent by then, with that content, and neither acknowledged nor timed out. */
  lemma PacketSentAndOpen(c: Config, w: World, steps: seq<Step>, n: nat, i: nat)
    requires Sane(c) && w.Valid() && Logged(c, w, steps, n, i, PacketCommitment)
    ensures var s := Run(c, w, steps);
            var m := s.log[n].claim;
            var p, at := m.packets[i], m.readAt[i];
            && at < |s.world.blocks|
            && var st := At(RulesOf(c), s.world.blocks, at);
               || Misread(c, st.store, PacketCommitment, p)
               || (Open(st, (p.sourceClient, p.sequence)) && SamePacket(c, st.sent[(p.sourceClient, p.sequence)], p))
  {
    LoggedSound(c, w, steps, n, i, PacketCommitment);
    var s := Run(c, w, steps);
    var m := s.log[n].claim;
    var p, at := m.packets[i], m.readAt[i];
    if !Misread(c, StoreAt(c, s.world, at), PacketCommitment, p) {
      StoredIsOpen(c, s.world.blocks, at, p, m.items[i]);
    }
  }

  /** A commitment stored at `at` is stored at `h` exactly when the packet is open there, and with the same value. */
  lemma StoredIffOpen(r: Rules, blocks: seq<Block>, h: nat, at: nat, p: Packet)
    requires Timely(blocks) && h < |blocks| && at < |blocks|
    requires KeyOf(PacketCommitment, p) in At(r, blocks, at).store
    ensures var k, lane := KeyOf(PacketCommitment, p), (p.sourceClient, p.sequence);
            var past, now := At(r, blocks, h), At(r, blocks, at);
            && (k in past.store <==> Open(past, lane))
            && (k in past.store ==> past.store[k] == now.store[k])
            && (h <= at ==> (Open(past, lane) <==> lane in past.sent))
  {
    AfterConsistent(r, blocks[..at + 1]);
    AfterConsistent(r, blocks[..h + 1]);
    assert InStore(r, At(r, blocks, at), KeyOf(PacketCommitment, p));
    assert InStore(r, At(r, blocks, h), KeyOf(PacketCommitment, p));
    if h <= at {
      GrowsBetween(r, blocks, h, at);
    } else {
      GrowsBetween(r, blocks, at, h);
    }
  }

  /** It is true at the requested height exactly when the packet is open there; if up to date, when it had been sent. */
  lemma PacketTrueAtHeightIffSent(c: Config, w: World, steps: seq<Step>, n: nat, i: nat)
    requires Sane(c) && w.Valid() && !c.chain.Evm? && Logged(c, w, steps, n, i, PacketCommitment)
    ensures var s := Run(c, w, steps);
            var m := s.log[n].claim;
            var p := m.packets[i];
            && m.height < |s.world.blocks|
            && var st := At(RulesOf(c), s.world.blocks, m.height);
               && (Holds(c.crypto, st.store, PacketCommitment, p, m.items[i]) <==>
                   Open(st, (p.sourceClient, p.sequence)))
               && (UpToDate(c, m, i) ==>
                   (Holds(c.crypto, st.store, PacketCommitment, p, m.items[i]) <==>
                    (p.sourceClient, p.sequence) in st.sent))
  {
    LoggedSound(c, w, steps, n, i, PacketCommitment);
    var s := Run(c, w, steps);
    var m := s.log[n].claim;
    StoredIffOpen(RulesOf(c), s.world.blocks, m.height, m.readAt[i], m.packets[i]);
  }
}
