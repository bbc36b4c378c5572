/** Why a timeout proven by two attestations is safe, on every chain. */
module Timeouts {
  import opened Types
  import opened Paths
  import opened Ledger
  import opened World
  import opened Service
  import opened Soundness
  import opened Runs
  import opened LatestSlot

  /** With no receipt at `at`, a later one is for a packet with a timeout past `time`, if every later block is. */
  lemma OnlyLaterTimeouts(r: Rules, blocks: seq<Block>, at: nat, x: nat, lane: Lane, time: int)
    requires Timely(blocks) && at < |blocks| && x < |blocks|
    requires forall y :: at < y < |blocks| ==> time <= blocks[y].time
    requires lane !in At(r, blocks, at).received
    ensures var st := At(r, blocks, x);
            lane in st.received ==> st.received[lane].timeoutTimestamp > time
  {
    if x <= at {
      assert blocks[..at + 1][..x + 1] == blocks[..x + 1];
      AfterGrows(r, blocks[..at + 1], x + 1, blocks[x].time);
    } else {
      assert blocks[..x + 1][..at + 1] == blocks[..at + 1];
      AfterGrows(r, blocks[..x + 1], at + 1, time);
    }
  }

  /** No other packet of `p`'s sequence has a proof: the counterparty uses each sequence once. */
  ghost predicate SingleUse(r: Rules, p: Packet) {
    forall q :: r.proven(q) && q.destClient == p.destClient && q.sequence == p.sequence ==> q == p
  }

  /** The state holds no receipt of `p`, and none on its lane unless the counterparty reused the sequence. */
  ghost predicate NeverReceived(r: Rules, st: Ledger.State, p: Packet) {
    var lane := (p.destClient, p.sequence);
    && (KeyOf(ReceiptCommitment, p) in st.store <==> lane in st.received)
    && (lane in st.received ==> st.received[lane] != p && r.proven(st.received[lane]))
    && (SingleUse(r, p) ==> KeyOf(ReceiptCommitment, p) !in st.store)
  }

  /** Absence of a receipt is final if every later block is at or past the packet's timeout. */
  lemma LateReceiptImpossible(r: Rules, blocks: seq<Block>, at: nat, x: nat, p: Packet)
    requires Timely(blocks) && at < |blocks| && x < |blocks|
    requires forall y :: at < y < |blocks| ==> p.timeoutTimestamp <= blocks[y].time
    requires KeyOf(ReceiptCommitment, p) !in At(r, blocks, at).store
    ensures NeverReceived(r, At(r, blocks, x), p)
  {
    AfterConsistent(r, blocks[..at + 1]);
    AfterConsistent(r, blocks[..x + 1]);
    assert InStore(r, At(r, blocks, at), KeyOf(ReceiptCommitment, p));
    assert InStore(r, At(r, blocks, x), KeyOf(ReceiptCommitment, p));
    OnlyLaterTimeouts(r, blocks, at, x, (p.destClient, p.sequence), p.timeoutTimestamp);
  }

  /** The entry was read at most one slot before the height it names. */
  predicate Recent(c: Config, m: Claim, i: nat)
    requires m.PacketClaim?
  {
    c.chain != Solana || c.slotLag <= 1 || (i < |m.readAt| && m.height <= m.readAt[i] + 1)
  }

  /** The block at the named height is at or past the packet's timeout. */
  predicate Due(w: World, m: Claim, i: nat)
    requires m.PacketClaim? && i < |m.packets|
  {
    m.height < |w.blocks| && m.packets[i].timeoutTimestamp <= w.blocks[m.height].time
  }

  /** A recent receipt attestation for a packet that is due at its height: no block of the chain holds its receipt. */
  lemma DueReceiptFinal(c: Config, w: World, m: Claim, i: nat, x: nat)
    requires Sane(c) && w.Valid() && ClaimSound(c, w, m) && x < |w.blocks|
    requires m.PacketClaim? && m.kind == ReceiptCommitment && i < |m.packets| && Recent(c, m, i) && Due(w, m, i)
    ensures NeverReceived(RulesOf(c), At(RulesOf(c), w.blocks, x), m.packets[i])
  {
    assert ItemSound(c, w, ReceiptCommitment, m.height, m.packets[i], m.items[i], m.readAt[i]);
    LateReceiptImpossible(RulesOf(c), w.blocks, m.readAt[i], x, m.packets[i]);
  }

  /** The two entries a timeout is proven by: the time of a block, and no receipt at its height. */
  ghost predicate ProvesTimeout(log: seq<Entry>, a: nat, b: nat, i: nat) {
    && a < |log| && log[a].claim.StateClaim?
    && b < |log| && log[b].claim.PacketClaim? && log[b].claim.kind == ReceiptCommitment
    && log[a].claim.height == log[b].claim.height
    && i < |log[b].claim.packets|
    && log[b].claim.packets[i].timeoutTimestamp <= log[a].claim.timestamp
  }

  /**
   * A logged state attestation (h, t) and a logged receipt attestation at h for a packet whose timeout is at most t,
   * read at most one slot before h: no block of any later chain of the run holds a receipt of that packet,
   * and none at all if the counterparty uses each sequence once.
   */
  lemma TimeoutSafety(c: Config, w: World, steps: seq<Step>, n: nat, a: nat, b: nat, i: nat, x: nat)
    requires Sane(c) && w.Valid() && n <= |steps|
    requires var log := Run(c, w, steps[..n]).log;
             ProvesTimeout(log, a, b, i) && Recent(c, log[b].claim, i)
    requires x < |Run(c, w, steps).world.blocks|
    ensures var p := Run(c, w, steps[..n]).log[b].claim.packets[i];
            NeverReceived(RulesOf(c), At(RulesOf(c), Run(c, w, steps).world.blocks, x), p)
  {
    var s, s' := Run(c, w, steps[..n]), Run(c, w, steps);
    RunSound(c, w, steps[..n]);
    RunLater(c, w, steps, n);
    assert EntrySound(c, s, s.log[a]) && EntrySound(c, s, s.log[b]);
    ClaimPersists(c, s.world, s'.world, s.log[a].claim);
    ClaimPersists(c, s.world, s'.world, s.log[b].claim);
    DueReceiptFinal(c, s'.world, s.log[b].claim, i, x);
  }

  /**
   * A packet attested as timed out is not the one an attested acknowledgement is for: what was received there
   * is another packet of the same sequence, which a counterparty that uses each sequence once never proves.
   */
  lemma AckExcludesTimeout(c: Config, w: World, steps: seq<Step>, a: nat, b: nat, i: nat, d: nat, e: nat)
    requires Sane(c) && w.Valid()
    requires var log := Run(c, w, steps).log;
             && ProvesTimeout(log, a, b, i) && Recent(c, log[b].claim, i)
             && Logged(c, w, steps, d, e, AckCommitment) && log[d].claim.packets[e] == log[b].claim.packets[i]
    ensures var s := Run(c, w, steps);
            var p, at := s.log[d].claim.packets[e], s.log[d].claim.readAt[e];
            && at < |s.world.blocks|
            && var st := At(RulesOf(c), s.world.blocks, at);
               || Misread(c, st.store, AckCommitment, p)
               || (&& ReceivedAndProven(RulesOf(c), st, p) && st.received[(p.destClient, p.sequence)] != p
                   && !SingleUse(RulesOf(c), p))
  {
    var at := Run(c, w, steps).log[d].claim.readAt[e];
    AckMeansReceived(c, w, steps, d, e);
    assert steps[..|steps|] == steps;
    TimeoutSafety(c, w, steps, |steps|, a, b, i, at);
  }
}
