/** What a verifier that holds only bytes, a signature and the service's address may conclude. */
module Verifier {
  import opened Wrappers
  import opened Bytes
  import opened Types
  import opened Paths
  import opened Ledger
  import opened World
  import opened Adapters
  import opened Abi
  import opened Encodings
  import opened Signing
  import opened Service
  import opened Soundness
  import opened Runs
  import opened Timeouts

  /** The bytes of every logged signature and of its response: the tag, the two hashes, and the fields they cover. */
  lemma LoggedBytes(c: Config, w: World, steps: seq<Step>, n: nat)
    requires Sane(c) && w.Valid() && n < |Run(c, w, steps).log|
    ensures var s := Run(c, w, steps);
            var e := s.log[n];
            var sha, sign := c.crypto.sha256, c.scheme.sign;
            e.job < |s.jobs| &&
            match e.claim
            case StateClaim(h, t) =>
              var data := Uint(h) + Uint(t);
              && e.signature == sign(sha([0x01] + sha(data)))
              && HasAnswer(s.jobs[e.job], Ok(AttestationResponse(SignedAttestation(h, Some(t), data, e.signature))))
            case PacketClaim(_, h, _, items, _) =>
              var data := Uint(32) + Uint(h) + Uint(64) + Uint(|items|) + Flat(items);
              && e.signature == sign(sha([0x02] + sha(data)))
              && HasAnswer(s.jobs[e.job], Ok(AttestationResponse(SignedAttestation(h, None, data, e.signature))))
  {
    var s := Run(c, w, steps);
    RunSound(c, w, steps);
    assert EntrySound(c, s, s.log[n]);
    SignedBytes(c.crypto, c.scheme, StatementOf(s.log[n].claim));
  }

  /** A logged signature verifies for the bytes it was made for, and otherwise only on a SHA-256 collision. */
  lemma LoggedSignatureVerifiesExactly(c: Config, w: World, steps: seq<Step>, n: nat, p: AttestationPayload)
    requires Sane(c) && w.Valid() && Ideal(c.scheme) && n < |Run(c, w, steps).log|
    ensures var e := Run(c, w, steps).log[n];
            var signed := PayloadFor(StatementOf(e.claim));
            Verifies(c.crypto, c.scheme, p, e.signature) <==> p == signed || PayloadsCollide(c.crypto, signed, p)
  {
    RunSound(c, w, steps);
    var e := Run(c, w, steps).log[n];
    assert EntrySound(c, Run(c, w, steps), e);
    VerifiesExactly(c.crypto, c.scheme, PayloadFor(StatementOf(e.claim)), p);
  }

  /** A signature that verifies for a statement is for a claim of that statement, unless the payloads collide. */
  lemma VerifiedClaim(c: Config, w: World, steps: seq<Step>, n: nat, statement: Statement)
    requires Sane(c) && w.Valid() && Ideal(c.scheme) && n < |Run(c, w, steps).log|
    requires Verifies(c.crypto, c.scheme, PayloadFor(statement), Run(c, w, steps).log[n].signature)
    ensures var m := Run(c, w, steps).log[n].claim;
            && ClaimSound(c, Run(c, w, steps).world, m)
            && (|| StatementOf(m) == statement
                || PayloadsCollide(c.crypto, PayloadFor(StatementOf(m)), PayloadFor(statement)))
  {
    var e := Run(c, w, steps).log[n];
    LoggedSignatureVerifiesExactly(c, w, steps, n, PayloadFor(statement));
    RunSound(c, w, steps);
    assert EntrySound(c, Run(c, w, steps), e);
    if PayloadFor(StatementOf(e.claim)) == PayloadFor(statement) {
      PayloadInjective(StatementOf(e.claim), statement);
    }
  }

  /** A verified state attestation is the timestamp of a finalized block. */
  lemma VerifiedState(c: Config, w: World, steps: seq<Step>, n: nat, h: u64, t: u64)
    requires Sane(c) && w.Valid() && Ideal(c.scheme) && n < |Run(c, w, steps).log|
    requires Verifies(c.crypto, c.scheme, PayloadFor(StateStatement(h, t)), Run(c, w, steps).log[n].signature)
    ensures var s := Run(c, w, steps);
            || (h <= Finalized(c.chain, s.world) && h < |s.world.blocks| && s.world.blocks[h].time == t)
            || PayloadsCollide(c.crypto, PayloadFor(StatementOf(s.log[n].claim)), PayloadFor(StateStatement(h, t)))
  {
    VerifiedClaim(c, w, steps, n, StateStatement(h, t));
  }

  /** What an attested commitment says about a key: zero, an absent receipt; anything else, the value stored. */
  ghost predicate CommitmentTrue(store: Store, k: Key, commitment: word) {
    if commitment == ZERO then k.kind == ReceiptCommitment && k !in store
    else k.kind != ReceiptCommitment && k in store && store[k] == commitment
  }

  /** The key's path collides with the path of the packet the entry was made for. */
  ghost predicate AttestedPathCollides(c: Config, m: Claim, i: nat, k: Key) {
    m.PacketClaim? && i < |m.packets| && Collide(c.crypto.keccak256, Path(k), Path(KeyOf(m.kind, m.packets[i])))
  }

  /**
   * A verified packet attestation: an item whose path is the hashed path of a key says what is stored under that key,
   * at the attested height or on Solana at a finalized slot at most `slotLag` before it, or a hash function collides.
   */
  lemma VerifiedCommitment(c: Config, w: World, steps: seq<Step>, n: nat, h: u64, items: seq<PacketCompact>, i: nat,
                           k: Key)
    requires Sane(c) && w.Valid() && Ideal(c.scheme) && n < |Run(c, w, steps).log| && i < |items|
    requires Verifies(c.crypto, c.scheme, PayloadFor(PacketStatement(h, items)), Run(c, w, steps).log[n].signature)
    requires items[i].path == c.crypto.keccak256(Path(k))
    ensures var s := Run(c, w, steps);
            || PayloadsCollide(c.crypto, PayloadFor(StatementOf(s.log[n].claim)), PayloadFor(PacketStatement(h, items)))
            || AttestedPathCollides(c, s.log[n].claim, i, k)
            || (exists at: nat ::
                  && at < |s.world.blocks| && ReadInRange(c, s.world, h, at)
                  && (|| CommitmentTrue(StoreAt(c, s.world, at), k, items[i].commitment)
                      || (c.chain.Evm? && PathCollision(c.crypto, StoreAt(c, s.world, at), k))))
  {
    var s := Run(c, w, steps);
    var m := s.log[n].claim;
    VerifiedClaim(c, w, steps, n, PacketStatement(h, items));
    if StatementOf(m) == PacketStatement(h, items) {
      var p, at := m.packets[i], m.readAt[i];
      assert ItemSound(c, s.world, m.kind, h, p, items[i], at);
      HashedPathInjective(c.crypto, k, KeyOf(m.kind, p));
      assert k == KeyOf(m.kind, p) ==>
        || CommitmentTrue(StoreAt(c, s.world, at), k, items[i].commitment)
        || (c.chain.Evm? && PathCollision(c.crypto, StoreAt(c, s.world, at), k));
    }
  }

  // Timeouts, from bytes alone.

  /** The item that says that `p` has no receipt. */
  function AbsenceItem(c: Config, p: Packet): PacketCompact {
    PacketCompact(c.crypto.keccak256(Path(KeyOf(ReceiptCommitment, p))), ZERO)
  }

  /** It is true of `p` itself, whichever packet of that client and sequence it was requested for. */
  lemma AbsenceMeans(c: Config, w: World, m: Claim, i: nat, p: Packet)
    requires w.Valid() && ClaimSound(c, w, m) && m.PacketClaim? && i < |m.items| && m.items[i] == AbsenceItem(c, p)
    ensures || AttestedPathCollides(c, m, i, KeyOf(ReceiptCommitment, p))
            || (&& m.readAt[i] < |w.blocks| && ReadInRange(c, w, m.height, m.readAt[i])
                && KeyOf(ReceiptCommitment, p) !in StoreAt(c, w, m.readAt[i]))
  {
    assert ItemSound(c, w, m.kind, m.height, m.packets[i], m.items[i], m.readAt[i]);
    HashedPathInjective(c.crypto, KeyOf(ReceiptCommitment, p), KeyOf(m.kind, m.packets[i]));
  }

  /** With the time of the block at its height past the timeout of `p`, the absence is final. */
  lemma AbsenceFinal(c: Config, w: World, m: Claim, i: nat, p: Packet, x: nat)
    requires w.Valid() && ClaimSound(c, w, m) && m.PacketClaim? && i < |m.items| && m.items[i] == AbsenceItem(c, p)
    requires c.chain != Solana || c.slotLag <= 1
    requires m.height < |w.blocks| && p.timeoutTimestamp <= w.blocks[m.height].time && x < |w.blocks|
    ensures || AttestedPathCollides(c, m, i, KeyOf(ReceiptCommitment, p))
            || NeverReceived(RulesOf(c), At(RulesOf(c), w.blocks, x), p)
  {
    AbsenceMeans(c, w, m, i, p);
    if !AttestedPathCollides(c, m, i, KeyOf(ReceiptCommitment, p)) {
      LateReceiptImpossible(RulesOf(c), w.blocks, m.readAt[i], x, p);
    }
  }

  /**
   * The timeout of any packet `p` whose consumer holds the two statements and two logged signatures that verify:
   * no block of any later chain of the run holds a receipt of `p`, or a hash function collides on named inputs.
   */
  lemma VerifiedTimeout(c: Config, w: World, steps: seq<Step>, n: nat, a: nat, b: nat, h: u64, t: u64,
                        items: seq<PacketCompact>, i: nat, p: Packet, x: nat)
    requires Sane(c) && w.Valid() && Ideal(c.scheme) && n <= |steps| && (c.chain != Solana || c.slotLag <= 1)
    requires a < |Run(c, w, steps[..n]).log| && b < |Run(c, w, steps[..n]).log|
    requires var log := Run(c, w, steps[..n]).log;
             && Verifies(c.crypto, c.scheme, PayloadFor(StateStatement(h, t)), log[a].signature)
             && Verifies(c.crypto, c.scheme, PayloadFor(PacketStatement(h, items)), log[b].signature)
    requires i < |items| && items[i] == AbsenceItem(c, p) && p.timeoutTimestamp <= t
    requires x < |Run(c, w, steps).world.blocks|
    ensures var log := Run(c, w, steps[..n]).log;
            || PayloadsCollide(c.crypto, PayloadFor(StatementOf(log[a].claim)), PayloadFor(StateStatement(h, t)))
            || PayloadsCollide(c.crypto, PayloadFor(StatementOf(log[b].claim)), PayloadFor(PacketStatement(h, items)))
            || AttestedPathCollides(c, log[b].claim, i, KeyOf(ReceiptCommitment, p))
            || NeverReceived(RulesOf(c), At(RulesOf(c), Run(c, w, steps).world.blocks, x), p)
  {
    var s, w' := Run(c, w, steps[..n]), Run(c, w, steps).world;
    var state, absence := s.log[a].claim, s.log[b].claim;
    VerifiedClaim(c, w, steps[..n], a, StateStatement(h, t));
    VerifiedClaim(c, w, steps[..n], b, PacketStatement(h, items));
    RunLater(c, w, steps, n);
    ClaimPersists(c, s.world, w', state);
    ClaimPersists(c, s.world, w', absence);
    if StatementOf(state) == StateStatement(h, t) && StatementOf(absence) == PacketStatement(h, items) {
      AbsenceFinal(c, w', absence, i, p, x);
    }
  }

  // Signatures do not contradict each other. The log only grows, so these hold of any two points of a run.

  lemma SoundStatesAgree(c: Config, w: World, m: Claim, m': Claim)
    requires w.Valid() && ClaimSound(c, w, m) && ClaimSound(c, w, m') && m.StateClaim? && m'.StateClaim?
    ensures m.height <= m'.height ==> m.timestamp <= m'.timestamp
    ensures m.height == m'.height ==> m.timestamp == m'.timestamp
  {
  }

  /** Two verified state attestations: a lower height has no later time, and the same height the same. */
  lemma VerifiedStatesAgree(c: Config, w: World, steps: seq<Step>, a: nat, b: nat, h: u64, t: u64, g: u64, u: u64)
    requires Sane(c) && w.Valid() && Ideal(c.scheme)
    requires a < |Run(c, w, steps).log| && b < |Run(c, w, steps).log|
    requires Verifies(c.crypto, c.scheme, PayloadFor(StateStatement(h, t)), Run(c, w, steps).log[a].signature)
    requires Verifies(c.crypto, c.scheme, PayloadFor(StateStatement(g, u)), Run(c, w, steps).log[b].signature)
    ensures var log := Run(c, w, steps).log;
            || PayloadsCollide(c.crypto, PayloadFor(StatementOf(log[a].claim)), PayloadFor(StateStatement(h, t)))
            || PayloadsCollide(c.crypto, PayloadFor(StatementOf(log[b].claim)), PayloadFor(StateStatement(g, u)))
            || ((h <= g ==> t <= u) && (h == g ==> t == u))
  {
    var s := Run(c, w, steps);
    VerifiedClaim(c, w, steps, a, StateStatement(h, t));
    VerifiedClaim(c, w, steps, b, StateStatement(g, u));
    if s.log[a].claim.StateClaim? && s.log[b].claim.StateClaim? {
      SoundStatesAgree(c, s.world, s.log[a].claim, s.log[b].claim);
    }
  }

  /** Two verified packet attestations at one height, where reads are at that height: one key, one commitment. */
  lemma VerifiedItemsAgree(c: Config, w: World, steps: seq<Step>, a: nat, b: nat, h: u64,
                           items: seq<PacketCompact>, i: nat, others: seq<PacketCompact>, j: nat, k: Key)
    requires Sane(c) && w.Valid() && Ideal(c.scheme) && c.chain != Solana && i < |items| && j < |others|
    requires a < |Run(c, w, steps).log| && b < |Run(c, w, steps).log|
    requires Verifies(c.crypto, c.scheme, PayloadFor(PacketStatement(h, items)), Run(c, w, steps).log[a].signature)
    requires Verifies(c.crypto, c.scheme, PayloadFor(PacketStatement(h, others)), Run(c, w, steps).log[b].signature)
    requires items[i].path == others[j].path == c.crypto.keccak256(Path(k))
    ensures var s := Run(c, w, steps);
            var m, m' := s.log[a].claim, s.log[b].claim;
            || PayloadsCollide(c.crypto, PayloadFor(StatementOf(m)), PayloadFor(PacketStatement(h, items)))
            || PayloadsCollide(c.crypto, PayloadFor(StatementOf(m')), PayloadFor(PacketStatement(h, others)))
            || AttestedPathCollides(c, m, i, k) || AttestedPathCollides(c, m', j, k)
            || (c.chain.Evm? && h < |s.world.blocks| && PathCollision(c.crypto, StoreAt(c, s.world, h), k))
            || items[i].commitment == others[j].commitment
  {
    VerifiedCommitment(c, w, steps, a, h, items, i, k);
    VerifiedCommitment(c, w, steps, b, h, others, j, k);
  }
}
