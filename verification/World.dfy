/** The attested chain as it moves: new blocks, reorganisations of the tip, advancing finality. */
module World {
  import opened Wrappers
  import opened Bytes
  import opened Ledger

  /** What the node shows: the canonical blocks, by height, and the last one it calls finalized. */
  datatype World = World(blocks: seq<Block>, final: nat) {
    ghost predicate Valid() {
      final < |blocks| && Timely(blocks)
    }

    function Tip(): int { |blocks| - 1 }
  }

  /** Block times never decrease. */
  ghost predicate Timely(blocks: seq<Block>) {
    forall i, j :: 0 <= i <= j < |blocks| ==> blocks[i].time <= blocks[j].time
  }

  datatype Event =
    | Produce(block: Block)
    | Reorg(depth: nat, branch: seq<Block>)
    | Finalize(height: nat)

  /**
   * A reorganisation replaces at most `maxReorg` trailing blocks by at least as many,
   * and touches neither a finalized block nor genesis.
   */
  ghost predicate Possible(maxReorg: nat, w: World, e: Event) {
    match e
    case Produce(b) => Timely(w.blocks + [b])
    case Reorg(depth, branch) =>
      && depth <= maxReorg
      && depth <= w.Tip() - w.final
      && depth <= |branch|
      && Timely(w.blocks[..|w.blocks| - depth] + branch)
    case Finalize(height) => w.final <= height <= w.Tip()
  }

  /** The chain after an event; one that cannot happen changes nothing. */
  ghost function Evolve(maxReorg: nat, w: World, e: Event): World
    requires w.Valid()
  {
    if !Possible(maxReorg, w, e) then w
    else match e
    case Produce(b) => w.(blocks := w.blocks + [b])
    case Reorg(depth, branch) => w.(blocks := w.blocks[..|w.blocks| - depth] + branch)
    case Finalize(height) => w.(final := height)
  }

  ghost function History(maxReorg: nat, w: World, events: seq<Event>): (w': World)
    requires w.Valid()
    ensures w'.Valid()
    decreases |events|
  {
    if events == [] then w
    else
      var mid := History(maxReorg, w, events[..|events| - 1]);
      Evolve(maxReorg, mid, events[|events| - 1])
  }

  datatype Chain = Evm(finalityOffset: Option<u64>) | Cosmos | Solana

  function SaturatingSub(a: nat, b: nat): (r: nat)
    ensures r == if a <= b then 0 else a - b
  {
    if a < b then 0 else a - b
  }

  /** What `get_last_height_at_configured_finality` answers when the node tells the truth. */
  function Finalized(chain: Chain, w: World): nat
    requires |w.blocks| > 0
  {
    match chain
    case Evm(None) => w.final
    case Evm(Some(offset)) => SaturatingSub(w.Tip(), offset)
    case Cosmos => w.Tip()
    case Solana => w.final
  }

  /** The chain is no more volatile than the configured finality allows for. */
  predicate Settles(chain: Chain, maxReorg: nat) {
    match chain
    case Evm(None) => true
    case Evm(Some(offset)) => maxReorg <= offset
    case Cosmos => maxReorg == 0
    case Solana => true
  }

  /** `w'` still has the blocks of `w` up to `height`. */
  predicate Keeps(w: World, w': World, height: nat) {
    height < |w.blocks| <= |w'.blocks| && w'.blocks[..height + 1] == w.blocks[..height + 1]
  }

  lemma PrefixOfAppend<T>(s: seq<T>, t: seq<T>, n: nat)
    requires n <= |s|
    ensures (s + t)[..n] == s[..n]
  {
  }

  lemma ReorgKeeps(chain: Chain, maxReorg: nat, w: World, depth: nat, branch: seq<Block>)
    requires w.Valid() && Settles(chain, maxReorg) && Possible(maxReorg, w, Reorg(depth, branch))
    ensures Finalized(chain, w) < |w.blocks| - depth
    ensures Keeps(w, Evolve(maxReorg, w, Reorg(depth, branch)), Finalized(chain, w))
  {
    var n := Finalized(chain, w) + 1;
    assert n <= |w.blocks| - depth;
    PrefixOfAppend(w.blocks[..|w.blocks| - depth], branch, n);
    assert w.blocks[..|w.blocks| - depth][..n] == w.blocks[..n];
  }

  /** One event leaves every block at or below the finalized height in place and never lowers that height. */
  lemma EvolveKeeps(chain: Chain, maxReorg: nat, w: World, e: Event)
    requires w.Valid() && Settles(chain, maxReorg)
    ensures var w' := Evolve(maxReorg, w, e);
            && w'.Valid()
            && Finalized(chain, w) <= Finalized(chain, w')
            && w.final <= w'.final
            && Keeps(w, w', Finalized(chain, w))
  {
    if Possible(maxReorg, w, e) {
      match e
      case Produce(b) => PrefixOfAppend(w.blocks, [b], Finalized(chain, w) + 1);
      case Reorg(depth, branch) => ReorgKeeps(chain, maxReorg, w, depth, branch);
      case Finalize(_) =>
    }
  }

  /** The same over any history. */
  lemma {:induction false} HistoryKeeps(chain: Chain, maxReorg: nat, w: World, events: seq<Event>)
    requires w.Valid() && Settles(chain, maxReorg)
    ensures var w' := History(maxReorg, w, events);
            && Finalized(chain, w) <= Finalized(chain, w')
            && w.final <= w'.final
            && Keeps(w, w', Finalized(chain, w))
    decreases |events|
  {
    if events != [] {
      var before := events[..|events| - 1];
      var mid := History(maxReorg, w, before);
      HistoryKeeps(chain, maxReorg, w, before);
      EvolveKeeps(chain, maxReorg, mid, events[|events| - 1]);
      var w', n, m := History(maxReorg, w, events), Finalized(chain, w) + 1, Finalized(chain, mid) + 1;
      assert w'.blocks[..n] == w'.blocks[..m][..n] == mid.blocks[..m][..n] == mid.blocks[..n];
    }
  }

  /** Whatever height an adapter with this offset accepts, its block never changes afterwards. */
  ghost predicate GateIsStable(offset: u64, maxReorg: nat) {
    forall w: World, events: seq<Event>, h: nat ::
      w.Valid() && h <= Finalized(Evm(Some(offset)), w) ==> Keeps(w, History(maxReorg, w, events), h)
  }

  lemma KeepsBelow(w: World, w': World, height: nat, h: nat)
    requires Keeps(w, w', height) && h <= height
    ensures Keeps(w, w', h)
  {
    assert w'.blocks[..h + 1] == w'.blocks[..height + 1][..h + 1];
    assert w.blocks[..h + 1] == w.blocks[..height + 1][..h + 1];
  }

  /** A finality offset is enough exactly when it covers the deepest reorganisation. */
  lemma ReorgStability(offset: u64, maxReorg: nat)
    ensures GateIsStable(offset, maxReorg) <==> maxReorg <= offset
  {
    var chain := Evm(Some(offset));
    if maxReorg <= offset {
      forall w: World, events: seq<Event>, h: nat | w.Valid() && h <= Finalized(chain, w)
        ensures Keeps(w, History(maxReorg, w, events), h)
      {
        HistoryKeeps(chain, maxReorg, w, events);
        KeepsBelow(w, History(maxReorg, w, events), Finalized(chain, w), h);
      }
    } else {
      UnstableExample(offset, maxReorg);
    }
  }

  /** With a smaller offset there is a chain whose reorganisation replaces a block that was accepted. */
  lemma UnstableExample(offset: u64, maxReorg: nat)
    requires offset < maxReorg
    ensures !GateIsStable(offset, maxReorg)
  {
    var stale := Block(0, []);
    var fresher := Block(1, []);
    var w := World(seq(maxReorg + 1, _ => stale), 0);
    var branch := seq(maxReorg, _ => fresher);
    var events := [Reorg(maxReorg, branch)];
    var h := maxReorg - offset;
    assert h == Finalized(Evm(Some(offset)), w);
    assert events[..0] == [];
    assert History(maxReorg, w, events[..0]) == w;
    assert w.blocks[..1] + branch == [stale] + branch;
    assert Possible(maxReorg, w, events[0]);
    var w' := History(maxReorg, w, events);
    assert w'.blocks == [stale] + branch;
    assert w'.blocks[..h + 1][h] == fresher && w.blocks[..h + 1][h] == stale;
    assert !Keeps(w, w', h);
  }

  /** No possible history touches the blocks up to `h`. */
  ghost predicate NeverChanges(maxReorg: nat, w: World, h: nat)
    requires w.Valid()
  {
    forall events: seq<Event> :: Keeps(w, History(maxReorg, w, events), h)
  }

  /**
   * Where the node says itself what is finalized, the adapter accepts as much as it can:
   * if reorganisations may reach down to the finalized block, exactly the heights that never change.
   */
  lemma FinalizedIsGreatest(chain: Chain, maxReorg: nat, w: World, h: nat)
    requires w.Valid() && (chain == Evm(None) || chain == Solana) && w.Tip() - w.final <= maxReorg
    ensures h <= Finalized(chain, w) <==> NeverChanges(maxReorg, w, h)
  {
    if h <= Finalized(chain, w) {
      forall events: seq<Event> ensures Keeps(w, History(maxReorg, w, events), h) {
        HistoryKeeps(chain, maxReorg, w, events);
        KeepsBelow(w, History(maxReorg, w, events), Finalized(chain, w), h);
      }
    } else {
      ReplacedAboveFinal(maxReorg, w, h);
    }
  }

  /** Everything above the finalized block can be replaced, by later blocks. */
  lemma ReplacedAboveFinal(maxReorg: nat, w: World, h: nat)
    requires w.Valid() && w.Tip() - w.final <= maxReorg && w.final < h
    ensures !NeverChanges(maxReorg, w, h)
  {
    var tip := |w.blocks| - 1;
    var depth: nat := tip - w.final;
    var later := Block(w.blocks[tip].time + 1, []);
    var branch := seq(depth, _ => later);
    var events := [Reorg(depth, branch)];
    assert events[..0] == [];
    assert History(maxReorg, w, events[..0]) == w;
    assert Possible(maxReorg, w, events[0]);
    var w' := History(maxReorg, w, events);
    if h < |w.blocks| {
      assert w'.blocks[..h + 1][h] == later && w.blocks[..h + 1][h] != later;
    }
    assert !Keeps(w, w', h);
  }

  /** On Cosmos the last block is accepted, and on EVM with an offset the block `offset` below the last, or genesis. */
  lemma AcceptedHeights(w: World, offset: u64)
    requires w.Valid()
    ensures Finalized(Cosmos, w) + 1 == |w.blocks|
    ensures Finalized(Evm(Some(offset)), w) == 0 || Finalized(Evm(Some(offset)), w) + offset + 1 == |w.blocks|
    ensures Finalized(Evm(Some(offset)), w) + offset + 1 >= |w.blocks|
  {
  }
}
