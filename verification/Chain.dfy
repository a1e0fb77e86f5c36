/** The daemon's block database as its readers see it: a chain that may be replaced between any two reads. */
module Chain {
  import opened Basics
  import opened Text

  /** Hex text of a block id. */
  type Id = string

  /** What a block id determines: the previous id, the coinbase total and the fee of every regular transaction. */
  datatype Block = Block(parent: Id, coinbase: u64, fees: seq<u64>)

  /** get_block_id_by_height answers with the all-zero hash above the tip. A short text stands for it here:
      all that matters is that no block has this id. */
  const NULL_ID: Id := "0"

  /** A chain by height; block counts are 64-bit. */
  type IdChain = c: seq<Id> | |c| < TWO_64

  /** One instant of the database: the canonical chain, and whether a read at this instant fails. */
  datatype Instant = Instant(chain: IdChain, fault: bool)

  /** Block contents by id, and the instant each successive read sees. Quantifying over all worlds
      quantifies over every interleaving of the daemon's writes with the explorer's reads. */
  datatype World = World(content: Id -> Block, schedule: nat -> Instant) {

    ghost predicate LinkedAt(t: nat) {
      Linked(content, ChainAt(t))
    }

    ghost predicate Valid() {
      forall t: nat :: LinkedAt(t)
    }

    function ChainAt(t: nat): (c: IdChain) {
      schedule(t).chain
    }

    function IdAt(t: nat, height: nat): (id: Id) {
      if height < |ChainAt(t)| then ChainAt(t)[height] else NULL_ID
    }

    /** The chain is c at every instant of [from, to). */
    ghost predicate Holds(c: seq<Id>, from: nat, to: nat) {
      forall t: nat :: from <= t < to ==> ChainAt(t) == c
    }
  }

  /** Block i of a chain has a non-null hex id and names its predecessor. */
  ghost predicate LinkedBlock(content: Id -> Block, chain: seq<Id>, i: nat)
    requires i < |chain|
  {
    && chain[i] != "" && chain[i] != NULL_ID && Clean(chain[i])
    && (i > 0 ==> content(chain[i]).parent == chain[i - 1])
  }

  ghost predicate Linked(content: Id -> Block, chain: seq<Id>) {
    forall i :: 0 <= i < |chain| ==> LinkedBlock(content, chain, i)
  }

  /** Two linked chains that agree on one block agree on everything below it. */
  lemma {:induction false} SharedBlockSharesPast(content: Id -> Block, a: seq<Id>, b: seq<Id>, k: nat)
    requires Linked(content, a) && Linked(content, b)
    requires k < |a| && k < |b| && a[k] == b[k]
    ensures a[..k + 1] == b[..k + 1]
  {
    assert LinkedBlock(content, a, k) && LinkedBlock(content, b, k);
    if k > 0 {
      SharedBlockSharesPast(content, a, b, k - 1);
      assert a[..k + 1] == a[..k] + [a[k]];
      assert b[..k + 1] == b[..k] + [b[k]];
    } else {
      assert a[..1] == [a[0]] && b[..1] == [b[0]];
    }
  }

  /** The read interface of the database. Every call is one instant of the schedule. */
  class Daemon {
    const world: World
    var now: nat

    constructor (world: World)
      ensures this.world == world && now == 0
    {
      this.world := world;
      now := 0;
    }

    method BlockCount() returns (count: nat)
      modifies this
      ensures now == old(now) + 1
      ensures count == |world.ChainAt(old(now))|
    {
      count := |world.schedule(now).chain|;
      now := now + 1;
    }

    method BlockId(height: nat) returns (id: Id)
      modifies this
      ensures now == old(now) + 1
      ensures id == world.IdAt(old(now), height)
    {
      var chain := world.schedule(now).chain;
      id := if height < |chain| then chain[height] else NULL_ID;
      now := now + 1;
    }

    /** get_block_by_height: the id stands for get_block_hash of the block returned. */
    method BlockAt(height: nat) returns (found: Option<Id>)
      modifies this
      ensures now == old(now) + 1
      ensures found == BlockRead(world, old(now), height)
    {
      found := BlockRead(world, now, height);
      now := now + 1;
    }

    /** get_transactions for the block's hashes; a fault stands for an error or a missed hash. */
    method Transactions(id: Id) returns (found: Option<seq<u64>>)
      modifies this
      ensures now == old(now) + 1
      ensures found == TransactionsRead(world, old(now), id)
    {
      found := TransactionsRead(world, now, id);
      now := now + 1;
    }
  }

  function BlockRead(w: World, t: nat, height: nat): (found: Option<Id>) {
    if w.schedule(t).fault || height >= |w.ChainAt(t)| then None else Some(w.ChainAt(t)[height])
  }

  function TransactionsRead(w: World, t: nat, id: Id): (found: Option<seq<u64>>) {
    if w.schedule(t).fault then None else Some(w.content(id).fees)
  }
}
