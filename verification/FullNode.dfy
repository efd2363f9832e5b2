/**
 * The chain in memory and the database together (blockchain/chain.go, blockchain/chainio.go): whatever blocks arrive
 * and however often the node is stopped and started in between, all buckets hold the bytes of the best chain.
 */
module FullNodes {
  import opened Primitives
  import opened BlockTree
  import opened Utxo
  import opened Ledgers
  import opened Selection
  import opened ChainCore
  import opened TxOutCodec
  import opened Duplicates
  import opened Lawful
  import opened Rows
  import opened Restart
  import opened BlockChains
  import opened Storage
  import UtxoBucket

  class FullNode {
    const chain: BlockChain
    const store: Store
    /** What the hashes of transactions stand for. */
    ghost const ids: Ids

    /** Memory, index rows and chain state agree with the best chain, and so do utxo rows and journal. */
    ghost predicate Valid()
      reads this, chain, chain.index, chain.bestChain, chain.bestChain.backing, store
    {
      chain.Valid() && AllLawful(chain.params, ids, chain.core) && store.Holds(chain.ledger)
    }

    constructor (curve: Curve, p: Params, genesis: Block, ghost ids: Ids)
      requires PointsDetermined(curve) && StoredAs(p, p.genesis, genesis) && p.genesis.parent.Nil? && Guarded(p, ids)
      ensures Valid() && chain.params == p && chain.core == Initial(p, genesis) && this.ids == ids
      ensures fresh(chain) && fresh(chain.index) && fresh(chain.bestChain) && fresh(chain.bestChain.backing)
      ensures fresh(store)
    {
      this.ids := ids;
      chain := new BlockChain(p, genesis);
      store := new Store(curve, p, genesis);
      new;
      InitialLawful(p, ids, genesis);
    }

    /** Every bucket has the bytes that belong to the best chain, and no others. */
    lemma AllBytes()
      requires Valid()
      ensures chain.core.chain.tip.Node? && chain.ledger == LedgerAt(chain.core.blocks, chain.core.chain.tip)
      ensures Mirrors(chain.index.rows, chain.core.index, chain.core.chain.status)
      ensures RowsHeld(chain.index.bucket, chain.index.rows)
      ensures var tip := chain.core.chain.tip;
        chain.chainState == StateBytes(StateRow(tip.hash, Height(tip), SumTxns(chain.core.blocks, tip), WorkSum(tip)))
      ensures UtxoBucket.BucketHolds(store.curve, store.bucket, chain.ledger.utxos)
      ensures Encodes(store.curve, store.journal, chain.ledger.journal)
    {
      chain.StateOfTip();
      AllLowHeights();
      RowsLow(chain.params, chain.core, chain.index.rows);
    }

    lemma AllLowHeights()
      requires Valid()
      ensures forall n :: n in chain.core.chain.status ==> Height(n) < 0x8000_0000
    {
      forall n | n in chain.core.chain.status ensures Height(n) < 0x8000_0000 {
        assert LawfulNode(chain.params, ids, chain.core.blocks, n);
      }
    }

    /** A block arrives. */
    method Process(block: Block) returns (outcome: Outcome)
      requires Valid() && block.hash !in chain.core.index && Sane(chain.params, block)
      requires Identifies(ids, block) && BelowLimit(chain.core, block)
      requires AllEarly(chain.params, ids, Accept(chain.params, chain.core, block).0)
      modifies chain, chain.index, chain.bestChain, chain.bestChain.backing, store
      ensures Valid() && (chain.core, outcome) == Accept(chain.params, old(chain.core), block)
      ensures chain.bestChain.backing == old(chain.bestChain.backing) || fresh(chain.bestChain.backing)
    {
      var tip := chain.bestChain.Tip();
      var c := Core(chain.index.index, Chain(chain.index.status, tip), chain.blocks);
      assert c == chain.core;
      var d, same := store.Accept(chain.params, c, block, ids);
      outcome := chain.MaybeAcceptBlock(block);
    }

    /** The node is stopped and started again. */
    method Reboot(keys: seq<seq<byte>>) returns (ok: bool)
      requires Valid() && CursorKeys(keys, chain.index.bucket) && chain.ledger.best.totalTxns < TWO_64
      modifies chain, chain.index, chain.bestChain, chain.bestChain.backing
      ensures Valid() && ok && chain.core == old(chain.core)
      ensures chain.bestChain.backing == old(chain.bestChain.backing) || fresh(chain.bestChain.backing)
    {
      AllLowHeights();
      ok := chain.Restart(keys);
    }
  }
}
