/** The ledger object: the in-memory chain and the buffer of pending
    transactions that the next sealed block will hold. */
module Ledger {
  import opened Chain

  class Blockchain {
    /** The digest every block is sealed with (SHA-256 over key-sorted JSON). */
    const hashBlock: Digest
    /** The sealed blocks, oldest first. */
    var chain: seq<Block>
    /** Transactions staged since the last seal. */
    var pendingTransactions: seq<Transaction>

    /** The chain is non-empty and satisfies the hash-chain invariants. */
    ghost predicate Valid()
      reads this
    {
      |chain| >= 1 && ValidChain(chain, hashBlock)
    }

    /** Opening a ledger when no file exists: an empty pending buffer and a
        chain holding only the genesis block, sealed with previous hash "0". */
    constructor (hashBlock: Digest, timestamp: string)
      ensures this.hashBlock == hashBlock
      ensures chain == [Seal(1, timestamp, [], "0", hashBlock)]
      ensures chain[0].index == 1 && chain[0].previousHash == "0" && chain[0].transactions == []
      ensures pendingTransactions == []
      ensures Valid()
    {
      this.hashBlock := hashBlock;
      chain := [];
      pendingTransactions := [];
      new;
      var genesis := CreateBlock("0", timestamp);
    }

    /** Seals the pending buffer into a new block whose index is one past the
        chain length, stores the digest of its content, appends it and empties
        the buffer. Earlier blocks are untouched; the chain stays valid exactly
        when the caller passes the tip's hash. */
    method CreateBlock(previousHash: string, timestamp: string) returns (block: Block)
      modifies this
      ensures block.index == |old(chain)| + 1
      ensures block.timestamp == timestamp
      ensures block.transactions == old(pendingTransactions)
      ensures block.previousHash == previousHash
      ensures block.hash == hashBlock(Content(block))
      ensures block == Seal(|old(chain)| + 1, timestamp, old(pendingTransactions), previousHash, hashBlock)
      ensures chain == old(chain) + [block]
      ensures pendingTransactions == []
      ensures old(ValidChain(chain, hashBlock)) ==>
                (ValidChain(chain, hashBlock) <==> previousHash == TipHash(old(chain)))
    {
      block := Seal(|chain| + 1, timestamp, pendingTransactions, previousHash, hashBlock);
      if ValidChain(chain, hashBlock) {
        AppendValidIff(chain, pendingTransactions, previousHash, timestamp, hashBlock);
      }
      chain := chain + [block];
      pendingTransactions := [];
    }

    /** Stages one five-field record at the end of the pending buffer and
        returns it; the chain is not touched. */
    method AddTransaction(userId: string, date: string, category: string,
                          amount: int, description: string)
      returns (transaction: Transaction)
      modifies this`pendingTransactions
      ensures transaction == Transaction(userId, date, category, amount, description)
      ensures pendingTransactions == old(pendingTransactions) + [transaction]
      ensures chain == old(chain)
    {
      transaction := Transaction(userId, date, category, amount, description);
      pendingTransactions := pendingTransactions + [transaction];
    }
  }
}
