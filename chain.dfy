/** Values of the expense ledger: transactions, blocks, the hash over a block's
    content, and the invariants of a hash-linked chain of blocks. */
module Chain {

  /** One expense record, the five-field dictionary that add_transaction stages.
      The amount is an integer number of hundredths of a TWD. */
  datatype Transaction = Transaction(
    userId: string,
    date: string,
    category: string,
    amount: int,
    description: string)

  /** A block before its `hash` key is added: the four fields the hash covers.
      Being a record of named fields, it has no key order, just as the
      key-sorted JSON encoding the digest is computed over has none. */
  datatype BlockContent = BlockContent(
    index: int,
    timestamp: string,
    transactions: seq<Transaction>,
    previousHash: string)

  /** A sealed block: its content plus the stored hash. */
  datatype Block = Block(
    index: int,
    timestamp: string,
    transactions: seq<Transaction>,
    previousHash: string,
    hash: string)

  /** SHA-256 over the key-sorted JSON encoding of a block's content, taken as
      an arbitrary deterministic function from content to hex digest. */
  type Digest = BlockContent -> string

  /** The content fields of a block: the block with its `hash` key left out. */
  function Content(b: Block): BlockContent {
    BlockContent(b.index, b.timestamp, b.transactions, b.previousHash)
  }

  /** The block create_block builds: four content fields, then the hash of
      exactly those four fields stored beside them. */
  function Seal(index: int, timestamp: string, transactions: seq<Transaction>,
                previousHash: string, hashBlock: Digest): Block
  {
    var content := BlockContent(index, timestamp, transactions, previousHash);
    Block(index, timestamp, transactions, previousHash, hashBlock(content))
  }

  /** The `previous_hash` the add-expense flow passes: the tip's stored hash,
      or the sentinel "0" when the chain is empty. */
  function TipHash(chain: seq<Block>): string {
    if |chain| > 0 then chain[|chain| - 1].hash else "0"
  }

  /** The chain invariants: indices run 1..N without gaps, every stored hash is
      the digest of its block's content, and every block links to its
      predecessor's hash, the first one to the sentinel "0". */
  ghost predicate ValidChain(chain: seq<Block>, hashBlock: Digest) {
    (forall i :: 0 <= i < |chain| ==> chain[i].index == i + 1) &&
    (forall i :: 0 <= i < |chain| ==> chain[i].hash == hashBlock(Content(chain[i]))) &&
    (|chain| > 0 ==> chain[0].previousHash == "0") &&
    (forall i :: 0 < i < |chain| ==> chain[i].previousHash == chain[i - 1].hash)
  }

  /** Appending the block create_block seals keeps a valid chain valid exactly
      when the block's previous hash is the old tip's hash ("0" on an empty
      chain, which makes the genesis block the case |chain| == 0). */
  lemma AppendValidIff(chain: seq<Block>, transactions: seq<Transaction>,
                       previousHash: string, timestamp: string, hashBlock: Digest)
    requires ValidChain(chain, hashBlock)
    ensures ValidChain(chain + [Seal(|chain| + 1, timestamp, transactions, previousHash, hashBlock)], hashBlock)
            <==> previousHash == TipHash(chain)
  {
    var b := Seal(|chain| + 1, timestamp, transactions, previousHash, hashBlock);
    var c := chain + [b];
    assert c[|chain|] == b;
    if previousHash == TipHash(chain) {
      forall i | 0 < i < |c|
        ensures c[i].previousHash == c[i - 1].hash
      {
        if i < |chain| {
          assert c[i] == chain[i] && c[i - 1] == chain[i - 1];
        } else {
          assert c[i - 1] == chain[|chain| - 1];
        }
      }
      forall i | 0 <= i < |c|
        ensures c[i].index == i + 1 && c[i].hash == hashBlock(Content(c[i]))
      {
        if i < |chain| { assert c[i] == chain[i]; }
      }
    } else if |chain| > 0 {
      assert c[|chain| - 1] == chain[|chain| - 1];
    }
  }

  /** A digest that never maps two different contents to the same string: the
      collision resistance that tamper evidence needs from SHA-256, taken as
      an idealisation. */
  ghost predicate Injective(hashBlock: Digest) {
    forall x, y :: hashBlock(x) == hashBlock(y) ==> x == y
  }

  /** Tamper evidence: under a collision-free digest, replacing block i of a
      valid chain by a block with different content yields an invalid chain
      when the stored hash is kept, and, for any block but the tip, whatever
      hash is stored, since then the successor's link breaks. */
  lemma TamperEvident(chain: seq<Block>, i: nat, forged: Block, hashBlock: Digest)
    requires Injective(hashBlock)
    requires ValidChain(chain, hashBlock)
    requires i < |chain|
    requires Content(forged) != Content(chain[i])
    requires forged.hash == chain[i].hash || i + 1 < |chain|
    ensures !ValidChain(chain[i := forged], hashBlock)
  {
    var c := chain[i := forged];
    assert c[i] == forged;
    if forged.hash == chain[i].hash {
      assert hashBlock(Content(forged)) != hashBlock(Content(chain[i]));
      assert c[i].hash != hashBlock(Content(c[i]));
    } else {
      assert c[i + 1] == chain[i + 1];
      assert c[i + 1].previousHash != c[i].hash;
    }
  }

  /** Every transaction of every block, in chain order and then in-block order. */
  function Flatten(chain: seq<Block>): seq<Transaction> {
    if chain == [] then [] else chain[0].transactions + Flatten(chain[1..])
  }

  /** Flattening distributes over concatenation of chains. */
  lemma {:induction false} FlattenAppend(front: seq<Block>, back: seq<Block>)
    ensures Flatten(front + back) == Flatten(front) + Flatten(back)
  {
    if front == [] {
      assert front + back == back;
    } else {
      assert (front + back)[0] == front[0];
      assert (front + back)[1..] == front[1..] + back;
      FlattenAppend(front[1..], back);
    }
  }

  /** Appending one block appends exactly its transactions to the flattening. */
  lemma FlattenSnoc(chain: seq<Block>, b: Block)
    ensures Flatten(chain + [b]) == Flatten(chain) + b.transactions
  {
    FlattenAppend(chain, [b]);
    assert [b][1..] == [];
  }

  /** A transaction appears in the flattening exactly when some block holds it. */
  lemma {:induction false} FlattenContains(chain: seq<Block>, t: Transaction)
    ensures t in Flatten(chain) <==> exists i :: 0 <= i < |chain| && t in chain[i].transactions
  {
    if chain != [] {
      FlattenContains(chain[1..], t);
      if t in Flatten(chain[1..]) {
        var j :| 0 <= j < |chain[1..]| && t in chain[1..][j].transactions;
        assert chain[j + 1] == chain[1..][j];
      }
      if exists i :: 0 <= i < |chain| && t in chain[i].transactions {
        var i :| 0 <= i < |chain| && t in chain[i].transactions;
        if i > 0 {
          assert chain[1..][i - 1] == chain[i];
        }
      }
    }
  }
}
