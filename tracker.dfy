/** The two pieces of the tracker's interface script that drive the ledger:
    the add-expense submit flow and the flattening of all blocks'
    transactions for the analysis view. */
module Tracker {
  import opened Chain
  import opened Ledger

  /** What the submit flow reports: the missing-user-id error, or the block
      that now records the expense. */
  datatype Outcome = MissingUserId | Recorded(block: Block)

  /** The ledger's state as a value, for reasoning about several submits. */
  datatype Snapshot = Snapshot(chain: seq<Block>, pending: seq<Transaction>)

  /** One submit on a state: nothing without a user id; otherwise stage the
      form's expense and seal the buffer onto the tip's hash. */
  function Submit(s: Snapshot, expense: Transaction, timestamp: string, hashBlock: Digest): Snapshot {
    if expense.userId == [] then s
    else
      var staged := s.pending + [expense];
      Snapshot(s.chain + [Seal(|s.chain| + 1, timestamp, staged, TipHash(s.chain), hashBlock)], [])
  }

  /** The add-expense flow, given the five values the form hands over (the
      date already in its string form). An empty user id changes nothing.
      Otherwise exactly one block is appended, holding the staged buffer
      followed by the expense, linked to the old tip's hash, so a valid chain
      stays valid. */
  method SubmitExpense(ledger: Blockchain, expense: Transaction, timestamp: string) returns (outcome: Outcome)
    modifies ledger
    ensures expense.userId == [] ==>
              outcome == MissingUserId &&
              ledger.chain == old(ledger.chain) &&
              ledger.pendingTransactions == old(ledger.pendingTransactions)
    ensures expense.userId != [] ==>
              outcome.Recorded? &&
              ledger.chain == old(ledger.chain) + [outcome.block] &&
              outcome.block.index == |old(ledger.chain)| + 1 &&
              outcome.block.transactions == old(ledger.pendingTransactions) + [expense] &&
              outcome.block.previousHash == TipHash(old(ledger.chain)) &&
              outcome.block.hash == ledger.hashBlock(Content(outcome.block)) &&
              ledger.pendingTransactions == []
    ensures Snapshot(ledger.chain, ledger.pendingTransactions)
            == Submit(Snapshot(old(ledger.chain), old(ledger.pendingTransactions)), expense, timestamp, ledger.hashBlock)
    ensures old(ledger.Valid()) ==> ledger.Valid()
  {
    if expense.userId == [] {
      outcome := MissingUserId;
    } else {
      var _ := ledger.AddTransaction(expense.userId, expense.date, expense.category, expense.amount, expense.description);
      var previousHash := if |ledger.chain| > 0 then ledger.chain[|ledger.chain| - 1].hash else "0";
      var block := ledger.CreateBlock(previousHash, timestamp);
      outcome := Recorded(block);
    }
  }

  /** The analysis view's feed: every block's transactions, in chain order. */
  method ListTransactions(ledger: Blockchain) returns (transactions: seq<Transaction>)
    ensures transactions == Flatten(ledger.chain)
  {
    transactions := [];
    for i := 0 to |ledger.chain|
      invariant transactions == Flatten(ledger.chain[..i])
    {
      assert ledger.chain[..i + 1] == ledger.chain[..i] + [ledger.chain[i]];
      FlattenSnoc(ledger.chain[..i], ledger.chain[i]);
      transactions := transactions + ledger.chain[i].transactions;
    }
    assert ledger.chain[..|ledger.chain|] == ledger.chain;
  }

  /** The expenses the flow accepts (those with a user id), in submission
      order. */
  function Entered(expenses: seq<Transaction>): seq<Transaction> {
    if expenses == [] then []
    else
      var last := expenses[|expenses| - 1];
      Entered(expenses[..|expenses| - 1]) + (if last.userId == [] then [] else [last])
  }

  /** A session: the expenses submitted one after another, each with the
      clock reading of its submit. */
  function Replay(s: Snapshot, expenses: seq<Transaction>, times: seq<string>, hashBlock: Digest): Snapshot
    requires |expenses| == |times|
  {
    if expenses == [] then s
    else
      var n := |expenses| - 1;
      Submit(Replay(s, expenses[..n], times[..n], hashBlock), expenses[n], times[n], hashBlock)
  }

  /** A submit on a valid chain keeps it valid; an accepted expense on an
      empty buffer adds a block holding exactly that expense. */
  lemma SubmitKeepsChainValid(s: Snapshot, expense: Transaction, timestamp: string, hashBlock: Digest)
    requires ValidChain(s.chain, hashBlock)
    ensures ValidChain(Submit(s, expense, timestamp, hashBlock).chain, hashBlock)
    ensures expense.userId != [] && s.pending == [] ==>
              Submit(s, expense, timestamp, hashBlock).chain[|s.chain|].transactions == [expense]
  {
    if expense.userId != [] {
      AppendValidIff(s.chain, s.pending + [expense], TipHash(s.chain), timestamp, hashBlock);
    }
  }

  /** Over a whole session started on a valid chain with an empty buffer: the
      chain stays valid, earlier blocks are kept, the buffer ends empty, one
      block is added per accepted expense, and the flattened transactions are the
      old ones followed by the accepted expenses in submission order. */
  lemma {:induction false} ReplayKeepsLedger(s: Snapshot, expenses: seq<Transaction>, times: seq<string>, hashBlock: Digest)
    requires |expenses| == |times|
    requires ValidChain(s.chain, hashBlock) && s.pending == []
    ensures var r := Replay(s, expenses, times, hashBlock);
            ValidChain(r.chain, hashBlock) &&
            r.pending == [] &&
            |r.chain| == |s.chain| + |Entered(expenses)| &&
            r.chain[..|s.chain|] == s.chain &&
            Flatten(r.chain) == Flatten(s.chain) + Entered(expenses)
  {
    if expenses != [] {
      var n := |expenses| - 1;
      var r := Replay(s, expenses[..n], times[..n], hashBlock);
      ReplayKeepsLedger(s, expenses[..n], times[..n], hashBlock);
      SubmitKeepsChainValid(r, expenses[n], times[n], hashBlock);
      var r' := Submit(r, expenses[n], times[n], hashBlock);
      assert r' == Replay(s, expenses, times, hashBlock);
      if expenses[n].userId != [] {
        var b := Seal(|r.chain| + 1, times[n], [expenses[n]], TipHash(r.chain), hashBlock);
        assert r'.chain == r.chain + [b];
        FlattenSnoc(r.chain, b);
        assert r'.chain[..|s.chain|] == r.chain[..|s.chain|];
      }
    }
  }

  /** When every expense carries a user id, each one is accepted, in order. */
  lemma {:induction false} EnteredAllAccepted(expenses: seq<Transaction>)
    requires forall i :: 0 <= i < |expenses| ==> expenses[i].userId != []
    ensures Entered(expenses) == expenses
  {
    if expenses != [] {
      var n := |expenses| - 1;
      EnteredAllAccepted(expenses[..n]);
      assert expenses[..n] + [expenses[n]] == expenses;
    }
  }

  /** A fresh ledger followed by N submits that all carry a user id holds
      N + 1 valid blocks whose flattened transactions are the N expenses in
      submission order. */
  lemma FreshSession(expenses: seq<Transaction>, times: seq<string>, genesisTime: string, hashBlock: Digest)
    requires |expenses| == |times|
    requires forall i :: 0 <= i < |expenses| ==> expenses[i].userId != []
    ensures var r := Replay(Snapshot([Seal(1, genesisTime, [], "0", hashBlock)], []), expenses, times, hashBlock);
            ValidChain(r.chain, hashBlock) &&
            |r.chain| == |expenses| + 1 &&
            Flatten(r.chain) == expenses
  {
    var genesis := Seal(1, genesisTime, [], "0", hashBlock);
    AppendValidIff([], [], "0", genesisTime, hashBlock);
    assert [] + [genesis] == [genesis];
    ReplayKeepsLedger(Snapshot([genesis], []), expenses, times, hashBlock);
    EnteredAllAccepted(expenses);
    FlattenSnoc([], genesis);
  }
}
