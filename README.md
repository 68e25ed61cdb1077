# Student Budget Blockchain Tracker — ledger model

This project models the expense ledger behind the Student Budget Blockchain
Tracker in Dafny. The ledger is a single-writer, append-only, hash-linked log.
A `Blockchain` object owns two pieces of state. The first is `chain`, the
sealed blocks. The second is `pendingTransactions`, the expense records staged
since the last seal. The constructor seals a genesis block. `AddTransaction`
stages one five-field record. `CreateBlock` seals the whole buffer into a
block: its index is one past the chain length, and its hash is the digest of
its index, timestamp, transactions and previous hash. The add-expense flow of
the interface script stages one record and seals it onto the tip's hash. The
analysis view flattens every block's transactions in chain order.

Files:

- `chain.dfy`, module `Chain`. It holds the values: `Transaction`, the
  four-field `BlockContent`, and `Block`. It also holds `Seal` (the block that
  create_block builds), `TipHash`, the chain invariant `ValidChain` (indices
  1..N, stored hash = digest of the content, links to the predecessor's hash
  with `"0"` for the first block), `Flatten`, and the lemmas about them.
- `ledger.dfy`, module `Ledger`. It holds the class `Blockchain` with its
  fields, the constructor, `CreateBlock` and `AddTransaction`.
- `tracker.dfy`, module `Tracker`. It holds the submit flow `SubmitExpense`
  and the flattening loop `ListTransactions`. It also holds `Submit` and
  `Replay`, the same flow written as values, and the lemmas about many
  submits in a row.

The digest (SHA-256 over key-sorted JSON) is the class's constant
`hashBlock`. It may be any deterministic function from `BlockContent` to a
string, so every property except `Chain.TamperEvident` holds whatever digest
is used. `BlockContent` is a record of named fields, so key order plays no
part. The digest sees exactly
the four fields that exist before the `hash` key is added. The clock reading
(`datetime.now()`) is the `timestamp` parameter of the constructor,
`CreateBlock` and `SubmitExpense`.

The source has no integrity verifier. `ValidChain` is only the predicate that
states the invariants that the methods and lemmas keep or break. It is not an
operation of the ledger. Also, the source does not enforce these invariants.
`CreateBlock` accepts any `previous_hash`. That is why its contract says the
chain stays valid exactly when the caller passes the tip's hash, and why the
submit flow is what keeps the chain linked.

## Model

| member | source | states |
|---|---|---|
| `Ledger.Blockchain.constructor` | Student_Budget_Tracker.py:10-17 | a fresh ledger (no file) has exactly one block: index 1, previous hash "0", no transactions, hash = digest of its content; the pending buffer is empty; the chain is valid |
| `Ledger.Blockchain.CreateBlock` | Student_Budget_Tracker.py:27-38 | appends exactly one block and returns it, with earlier blocks unchanged; its index is the old length + 1, its transactions are the old pending buffer in order, it stores the given previous hash and the digest of its four content fields; the buffer is empty afterwards; a valid chain stays valid iff the previous hash passed is the old tip's hash |
| `Ledger.Blockchain.AddTransaction` | Student_Budget_Tracker.py:44-53 | appends exactly one record with the five given fields to the end of the pending buffer, keeps the earlier entries, leaves the chain unchanged, and returns that record |
| `Chain.AppendValidIff` | Student_Budget_Tracker.py:28-35 | appending a sealed block with index length + 1 to a valid chain gives a valid chain iff its previous hash is the tip's hash ("0" on an empty chain, which covers genesis) |
| `Chain.TamperEvident` | Student_Budget_Tracker.py:40-42 | with a collision-free digest, replacing any block of a valid chain by one with different content breaks validity when the stored hash is kept, and, for any block but the tip, whatever hash is stored |
| `Chain.FlattenAppend` | Student_Budget_Tracker.py:104-106 | the flattening of two chains put together is the flattening of the first followed by that of the second |
| `Chain.FlattenSnoc` | Student_Budget_Tracker.py:106 | appending one block to a chain appends exactly that block's transactions to its flattening |
| `Chain.FlattenContains` | Student_Budget_Tracker.py:104-106 | a transaction is in the flattening iff some block of the chain holds it |
| `Tracker.SubmitExpense` | Student_Budget_Tracker.py:73-86 | an empty user id reports the error and changes neither the chain nor the buffer; otherwise exactly one block is appended, holding the buffer followed by the submitted expense, with index old length + 1, previous hash the old tip's hash ("0" if the chain was empty) and hash the digest of its content; the buffer ends empty; a valid ledger stays valid |
| `Tracker.ListTransactions` | Student_Budget_Tracker.py:104-106 | the loop returns every block's transactions concatenated in chain order, then in-block order |
| `Tracker.SubmitKeepsChainValid` | Student_Budget_Tracker.py:84-86 | a submit keeps a valid chain valid; an accepted expense on an empty buffer adds a block holding exactly that one expense |
| `Tracker.ReplayKeepsLedger` | Student_Budget_Tracker.py:73-86 | across any sequence of submits from a valid chain with an empty buffer: the chain stays valid, earlier blocks are kept, the buffer ends empty, one block is added per expense with a user id, and the flattened transactions are the old ones followed by the accepted expenses in submission order |
| `Tracker.EnteredAllAccepted` | Student_Budget_Tracker.py:74-77 | when every submitted expense carries a user id, the accepted expenses are exactly the submitted ones, in order |
| `Tracker.FreshSession` | Student_Budget_Tracker.py:13-17 | a fresh ledger followed by N submits that all have a user id holds N + 1 valid blocks, and its flattened transactions are exactly the N expenses in submission order |

## Left out

- The load branch of the constructor (lines 13-14, 23-25) and `save_blockchain` (lines 19-21, 37): these are file I/O and JSON (de)serialisation. The model covers the in-memory state when no file exists. The file name is not modelled. Note that the source does not check a loaded chain, so `Valid()` is not promised for a reopened ledger.
- SHA-256 and `json.dumps(sort_keys=True)` (lines 41-42): these are library calls. They are the constant `hashBlock`, an arbitrary deterministic function. `Chain.TamperEvident` assumes the function is injective, which idealises collision resistance.
- `datetime.now()` (line 30): its result is the `timestamp` parameter. The string form of the time is taken as given.
- Amounts are floats in the source (line 69). The model uses an integer, such as a number of hundredths. The `min_value=0.0` bound is a widget constraint, not ledger logic, so it is not modelled. Neither is the `str(date)` conversion (line 79).
- Streamlit rendering, messages and session state (lines 56-71, 87-99): presentation and ambient global state. The two messages of the submit flow are the `Outcome` value. The five form values reach `SubmitExpense` as one `Transaction`. The single session object is the `ledger` parameter.
- The `groupby` summary, the user filter and the CSV export (lines 108-129): library-backed reporting over float sums. The `if st.session_state.blockchain.chain` guard (line 103) only gates that display.
- The source has no integrity verifier, transaction validation (amount sign, category set), persistence rollback or corrupt-ledger handling. The model adds none of them.
- Aliasing: the block stores the very list object `pending_transactions` was bound to, and the field is then rebound to a new list (lines 31, 36). With sequence values this is the same as storing a copy, because the old list is never changed afterwards.
