# Token ledgers over an authenticated balance map

This project models the two token contracts of `token-reduce-example`. Each keeps
`totalSupply` and `balances`, the root of an authenticated key-to-balance map (an
o1js `MerkleMap`), as its two state fields, and changes the root only by
checking leaf witnesses.

- `Token` (module `TokenLedger`, `token.dfy`) is the synchronous ledger. `mint`
  checks one witness against the stored root, rewrites that leaf and adds to the
  supply. `transferTo` is a chained two-leaf update. It checks the sender's
  witness and that the signed sender owns the leaf. It checks the amount and
  debits. It then requires the receiver's witness to recompute the post-debit
  root, and credits.
- `AToken` (module `ATokenLedger`, `atoken.dfy`) is the deferred ledger. `mint`
  and `transferTo` only append a `TransferAction` to the pending list. `reduce`
  folds the pending actions in order over a running root. For each action it
  looks up the evidence record (`findElement`, a search over a fixed 10-slot
  array) and applies the same debit, chain check and credit steps
  (`updateBalanceTree`).

Supporting modules:

- `Fields` (`field.dfy`): field elements modulo the Pallas base prime, with
  `add` and `sub` that wrap. `assertLessThanOrEqual` compares canonical
  representatives.
- `MerkleMaps` (`merkle_map.dfy`): the map abstraction.
  - A root is the canonical map itself. A zero leaf is absent, because an
    unwritten leaf reads 0. So two roots are equal exactly when every leaf
    agrees; this is the collision resistance of the real root.
  - A witness is a key plus the rest of the map (its authentication path).
    `ComputeRoot(w, v)` is `computeRootAndKeyV2(v)`.
  - A key is a Poseidon digest, represented by its preimage, so key derivation
    is injective.
- `Outcomes` (`outcomes.dfy`): one error per failing assertion of the code.

A failed assertion aborts the whole transaction. The class methods therefore
return `Fail(e)` and leave every field as it was.

The code is modelled as written, including four behaviours a reader would not
expect of a token ledger.

- The credit leg writes `balanceBBefore + (balanceBBefore + amount)` (see Findings).
- The reducer never advances `ReduceState.id`. Every action is paired with the
  last evidence record whose id is 0.
- `reduce` computes the folded root and then drops it. It never writes
  `balances`, `totalSupply` or the pending list.
- The deferred debit never compares `action.from` (or `action.to`) with a witness
  key. A deferred mint is settled as a debit of whatever sender leaf its evidence
  names.

## Model

| member | source | states |
|---|---|---|
| `Fields.Add` | src/Token.ts:34 | field addition is the integer sum, minus P when the sum reaches P (it wraps at most once) |
| `Fields.Sub` | src/Token.ts:70 | field subtraction is the integer difference when it is non-negative, and wraps by P otherwise |
| `MerkleMaps.KeyOfInjective` | src/Token.ts:61-64 | the leaf key derived from an account (`Poseidon.hash(pk.toFields())`) is injective: distinct accounts own distinct leaves, so the ownership check identifies the sender |
| `MerkleMaps.EmptyRootIsZero` | src/Token.ts:12 | every leaf of the empty map's root reads 0 |
| `MerkleMaps.Set` | test/Token.test.ts:72 | after writing `v` at `k`, leaf `k` reads `v` and every other leaf is unchanged |
| `MerkleMaps.RootsEqual` | src/Token.ts:30-32 | two roots whose leaves all agree are equal, so a root equality check compares whole maps |
| `MerkleMaps.ComputeRoot` | src/Token.ts:29 | the root a witness computes from `v` holds `v` at the witness's key |
| `MerkleMaps.ComputeRootMatches` | src/Token.ts:29-32 | a witness recomputes a root from `v` if and only if its path belongs to that root and the root holds `v` at its key |
| `MerkleMaps.ClaimedValueUnique` | src/Token.ts:29-32 | two witnesses for one key that recompute the same root claim the same value |
| `MerkleMaps.RewriteLeaf` | src/Token.ts:34-35 | a witness valid for `root` computes, for a new value, `root` with only that leaf rewritten |
| `MerkleMaps.WriteThenRead` | src/Token.ts:35-37 | after a write, a fresh witness of the new root reads back the written value |
| `TokenLedger.ApplyMint` | src/Token.ts:24-41 | mint succeeds if and only if the witness proves `balanceBefore` against the stored root, and fails only with 'Wrong witness for balances'. On success the leaf becomes `balanceBefore + mintAmount`, all other leaves are unchanged and the supply rises by `mintAmount` |
| `TokenLedger.ChainedTransfer` | src/Token.ts:66-79 | the chained update succeeds if and only if: the sender witness proves `aBefore`; `amount <= aBefore`; and the receiver witness proves `bBefore` against the POST-DEBIT root. Failures come in the code's order: a wrong sender witness gives 'Wrong witness for balances A', then an overdraft gives "Can't transfer more then you have", then a wrong receiver witness gives 'Wrong witness for balanceB'. On success the receiver leaf holds `bBefore + (bBefore + amount)`, the sender leaf holds `aBefore - amount` with no wrap-around (distinct leaves), and no other leaf changes |
| `TokenLedger.ApplyTransfer` | src/Token.ts:48-82 | a wrong sender witness fails first. Otherwise a signed sender that does not own the witness's leaf fails with 'Only owner can transfer'. Otherwise the result is the chained update. Success implies that the sender owns the debited leaf, which held `balanceABefore`, and the supply is unchanged |
| `TokenLedger.OverdraftRejected` | src/Token.ts:66-69 | with a valid owned sender witness, an amount above `balanceABefore` fails with "Can't transfer more then you have" |
| `TokenLedger.StaleReceiverWitnessRejected` | src/Token.ts:73-74 | a receiver witness taken against the original root is rejected with 'Wrong witness for balanceB' whenever the amount is non-zero, whether or not the two leaves coincide |
| `TokenLedger.SimpleTransferScenario` | test/Token.test.ts:59-108 | mint 1000 to Alice on a fresh ledger, then transfer 100 to Bob with witnesses from a mirrored reference map: both succeed, Alice holds 900, Bob 100, the supply is 1000 and the stored root equals the reference root |
| `TokenLedger.AsWrittenCreditDoublesReceiver` | src/Token.ts:76-79 | as written, Bob holding 100 receives 50 from Alice holding 100 and ends with 250; the two balances then sum to 300, not 200 |
| `TokenLedger.CorrectedChainedTransfer` | src/Token.ts:76-79 | the corrected update has the same success conditions and failures, and credits the receiver exactly `bBefore + amount` |
| `TokenLedger.CorrectedTransferConserves` | src/Token.ts:76-79 | with the corrected credit and distinct leaves, the sender leaf does not grow, and the sum of the two leaves is unchanged modulo P |
| `TokenLedger.Token.Init` | src/Token.ts:18-22 | `init` sets the supply to 0 and the balances to the empty map's root |
| `TokenLedger.Token.Mint` | src/Token.ts:24-41 | the fields become `ApplyMint`'s state on success, and stay unchanged on failure with the same error |
| `TokenLedger.Token.TransferTo` | src/Token.ts:48-82 | only `balances` may change. It becomes `ApplyTransfer`'s root on success and stays unchanged on failure |
| `ATokenLedger.LastMatch` | src/AToken.ts:37-41 | returns the last position whose id matches, and returns nothing exactly when no position matches |
| `ATokenLedger.Lookup` | src/AToken.ts:33-46 | the lookup fails with a not-found error if and only if no element has the id; otherwise it returns an element with that id and no later element has the id |
| `ATokenLedger.FindElement` | src/AToken.ts:33-46 | the 10-slot loop computes exactly `Lookup`: the last matching element, or failure when none matches |
| `ATokenLedger.UpdateBalanceTree` | src/AToken.ts:116-143 | the update succeeds if and only if: `curState` is recomputed from `balanceAWitness` and `balanceABefore`; `amount <= balanceABefore`; and the receiver witness proves `balanceBBefore` against the post-debit root. The action's parties take no part. The result credits `balanceBBefore + (balanceBBefore + amount)`, debits the sender leaf without wrap-around, and keeps every other leaf |
| `ATokenLedger.UpdateBalanceTreeIgnoresParties` | src/AToken.ts:121-126 | two actions with the same amount settle identically, whoever `from` and `to` are: the sender is never checked |
| `ATokenLedger.ReduceStep` | src/AToken.ts:101-109 | the callback keeps the state's id unchanged. It fails with not-found when no evidence has that id. It succeeds if and only if both the lookup and `updateBalanceTree` on the looked-up evidence succeed, passes an update error on unchanged, and on success carries that update's root |
| `ATokenLedger.ReduceFold` | src/AToken.ts:98-112 | the in-order fold returns the same id it started with, and an empty fold returns the initial state |
| `ATokenLedger.ReduceBatch` | src/AToken.ts:94-112 | more than 10 pending actions fail. The fold starts from id 0 and the stored root, and a successful result still carries id 0 |
| `ATokenLedger.ReduceUsesOneElement` | src/AToken.ts:102-110 | a non-empty fold equals settling every action against one evidence record: the last one whose id is the initial id |
| `ATokenLedger.ReduceFoldAppend` | src/AToken.ts:98-112 | folding `a + b` is folding `a` and then folding `b` from where `a` ended; a failure in `a` is the result |
| `ATokenLedger.ReduceFailsIfAnyStepFails` | src/AToken.ts:98-112 | if any step of the batch fails, the whole fold fails |
| `ATokenLedger.OneRealTransferPerBatch` | src/AToken.ts:102-107 | with distinct sender and receiver leaves in the shared record, a batch of two or more actions whose first amount is non-zero always fails |
| `ATokenLedger.EmptyLedgerBatchFails` | src/AToken.ts:121-130 | on the empty map, any batch whose first action has a non-zero amount fails, deferred mints included |
| `ATokenLedger.AToken.Init` | src/AToken.ts:66-70 | `init` sets the supply to 0, the balances to the empty map's root, and leaves nothing pending |
| `ATokenLedger.AToken.Mint` | src/AToken.ts:72-80 | appends exactly one action, from the empty public key to `address`. Balances and supply are unchanged |
| `ATokenLedger.AToken.TransferTo` | src/AToken.ts:82-92 | appends exactly one action from the signed sender. Balances and supply are unchanged, and nothing is checked |
| `ATokenLedger.AToken.Reduce` | src/AToken.ts:94-113 | the loop computes exactly `ReduceBatch` of the pending list, the evidence and the stored root. It modifies nothing, so a successful reduce leaves all contract state unchanged |

## Left out

- o1js contract plumbing is not modelled: `@method` compilation, proof generation, `getAndRequireEquals` preconditions and the action-state hash chain. A method reads the current stored fields, and the pending actions are a plain sequence.
- Signature checking (`getAndRequireSignature`) is not modelled: the signed sender is a trusted input.
- Poseidon and Merkle hashing are not modelled as hashes. A root is the canonical map itself and a key is a digest's preimage, so collision resistance holds by construction. The fixed tree depth and the reduction of keys to field elements are not modelled.
- The reducer's per-transaction grouping of actions into lists is not modelled. Each dispatch is one list of one action, so the 10-list bound of `maxUpdatesWithActions` is a bound on pending actions.
- The reducer's circuit padding is not modelled. In the circuit, the callback also runs on dummy actions for the unused slots up to 10, and its assertions apply there. The model folds only the real actions.
- When a batch both exceeds the bound and has a failing step, the model reports the bound first. Either way the transaction aborts.
- The `active` field of an evidence record is carried but never read, as in the code.

## Findings

| source | as written | input that shows it | evidently intended | confidence | as-written member | corrected member |
|---|---|---|---|---|---|---|
| src/Token.ts:76-79 | the receiver leaf is set to `balanceBBefore + (balanceBBefore + transferAmount)`; the same code is at src/AToken.ts:138-141 | Alice 100, Bob 100, transfer 50: Bob ends with 250 and the two sum to 300 | the receiver leaf becomes `balanceBBefore + transferAmount`, so a transfer conserves the sum of the two balances | high (not executed) | `TokenLedger.AsWrittenCreditDoublesReceiver` | `TokenLedger.CorrectedTransferConserves` |

Both ledger classes keep the code as written, because they model the deployed
contracts. `TokenLedger.CorrectedChainedTransfer` is the corrected update.
`TokenLedger.CorrectedTransferConserves` proves the intended conservation
property for it. The two agree except when the receiver starts with a non-zero
balance, as in the test's transfer to a fresh Bob.
