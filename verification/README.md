# ZK lottery contract: a Dafny model

This project models the verification core of the ZK lottery smart contract in
`src/ZKLottoGame.ts` and proves properties of it:

- **Batch root updater** (`assertRootUpdateValid`, module `RootUpdate`): starting from the
  store's root, each update's membership witness must recompute the running root from the
  old leaf digest (`0` for an empty leaf, else the hash of the leaf); the same witness on the
  new leaf digest gives the next running root. At the end the server's signature over
  `[newRoot, newRootNumber]` must verify and the root number must strictly increase.
- **Membership witnesses** (module `Merkle`): the root a witness recomputes by hashing the
  running digest with one sibling per level, ordered by the `isLeft` flag; the root of the
  empty tree of height 8.
- **Entry commitment** (`LottoNumbers.hash`, module `Lotto`): `H([gmWeek, H(numbers)])` over
  six numbers.
- **Game state machine** (`ZKLottoGame`, module `Game`): `init`, `startLottoWeek`,
  `endLottoWeek` and the checks of `play`, as pure transitions returning `Option<GameState>`;
  `None` is a failed assertion, which aborts the call and leaves the state as it was.
- **Call sequences** (module `Trace`): what sequences of calls can reach from deployment.

The Poseidon hash, the signature check and the key-to-fields conversion are not defined
here: they are the fields of a `Crypto` record passed to every member that needs them. No
lemma assumes the hash is injective (no function from sequences of field elements to one
field element can be). Instead the binding lemmas return the two inputs of a hash collision
whenever binding fails. The network timestamp is the parameter `now`.

Field elements are naturals below the Pallas base-field modulus, and the week counter's
`add` wraps around it. `UInt64.add` fails on overflow, so the time arithmetic returns
`None` when a sum does not fit in 64 bits. The invariant `week * (START_GAP + 1) <= timeStart`
holds because each opening comes more than a day after the previous one, and `timeStart` is
below 2^64. So the week never wraps, and every opening advances it by exactly one.

What the contract does not check or store:
- `play` does not compare the entry's `gmWeek` with the open week.
- `play` does not check that the clock is inside the week's window.
- `play` stores nothing. Its Merkle insertion is commented out.
- `startLottoWeek` requires the clock to be strictly more than a day past the previous start.

## Model

| member | source | states |
|---|---|---|
| Primitives.FieldAdd | src/ZKLottoGame.ts:238 | field addition of the week counter: the exact sum below the modulus, the sum minus the modulus otherwise |
| Merkle.ComputeRoot | src/ZKLottoGame.ts:66-74 | the level-by-level climb of a witness computes the root that the witness defines for the leaf digest |
| Merkle.RootBinding | src/ZKLottoGame.ts:66-74 | two leaf digests that climb the same path to the same root are equal, or the climb exhibits a hash collision |
| Merkle.EmptyRoot | src/ZKLottoGame.ts:217 | the root of a fresh tree of the given height: the empty subtree one level below the height, built from the sentinel 0 |
| Merkle.EmptyWitnessReachesEmptyRoot | src/ZKLottoGame.ts:217-218 | in the empty height-8 tree, any leaf's witness recomputes the empty tree's root from the empty sentinel 0 |
| RootUpdate.LeafDigest | src/ZKLottoGame.ts:65-73 | a leaf's digest: the sentinel 0 for an empty leaf, otherwise the hash of the leaf's fields |
| RootUpdate.ApplyUpdates | src/ZKLottoGame.ts:59-75 | an accepted fold yields the old root for an empty batch, and otherwise the root the last update's witness gives its new leaf |
| RootUpdate.ApplyUpdatesCharacterised | src/ZKLottoGame.ts:59-75 | the fold succeeds exactly when every update's witness maps its old leaf to the running root left by the updates before it; it then yields the final running root |
| RootUpdate.AssertRootUpdateValid | src/ZKLottoGame.ts:49-86 | a returned root is signed by the server together with the new root number, the number increased, and the root is the fold's result |
| RootUpdate.RootUpdateAccepted | src/ZKLottoGame.ts:49-86 | the updater accepts exactly when every update starts from its running root, the signature covers the final root and new number, and the number strictly increases; it returns the final running root |
| RootUpdate.EmptyBatch | src/ZKLottoGame.ts:59-85 | an empty batch returns the unchanged root, and only when the signature and the number increase check out |
| RootUpdate.AtomicRejection | src/ZKLottoGame.ts:64-66 | one update whose witness does not map its old leaf to the running root rejects the whole batch |
| RootUpdate.StaleNumberRejected | src/ZKLottoGame.ts:83 | a new root number not above the current one is rejected whatever the batch |
| RootUpdate.BatchesCompose | src/ZKLottoGame.ts:59-75 | the fold of a concatenated batch is the fold of its second part started from the result of its first part |
| RootUpdate.InsertedLeafRecovered | src/ZKLottoGame.ts:68-77 | after an accepted batch each update's new leaf recomputes the root the next update starts from, the last update's new leaf recomputes the returned root, and any digest the last witness maps to it is the last new leaf's digest unless the hash collides |
| RootUpdate.CheckRootUpdate | src/ZKLottoGame.ts:49-86 | the loop that rejects at the first bad update accepts exactly the batches the fold accepts and returns the same root |
| Lotto.Commit | src/ZKLottoGame.ts:175-178 | an entry's commitment: the hash of the week followed by the hash of the six numbers |
| Lotto.CommitmentBinding | src/ZKLottoGame.ts:175-178 | two different entries with equal commitments yield a hash collision |
| Lotto.WeekBinding | src/ZKLottoGame.ts:175-178 | the same six numbers committed for two different weeks give different digests unless the hash collides |
| Game.Init | src/ZKLottoGame.ts:209-219 | the deployed state has no open week, week and start time zero, the end time set to the deployment time, the zero board, zero winning numbers and commitment, an empty history and the six-day duration; it satisfies the game invariant, holds the empty height-8 tree's root, and can open its first week exactly when the clock is past one day and the window end fits in 64 bits |
| Game.StartWeek | src/ZKLottoGame.ts:221-255 | opening succeeds exactly when no week is open, the clock is more than a day past the last start and the new end fits; it opens week+1 over [now, now + duration], records it on the board, and changes nothing else |
| Game.EndWeek | src/ZKLottoGame.ts:267-300 | closing succeeds exactly when the window is over, a week is open and the draw names that week; it closes the week, stores the draw and its commitment, appends the draw to the history and keeps week, window and board |
| Game.EndWeekAsWritten | src/ZKLottoGame.ts:267-300 | the closing as written accepts the same calls as the corrected one and has the same effect (closed week, stored draw and commitment, unchanged week, window and board), except that the stored history stays unchanged |
| Game.Play | src/ZKLottoGame.ts:308-322 | a play passes exactly when it names the current week, a week is open and the signature covers the key's fields followed by the entry's commitment; the state does not change |
| Game.WeekBelowModulus | src/ZKLottoGame.ts:236-239 | in every reachable state adding one to the week does not wrap around the field |
| Game.StartWeekPreservesInvariant | src/ZKLottoGame.ts:221-255 | opening a week keeps the game invariant and advances the week by exactly one |
| Game.EndWeekPreservesInvariant | src/ZKLottoGame.ts:267-300 | closing a week keeps the game invariant |
| Game.AsWrittenLosesDraw | src/ZKLottoGame.ts:288-290 | with the closing as written, opening and closing the first week leaves a closed week 1 with an empty history, breaking the invariant |
| Game.StartWeekCachedReads | src/ZKLottoGame.ts:224-254 | the opening if reads after a write return the pre-call value: same guard with the end computed from the previous start; on every accepted call it opens week+1 at `now` and keeps duration, draw, history, commitment and store, but the end is the previous start + duration and the board holds the previous start, end and status |
| Game.CachedReadsCloseAtOnce | src/ZKLottoGame.ts:226-228 | with cached reads, a first week opened at any time t >= 518400 can be closed at t itself |
| Game.WeekCannotCloseEarly | src/ZKLottoGame.ts:227-229 | a week opened at `now` cannot be closed before `now + duration` |
| Game.NoSecondStartWithoutEnd | src/ZKLottoGame.ts:231-233 | a second opening without a closing in between fails |
| Trace.RunAccounting | src/ZKLottoGame.ts:221-300 | an accepted call sequence keeps the invariant, advances the week by its number of openings and appends exactly its draws to the history |
| Trace.FromDeployment | src/ZKLottoGame.ts:209-300 | from deployment the week equals the number of openings, the history is the draws in order with the i-th draw for week i+1, and closings equal openings when no week is open and are one fewer while one is |
| Trace.StepAccounting | src/ZKLottoGame.ts:221-322 | one accepted call keeps the invariant, adds one to the week exactly when it opens a week, and appends its draw exactly when it closes one |

## Findings

| source | as written | input that shows it | evidently intended | confidence | as-written member | corrected member |
|---|---|---|---|---|---|---|
| src/ZKLottoGame.ts:289-290 | the draw is pushed onto the fetched copy of `LottoWinHistory`, which is never set back | deploy, open week 1, close it after its window with a draw for week 1: week 1 is closed and the stored history is still empty | the history gains the week's draw, one entry per closed week | high; not executed | Game.EndWeekAsWritten | Game.EndWeek |
| src/ZKLottoGame.ts:226-228 | the new end time is read back with `currentGameTimeStart.get()` after `set(now)`; if that read returns the value from before the call, the end is the previous start + 518400 | deploy, open week 1 at t = 518400: its window ends at 518400, so it can be closed at t itself | the week ends `duration` after its own start, as the comment at line 227 says | medium; not executed; depends on the library returning the pre-call value from a read after a write, which the source does not show | Game.StartWeekCachedReads | Game.StartWeek |

`Game.EndWeekAsWritten` models the closing as written, and `Game.AsWrittenLosesDraw` shows
the lost draw. `Game.EndWeek` is the corrected closing, and `Trace` uses it.
`Game.EndWeekPreservesInvariant` and `Trace.FromDeployment` prove the intended history
property for it.

`Game.StartWeekCachedReads` models the opening under cached reads, and
`Game.CachedReadsCloseAtOnce` shows the week that closes at once. `Game.StartWeek` is the
opening as the method body reads, and the rest of the model uses it. `Game.WeekCannotCloseEarly`
and `Game.StartWeekPreservesInvariant` prove the full window for it.

## Left out

- Poseidon, signature verification and the public key's group encoding are parameters (`Crypto`), not defined.
- The internals of the library's Merkle witness are not part of this model. `calculateRoot` is modelled as the usual climb: one hash of two children per level, ordered by `isLeft`.
- The witness classes of other heights (lines 28-35) are covered by the height parameter of `Merkle.HasHeight`. Only height 8 is used by updates.
- Game.StartWeek: reads a state field after a `set` in the same call as the value just set, which is how the method body reads. If the library instead returns the value from before the call, then `startLottoWeek` behaves as `Game.StartWeekCachedReads`. The reads at lines 228 and 251-253 return the previous start, the previous end and status `true`. The new end is then the previous start + 518400, and the board records the previous start, end and `true`. `Game.StartWeek` does not promise that behaviour (see Findings).
- The constants 86400 and 518400 are taken as written. They are a day and six days only if the network timestamp counts seconds. If it counts milliseconds, the gap and the window are 86.4 s and 518.4 s.
- `ClaimWinning` (lines 342-354) has an empty body.
- The Merkle insertion in `play` (lines 324-338) is commented out. So `storageRoot` is set only by `init`, and the updater is a standalone function the contract never calls.
- The commented-out `Lotto` class (lines 119-165) is dead code, and so are the unused `Optional`/`OptionalBool` helpers (lines 103-115) and the unused `LottoWinHistory` struct (lines 181-187).
- Plumbing is not modelled: `@state` storage, `requireEquals` preconditions and `network.timestamp`. The timestamp is the parameter `now`.
- The order of the assertions inside one method does not matter in the model: any failed assertion aborts the whole call, which is `None`.
- The model has no typed error taxonomy: every failure is `None`, as in the contract, where a failed assertion only aborts.
- Occupied-slot checks, claim match rules and winning-number generation do not appear in the contract.
- No range check on the six numbers appears in the contract. The valid game range is not part of the code.
- `Field.assertLessThan` is modelled as `<` on canonical representatives.
