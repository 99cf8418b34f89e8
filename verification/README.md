# Hathor headless wallet: a model and its proofs

A Dafny 4.11 project that models the parts of the headless wallet with the most state and
arithmetic, and proves what they guarantee over all inputs and all runs. `dafny verify dfyconfig.toml`
checks everything.

* **The parimutuel betting contract** (`BetLedger`, `BetTheorems`, `BetOrder`, `BetHistory`, `BetContract`). Four
  redundant ledgers, an oracle that freezes the result, winners that draw shares rounded down one by one.
  `BetLedger` is the contract as a state machine on values, with runs of arbitrary calls; a call that raises is
  rolled back. `BetHistory` says what the result, the stakes and the payouts are from the list of calls alone.
  `BetContract.Bet` is the object whose methods update the fields; each is proved to move the whole snapshot as
  `BetLedger` says, errors included. The runtime's balance of the contract is an unconstrained
  integer, so that it never being negative is a result.
* **Input selection** (`UtxoSelection`, `OutputNeeds`, `PrepareFunds`). The selector is proved optimal in the number of
  inputs, complete, and tight in its change; preparing a transaction is characterised token by token.
* **The send lock** (`LockTimers`, `LockObjects`, `SendProtocol`, `SendInputs`, `SendOutcomes`, `SendTimeliness`,
  `SendFailures`).
  The lock with its expiry timers is a state machine over lock calls, unlock calls, timers and time; `LockObjects`
  has the objects that implement it. `SendProtocol` interleaves any number of requests that use the lock, the send
  handlers and `unlockInputs`, one step for each `await`, with requests that set marks without a lock. A run is
  *timely* when no timer fires on a request that has not released its lock. Exclusion holds in timely runs. So does
  the separation of inputs, if nobody takes marks back that a send counts on (`SendInputs`). `SendOutcomes` says where a request ends from its own
  steps alone, and who is kept out by whom from the wallets alone. A run is timely as long
  as all requests are quicker than the timeout (`SendTimeliness`), and after the first step that is not timely the
  next request on that lock gets in (`SendFailures`).
* **HSM keys** (`HsmKeyNames`, `HsmDerivation`). Names of derived keys, and the derivation of the account and
  change keys on a connection that may be lost after any call, resumed any number of times.
* **Configuration reload** (`SortedLists`, `ConfigReload`). When a change is fatal, when it stops the wallets,
  and what comparing lists by sorting and joining them really compares.
* **Signature encoding** (`SignatureDer`). The encoder against an independent reader written from X.690.

`Common` holds the option and outcome datatypes, `MapSums` sums over finite maps.

## Assumptions

* Amounts of deposits, withdrawals and utxos are natural numbers. Names, addresses, token and utxo ids that are
  only compared are abstract types, so the results hold for every representation of them.
* `BetLedger`: a context maps each token to its actions, and asking for the single action of a token with
  several fails; `checksig` is a property of the signed value; a Python `assert` that fails is an error like
  the others.
* `UtxoSelection`, `PrepareFunds`: the wallet is a function from queries to answers, about which nothing is
  assumed unless a lemma says so. The library sort is a stable sort by decreasing amount.
* `LockTimers`: time does not pass a timer that is due, so an expiry callback runs on time; that a lock is held
  no longer than its timeout rests on this. `SendProtocol` does without: there a due timer may fire at any later
  time, or never.
* `SendProtocol`: the library's own choice of inputs skips utxos that are marked as selected; the set of HSM
  wallets does not change during a run; a transaction that fails in mining may or may not have its own marks
  taken back, and any mark may be set or taken back at any time by requests that hold no lock.
* `HsmDerivation`: creating a child key fails, and changes nothing, when its parent is missing or its name is
  taken; temporary keys live as long as the session. `HATHOR_BIP44_CODE` and the hardened offset are constants
  of libraries that are not part of this model; 280 and 2^31 are the values BIP-44 and the wallet's own
  documentation of the path m/44'/280'/0' give them.
* `ConfigReload`: objects are listed in some order that the result does not depend on, and strings are compared
  character by character in code point order, where JavaScript compares UTF-16 units; any total order would do.

## Findings

Properties that hold on less than one might expect, each with its exact condition:

* After a timely run, a lock timer that fires before its holder releases, and nothing else, lets a second request
  into the window (`SendFailures.ExclusionFailsExactly`); it can fire if and only if some request has been in its
  window for the whole timeout (`SendTimeliness.TimelyAsLongAsQuick`). The first one's *first* unlock then frees the
  lock under the second: the release-once flag does not help there (`SendFailures.SuccessorLosesItsLock`), and
  `unlockInputs` has no such flag at all (`SendFailures.UnlockInputsFreesAnyone`).
* A send can pick an input that another send has marked if and only if that mark was taken back, on demand, on
  expiry or by `unlockInputs` (`SendInputs.SharingFailsExactly`).
* If `prepareTxFunds` throws in `/send-tx`, nobody is left to release the lock, and no other step of any handler
  leaves it like that (`SendFailures.StuckExactly`). Every later send on that lock is turned away until the timer
  fires (`SendFailures.StuckUntilTimer`).
* Two roots have a key name in common if and only if one root's name is the other's with the suffix of a derived
  key (`HsmKeyNames.RootsShareName`), which happens for names the creation script accepts
  (`HsmKeyNames.RootNameClash`, `HsmKeyNames.ValidRootsCanClash`). An attempt to derive trusts whatever key
  already has the account or change name (`HsmDerivation.CompletedRightExactly`).
* The derivation of a root can be completed if and only if its account key is there or no permanent key has the name
  of one of the two temporary keys (`HsmDerivation.DerivationResumable`). The creation script accepts both names for
  a root, and then no other root without an account key ever gets one (`HsmDerivation.RootNameBlocks`).
* Sort-and-join comparison takes two lists for the same if and only if the sorted lists fall into the same pieces
  at the separator (`SortedLists.SameJoinedMeansSamePieces`), and that is what an analysis of a configuration
  goes by (`ConfigReload.AnalysisExact`). Without a separator inside an element this is equality up to order, but
  for `[]` and `[""]` (`SortedLists.SameJoinedExactly`); with one, different lists can pass for the same
  (`SortedLists.SeparatorConfuses`).
* The signature encoding reads back if and only if both numbers are non-empty and the body has at most 127
  octets (`SignatureDer.SignatureRoundTrip`); a strict reader takes it if and only if, besides, neither number
  brings a zero octet that it does not need (`SignatureDer.StrictRoundTrip`).

Two corners of the helpers have conditions of their own, but no route reaches them. The selector takes one input
for a sum of zero, so that its answer uses the fewest inputs if and only if the sum is positive
(`UtxoSelection.GetUtxosToFillTx`); and with a wallet that adds up correctly, filling a query ends in a
TypeError if and only if a token needs nothing and the query finds no utxo of it
(`PrepareFunds.FillableIsReaching`). Both routes that prepare funds refuse output values below 1
(src/routes/wallet/wallet.routes.js:215-219, src/schemas.js:257-261), so every token needs something
(`PrepareFunds.RouteOutputsNeedFunds`).

## Model

| member | source | states |
|---|---|---|
| BetLedger.ReachableInvariant | __tests__/integration/configuration/blueprints/bet.py:157-183 | In every state a new contract can reach, `bets_total`, `address_details` and `total` are exactly what `bets_address` determines, on the same domain; nobody has withdrawn before the result or more than their winnings; the balance is the total less the withdrawals |
| BetLedger.AddStakeKeepsLedgers | __tests__/integration/configuration/blueprints/bet.py:165-183 | One accepted bet keeps the four ledgers in agreement |
| BetLedger.StepKeepsInvariant | __tests__/integration/configuration/blueprints/bet.py:157-216 | Every call, accepted or rolled back, keeps ledger agreement and bounded payouts |
| BetTheorems.Solvency | __tests__/integration/configuration/blueprints/bet.py:194-229 | In every run the balance is never negative, each address has withdrawn at most its winner amount, and all withdrawals stay below the sum of the winner amounts, which stays below the total |
| BetTheorems.DustBound | __tests__/integration/configuration/blueprints/bet.py:219-229 | When the winning result has stakes, the floored shares lose in all at least nothing and less than one unit for each winner |
| BetTheorems.PotAfterPayout | __tests__/integration/configuration/blueprints/bet.py:194-229 | Once nobody can draw any more, the balance is the total less all winner amounts, which is less than one unit for each winner if anything was staked on the result |
| BetTheorems.WinnersPaidInProportion | __tests__/integration/configuration/blueprints/bet.py:219-229 | In every reachable state with a result, what an address has won is its stake on the result times the total over all stakes on it, rounded down, and nothing if there are none |
| BetHistory.HistoryTellsStakes | __tests__/integration/configuration/blueprints/bet.py:157-183 | In every run the stakes are exactly those of the single deposits of the token, made in time, before the first result the oracle signed |
| BetHistory.HistoryTellsPayouts | __tests__/integration/configuration/blueprints/bet.py:186-209 | In every run the result is the first one the oracle signed, and an address has been paid each withdrawal after it that still fitted under its winnings |
| BetHistory.OnlyTheOracleDecides | __tests__/integration/configuration/blueprints/bet.py:186-191 | There is a result if and only if the oracle signed one, it is one of those, and without it nobody has withdrawn |
| BetHistory.BetErrors | __tests__/integration/configuration/blueprints/bet.py:141-164 | When a bet is accepted, and which error it raises otherwise, as conditions on the actions, the time and the result |
| BetHistory.DrawErrors | __tests__/integration/configuration/blueprints/bet.py:194-205 | When a withdrawal is accepted, and which error it raises otherwise, the maximum in it included |
| BetTheorems.SharesBounds | __tests__/integration/configuration/blueprints/bet.py:224-229 | The sum of separately floored shares, against the exact share of any set of stakes |
| BetTheorems.WinnersPaidFromPot | __tests__/integration/configuration/blueprints/bet.py:219-229 | All winner amounts fit in the total, with the dust bound if something was staked on the result and nothing to pay otherwise |
| BetTheorems.ResultFreezesLedgers | __tests__/integration/configuration/blueprints/bet.py:131-139 | After the result is set no run of calls changes it, a bet ledger, or anybody's winner amount |
| BetTheorems.WinnersRecoverStake | __tests__/integration/configuration/blueprints/bet.py:219-229 | Whoever bet on the result is owed at least the stake, now and after any later calls |
| BetOrder.AnyOrderPayout | __tests__/integration/configuration/blueprints/bet.py:194-216 | A list of withdrawals, in any order and any split, is accepted as a whole if and only if no address asks for more than its maximum; afterwards every maximum has gone down by just what its address drew |
| BetOrder.OthersKeepMaximum | __tests__/integration/configuration/blueprints/bet.py:212-216 | Calls of others after the result never change what an address can still draw |
| BetOrder.BetsConfluent | __tests__/integration/configuration/blueprints/bet.py:157-183 | Two lists of accepted bets lead to the same state if and only if they stake the same amounts on the same keys, whatever their order or split |
| BetOrder.StakesDetermineState | __tests__/integration/configuration/blueprints/bet.py:83-96 | `bets_address` alone determines the other three ledgers and the balance |
| BetContract.Bet.Initialize | __tests__/integration/configuration/blueprints/bet.py:111-124 | Fails on any action; otherwise the new object is the initial state |
| BetContract.Bet.PlaceBet | __tests__/integration/configuration/blueprints/bet.py:157-183 | The object moves as the state machine does, or raises its error and stays as it was |
| BetContract.Bet.SetResult | __tests__/integration/configuration/blueprints/bet.py:186-191 | The same for the oracle's call |
| BetContract.Bet.Withdraw | __tests__/integration/configuration/blueprints/bet.py:194-209 | The same for a withdrawal, with the caller's maximum in the error |
| BetContract.Bet.GetMaxWithdrawal | __tests__/integration/configuration/blueprints/bet.py:212-216 | The view reports the maximum the state machine bounds withdrawals by: the address's proportional share less what it has withdrawn |
| BetContract.Bet.GetWinnerAmount | __tests__/integration/configuration/blueprints/bet.py:219-229 | The view reports the winner amount, which is the stake's proportional share of the total rounded down, or that there is no result |
| UtxoSelection.GetUtxosToFillTx | src/helpers/tx.helper.js:58-106 | When the selection is `null`, when it throws, and otherwise: it covers the sum from the available utxos; it uses the fewest inputs of all selections that do if and only if the sum is positive; it is the smallest sufficient utxo if one exceeds the sum, else largest first with nothing superfluous and change below the last utxo taken |
| UtxoSelection.FirstOnesAmountToMost | src/helpers/tx.helper.js:72-77 | Of a list sorted by decreasing amount no sub-multiset is worth more than equally many first elements |
| UtxoSelection.PrefixFewestInputs | src/helpers/tx.helper.js:94-105 | Taking the largest first until the sum is reached is optimal in the number of inputs |
| UtxoSelection.PrefixLargestFirst | src/helpers/tx.helper.js:94-105 | No proper prefix reaches the sum, the overshoot is below the last utxo taken, and nothing left is larger than anything taken |
| UtxoSelection.TakeOne | src/helpers/tx.helper.js:79-93 | The single-utxo branch returns the smallest amount that is at least the sum |
| UtxoSelection.TakeMany | src/helpers/tx.helper.js:94-105 | The loop returns the shortest prefix that reaches the sum, or nothing exactly when the whole list does not reach it |
| UtxoSelection.FindFirstSmaller | src/helpers/tx.helper.js:85 | The first index below the sum, or -1 when there is none |
| PrepareFunds.PrepareTxFunds | src/helpers/tx.helper.js:132-212 | Outputs keep their order, a missing token becomes the default and a data value 1, and nothing else of them changes; without a query the inputs pass through; with one the answer fills the query as below, for the outputs' values themselves: it succeeds if and only if every output's token is enough, the inputs include available utxos of the token worth the sum of its outputs and nothing but available utxos, and a failure names the token of the first output that is short |
| PrepareFunds.FillQuery | src/helpers/tx.helper.js:174-200 | Succeeds if and only if every token can be filled; the inputs then are one selector's answer for each token, cover its outputs, do not repeat if the wallet lists each utxo once, and are the fewest that cover every token if each needs something; a failure names a token that cannot be filled |
| PrepareFunds.FillInputs | src/helpers/tx.helper.js:181-200 | Stops at the first token that cannot be filled, with the error that token causes |
| PrepareFunds.CollectTokens | src/helpers/tx.helper.js:149-172 | Every output gets its default token and a data output the value 1, also when an object is listed twice; the map holds the sum of each token's output values, in order of first appearance |
| PrepareFunds.CountOutput | src/helpers/tx.helper.js:157-170 | Counting one output adds its value to its token's entry, entered last if it is new, which keeps the map exact for the outputs seen so far |
| OutputNeeds.TokensExact | src/helpers/tx.helper.js:157-160 | A token is in the map if and only if some output has it |
| OutputNeeds.OrderOfAppearance | src/helpers/tx.helper.js:157-160 | The tokens before one in the map are exactly those of the outputs before its first output |
| OutputNeeds.NeededIsSum | src/helpers/tx.helper.js:169-170 | What a token needs is the sum of the values of its outputs |
| OutputNeeds.NeededAdds | src/helpers/tx.helper.js:169-170 | What a token needs for two lists of outputs is what it needs for each, together |
| PrepareFunds.InputsCover | src/helpers/tx.helper.js:188-199 | The inputs chosen are worth, among the utxos of each token, at least what its outputs need |
| PrepareFunds.InputsDistinct | src/helpers/tx.helper.js:181-200 | No input repeats, within a token or across tokens |
| PrepareFunds.FewestInputsOverall | src/helpers/tx.helper.js:181-200 | If every token needs something, no other way of covering them all takes fewer inputs |
| PrepareFunds.FillableIsReaching | src/helpers/tx.helper.js:64-79 | With a wallet that adds up correctly a token can be filled if and only if its utxos reach the sum, or exist at all when the sum is zero; only then, and with no utxo, does filling it throw |
| PrepareFunds.RouteOutputsNeedFunds | src/routes/wallet/wallet.routes.js:215-219 | With outputs as the routes let them through, the tokens listed are those that need something |
| LockTimers.TimerDiscipline | src/lock.js:39-69 | In every run a key is held exactly while one live timer exists for it, that timer was armed by the acquisition holding the key, and no key is held longer than its timeout |
| LockTimers.FireEndsItsAcquisition | src/lock.js:64-66 | A timer that fires ends the acquisition that armed it, and no other |
| LockTimers.NextKeepsDiscipline | src/lock.js:39-69 | Every lock call, unlock call, timer and passing of time keeps the timer discipline |
| LockObjects.Lock.constructor | src/lock.js:23-35 | A new lock holds nothing; its tables start with the names of the lock types, not with their numbers |
| LockObjects.Lock.TryLock | src/lock.js:52-69 | Succeeds if and only if the key is not held, and moves the object as the state machine does |
| LockObjects.Lock.Unlock | src/lock.js:39-45 | Moves the object as the state machine does |
| LockObjects.Lock.OnTimeout | src/lock.js:64-66 | A timer's callback moves the object as the state machine does |
| LockObjects.GlobalLock.Get | src/lock.js:92-97 | Hands out one lock for each wallet, made when first asked for, never shared with another wallet |
| LockObjects.GlobalLock.Delete | src/lock.js:86-90 | Forgets that wallet's lock only |
| LockObjects.GlobalLock.GetWalletLock | src/helpers/lock.helper.js:15-21 | All HSM wallets share the HSM lock, every other wallet has its own |
| LockObjects.LockSendTx | src/helpers/lock.helper.js:30-47 | Returns nothing and changes no lock exactly when the wallet's lock is held; otherwise the lock is held and the returned function has not been used |
| LockObjects.SendTxUnlock.Call | src/helpers/lock.helper.js:38-44 | The first call releases the lock, every later call leaves it alone |
| SendProtocol.MutualExclusion | src/helpers/lock.helper.js:30-47 | In timely runs at most one request is between acquiring and releasing a given lock, and the lock is held for it |
| SendProtocol.OthersKeepMyLock | src/helpers/tx.helper.js:272-284 | No step of another request, late second unlocks included, ends a request's hold of its lock |
| SendProtocol.LateUnlockDoesNothing | src/controllers/wallet/wallet.controller.js:288-307 | In every run, timely or not, once a request has left its window its unlock changes nothing, whoever holds the lock by then |
| SendOutcomes.OutcomeExactly | src/controllers/wallet/wallet.controller.js:261-308 | In every run a send has gone through if and only if all the steps its handler takes succeeded in their order, has failed if and only if its last step failed, and is lost if and only if `prepareTxFunds` threw |
| SendOutcomes.InputsArePicked | src/helpers/tx.helper.js:272-284 | In every run the inputs of a send are all the utxos it has picked |
| SendOutcomes.SentHoldsNothing | src/helpers/tx.helper.js:272-284 | A send that went through has released its lock, and keeps its inputs marked unless the marks are taken back |
| SendOutcomes.RivalsTakeTurns | src/helpers/lock.helper.js:15-21 | In timely runs requests of one wallet, or of any two HSM wallets, are never in their windows together |
| SendOutcomes.TurnedAwayByRivals | src/helpers/lock.helper.js:30-36 | After a timely run a request is turned away if such a rival is in its window, and only if one is there or has leaked the lock |
| SendInputs.MarksKeepOthersOff | src/helpers/tx.helper.js:257-262 | A utxo marked on demand cannot be picked next, one whose mark is taken back can |
| SendTimeliness.QuickRunsAreTimely | src/lock.js:59-66 | If every request leaves its window less than two minutes after its start, no timer fires on a request in its window |
| SendTimeliness.TimelyAsLongAsQuick | src/lock.js:59-66 | After a timely run a timer can fire on a request in its window if and only if some request has been there for the whole timeout |
| SendTimeliness.NextKeepsDates | src/lock.js:52-69 | Every timely step keeps the timer discipline of every lock, and the live timer of a request's lock runs from that request's start |
| SendProtocol.BusyMeansHeld | src/controllers/wallet/wallet.controller.js:480-490 | A lock is busy only while some request is in its window or was lost to a throwing `prepareTxFunds` |
| SendInputs.NoSharedInputs | src/helpers/tx.helper.js:272-284 | In timely runs in which nobody takes back marks of a send that counts on them, two sends on one wallet that have not failed never share an input |
| SendInputs.SharingFailsExactly | src/controllers/wallet/atomic-swap/tx-proposal.controller.js:403-432 | After such a run and one more step, a send can pick an input of another if and only if the step took back the mark of an input of a send on the same wallet |
| SendInputs.NextKeepsInputs | src/helpers/tx.helper.js:257-284 | Every step that takes back no such mark keeps marked inputs marked and used by one send only |
| SendFailures.ExclusionFailsExactly | src/lock.js:59-66 | After a timely run, a step and then a new request put two requests into the window of one lock if and only if the step is that lock's timer firing on a request in its window |
| SendFailures.HoldEndsExactly | src/lock.js:59-66 | After a timely run, a step leaves a request in its window without its lock if and only if it is such a timer |
| SendFailures.SuccessorLosesItsLock | src/helpers/lock.helper.js:38-44 | After that any step by which the expired request leaves its window frees the lock while its successor is in the window |
| SendFailures.UnlockInputsFreesAnyone | src/controllers/wallet/atomic-swap/tx-proposal.controller.js:429-431 | In any state the `finally` of `unlockInputs` frees the lock under another request in its window |
| SendFailures.PrematureTimerLetsTwoIn | src/helpers/lock.helper.js:38-44 | A run on which this happens |
| SendFailures.StuckExactly | src/controllers/wallet/wallet.controller.js:480-485 | After a timely run, a step leaves a held lock with nobody to release it if and only if it is `prepareTxFunds` throwing in the request that holds it |
| SendFailures.OnlyFundsThrewSticks | src/controllers/wallet/wallet.controller.js:480-485 | In any state, timely or not, nothing but a throwing `prepareTxFunds` of that lock leaves it stuck |
| SendFailures.StuckUntilTimer | src/controllers/wallet/wallet.controller.js:466-485 | From then on every send on that lock is turned away until its timer fires |
| SendProtocol.NextKeepsInv | src/controllers/wallet/wallet.controller.js:261-308 | Every timely step of every handler keeps exclusion and the account of releases |
| SendProtocol.HoldStays | src/controllers/wallet/wallet.controller.js:301-307 | Whatever step another request takes, leaving its window included, a request in its window stays there and keeps its lock |
| SendProtocol.OwnAfter | src/helpers/tx.helper.js:272-284 | A step of a request in its window leaves the locks as they are, or ends the window, frees its own lock and sets the flag |
| HsmKeyNames.AddressNamesInjective | src/services/hsm.service.js:45-55 | No two addresses of any two roots have the same key name |
| HsmKeyNames.LevelNamesApart | src/services/hsm.service.js:37-58 | An address key name is no derived level name of any root, and level names determine root and level |
| HsmKeyNames.NamesFit | scripts/create-hsm-wallet.js:79-90 | Every name made from a valid root and an index below 2^31 has at most 32 characters |
| HsmKeyNames.DerivedNamesExtend | src/services/hsm.service.js:38-58 | The names derived from a root, at any level and index below 2^31, are exactly its name with the suffix of a derived key |
| HsmKeyNames.RootsShareName | src/services/hsm.service.js:38-58 | Two different roots have a name in common, at whatever levels, if and only if one root's name is a derived name of the other |
| HsmKeyNames.RootNameClash | scripts/create-hsm-wallet.js:79-90 | A name is a derived name of some valid root if and only if a valid root's name stands before the suffix of a derived key; if the name is valid itself, it is enough that three characters or more stand before the suffix |
| HsmKeyNames.ValidRootsCanClash | scripts/create-hsm-wallet.js:79-90 | Two names the creation script accepts, one of which is the other's account key name |
| HsmDerivation.DerivationResumable | src/services/hsm.service.js:385-458 | If what stood under the account and change names was right, then after any number of attempts broken off anywhere it still is, and a completed one has bound the account name `_htrAcct` to m/44'/280'/0' and the change name `_htrChange0` to m/44'/280'/0'/0 and left every other permanent key alone; with six calls it completes if and only if the account key was there or no permanent key had a temporary key's name |
| HsmDerivation.RootNameBlocks | src/services/hsm.service.js:403-428 | On a device with a root named like a temporary key, a name the creation script accepts, the derivation of a root without an account key never completes |
| HsmDerivation.AttemptCompletes | src/services/hsm.service.js:385-458 | An attempt completes if and only if the connection lasts and the account key exists or can be derived; it overwrites nothing |
| HsmDerivation.AttemptKeepsRight | src/services/hsm.service.js:385-458 | An attempt, broken off or not, keeps correct bindings correct |
| HsmDerivation.CompletedRightExactly | src/services/hsm.service.js:393-457 | A completed attempt is correct if and only if no wrong key stood under its names before |
| HsmDerivation.Connection.DeriveMainKeysFromRoot | src/services/hsm.service.js:385-458 | The method on the device object makes exactly the calls of one attempt, errors included |
| HsmDerivation.Connection.HsmKeyExists | src/services/hsm.service.js:356-372 | Whether a permanent or temporary key has the name, or the error of a lost connection |
| HsmDerivation.HsmSession.GetAddressKeyName | src/services/hsm.service.js:103-145 | The cache only ever holds the right name for an index; a name is good when the device makes the key or has it already, and an error leaves the cache as it was; a key made for it is the child of the change key at that index |
| SortedLists.SameJoinedMeansSamePieces | src/settings.js:170-171 | For all lists, sort-and-join equality holds if and only if the sorted lists have the same pieces between separators |
| SortedLists.PiecesJoin | src/settings.js:170-171 | The pieces of a list are free of the separator and join to the same string as the list |
| SortedLists.SameJoinedExactly | src/settings.js:170-171 | Sort-and-join equality of lists without the separator is multiset equality, but for the empty list and the list of one empty string |
| SortedLists.SeparatorConfuses | src/settings.js:204-205 | With the separator inside an element, different lists compare equal |
| SortedLists.SortedUnique | src/settings.js:170-171 | Sorting is a canonical form of a multiset of strings |
| SortedLists.JoinInjective | src/settings.js:170-171 | Joining loses nothing of a list without the separator, but for that one pair |
| ConfigReload.AnalizeConfig | src/settings.js:148-264 | The analysis answers as the next two rows say, and both configurations keep their contents up to the order of lists |
| ConfigReload.AnalysisExact | src/settings.js:164-264 | Whatever the lists hold: a change of a fixed field or of the plugins is fatal at once; otherwise it throws if and only if there were seeds and there are no new ones, a bad new seed is fatal or makes it throw, and else no new seed is bad and it stops the wallets if and only if an old seed, its multisig setup or one of five fields changed, and configures the library again if and only if one of five fields changed, where a list changed if its pieces, once sorted, did |
| ConfigReload.AnalysisOfCleanLists | src/settings.js:164-252 | The same for lists of non-empty strings without the separator, where a list changed if it is not a reordering |
| ConfigReload.SeedsAffected | src/settings.js:185-215 | The loop finds an affected wallet if and only if there is one, in whatever order it visits the seeds |
| ConfigReload.CheckSeeds | src/settings.js:216-234 | The loop passes only if all new seeds are valid |
| SignatureDer.SignatureRoundTrip | src/services/fireblocks.service.js:29-51 | Reading the output as a SEQUENCE of two INTEGERs gives back both unsigned values if and only if both are non-empty and the body has at most 127 octets, and reads nothing else otherwise; each number takes its octets and one more exactly if its first bit is set |
| SignatureDer.StrictRoundTrip | src/services/fireblocks.service.js:33-51 | A reader that insists on minimal contents octets (section 8.3.2 of X.690) accepts the output if and only if, besides, neither number has a zero octet in front that it does not need |
| SignatureDer.EcdsaRoundTrip | src/services/fireblocks.service.js:29-51 | For numbers of 1 to 32 octets the reading succeeds, with an exact short-form length |
| SignatureDer.EncodingsApart | src/services/fireblocks.service.js:43-50 | Signatures with different values are encoded differently |
| SignatureDer.PadReadsBack | src/services/fireblocks.service.js:33-37 | The zero octet in front makes the two's complement reading the unsigned value |

## Left out

- GetUtxosToFillTx: the wallet's array is sorted and popped as a sequence of its own; that the wallet could see its answer reordered is not modelled.
- PrepareTxFunds: the wallet answers each query from the same state; utxos that appear or vanish between two queries are not modelled, nor is a query that throws.
- SendProtocol: the handlers are a state machine over their awaits, not methods.
- NoSharedInputs: explicit inputs of the caller, which the library does not check against marks, are not picks of the model.
- SendProtocol: wallets that stop, restart or change to an HSM wallet while sends run.
- HsmDerivation: version bytes of derived keys, delays after device errors, and what the device signs.
- ConfigReload: fields that are `null` rather than missing, and applying the action that was decided.
- SignatureDer: hexadecimal parsing of the two numbers.
- Signing transactions through Fireblocks or the HSM, with its bookkeeping of indices and nano contract callers.
- The REST routes, validation schemas, middleware, logging, plugins, health checks and HTTP clients: no deep state.
- The wallet library itself: balances, mining, parsing and storage appear only as the answers assumed above.
