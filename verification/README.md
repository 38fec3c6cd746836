# Mirror Vault: whole-chain rewrites

This project models, in Dafny, the three routines of the Mirror Vault chain that rewrite or build
whole-chain state, and proves what they guarantee.

1. **Zero-height export** (`chain/app/export.go`). All commissions and rewards are withdrawn,
   slash events and historical rewards are erased, validators start over with what is still
   outstanding donated to the community pool, every delegation is created again at height 0,
   creation and unbonding heights are zeroed, and the jail allow-list is applied.
2. **In-place testnet** (`chain/cmd/mirrorvaultd/cmd/testnet.go`). Four key families of the
   staking store are swept while being iterated over, one validator is put in, its distribution
   records are set, and the accounts to fund are minted to.
3. **Multi-node testnet builder** (`chain/cmd/mirrorvaultd/cmd/testnet_multi_node.go`). Ports,
   peers, stakes, configurations, supply, and the copying of gentx files that makes every node
   compute the same genesis.

## How it is organised

| files | what they hold |
|---|---|
| `Base`, `Sums`, `Text`, `Paths` | addresses, totals of maps, splitting and decimal text, clean paths |
| `Distribution`, `ZeroHeight` | the distribution state as a value, the keeper operations, the export's phases as folds |
| `Invariants`, `Conservation` | the reference-count invariant and the conservation of value, kept by every operation |
| `Rebuilding`, `ClosedForm`, `ExportTheorems`, `Solvency` | the replay restores the invariant; closed form; the main results on the export; a solvent account pays |
| `Payouts`, `Accounts` | how much every delegation receives; which account every payout reaches |
| `Shares`, `Slashing` | how much a delegation accrues: its stake's part of the rewards per token, each slash taking its fraction, against exact arithmetic |
| `Staking` | the value of shares, heights and the jail allow-list |
| `Restarted` | what the exported state promises the restarted chain: stakes and rewards by shares |
| `Keepers`, `App` | the keepers and the application as objects updated in place, proved against the above |
| `ByteStore`, `Takeover` | the ordered byte store and its live sweeps; replacing the validator set; funding |
| `Gentx`, `Nodes` | the builder's files; its ports, peers, configurations, stakes and supply |

An object that the program updates (keeper, store, bank, file system, node configuration) is a
class whose methods are proved to compute a function of the old state; the results are lemmas
about those functions. Decimals are integers scaled by 10^18, so conservation is exact. The two
withdrawals whose errors the export discards may fail or succeed in any combination: the sets of
failing calls are parameters of every result.

## What is assumed

The keepers belong to Cosmos SDK v0.53.5 (`chain/go.mod:30`), which is not part of the repository.
`Distribution` and `Keepers` write out how they are taken to behave:

- *Withdraw commission*: an error when there is none; otherwise the whole tokens are paid and
  leave the outstanding rewards, and the fraction stays as commission.
- *Withdraw rewards*: ends the validator's period, computes the reward from the difference of
  cumulative ratios with the stake shrunk at each slash event and then compared with the rounded
  value of the shares (more than 3 units above is a panic, a smaller excess is cut), caps it by
  what is outstanding, pays the whole tokens, gives the fraction to the community pool, drops the reference to the old
  starting period and starts the delegation at the new one. When the module account cannot pay,
  only the period has ended.
- *Validator created*: record 0 with one reference, period 1, nothing owed.
- *Delegation created / modified*: the period ends (a validator without tokens gives its running
  rewards to the pool); the delegation starts at the ended period, which gains a reference.
- A count that would pass 2 or drop below 0, an outstanding amount that would become negative and a
  negative reward are panics, recorded in a flag that is never cleared. The results show that the
  flag stays down.
- Bech32 codecs are arbitrary functions from text to addresses, lawful where stated; the
  application state that a node computes is an arbitrary function of its genesis file and its
  gentx directory; sorting the balances may reorder them in any way.
- The builder's amounts, 1000 and 500 units of consensus power, are multiplied by the SDK's power
  reduction of one million; a listening setting's port is what follows its last ":".
- The node software that reads the peer list is taken to cut an entry at its first "@" and last ":";
  `MemoSplitsIff` says when a reader that splits at every one agrees.
- An iterator of the ordered store yields the next stored key after its position at each step,
  so deletions made meanwhile are visible to it.

A valid starting state (`ExportTheorems.Start`) satisfies the reference-count equation, has at most
one delegation or slash event per period, non-decreasing ratios, every delegation's validator
present, and outstanding rewards that cover commission and running rewards. It is ready at a height
(`ExportTheorems.Ready`) when moreover every stake shrunk by its slash events up to that height
passes the keeper's comparison. A state is solvent
(`Solvency.Solvent`) when the module account covers the community pool and all outstanding rewards
and none of these is negative; only the results that say so assume it.

## Where the code differs from its descriptions

- The allow-list is compared as text, not as addresses: a validator listed in another accepted
  spelling of its address is jailed (`JailsOutsidersIff` gives the exact condition).
- Leaving out `--accounts-to-fund` does not mean "nobody": the empty text is one account, and the
  command ends in an error after minting once (`EmptyFlagIsOneAccount`).
- The comment on the stake flag promises the default for an invalid amount; an invalid amount is
  skipped instead and the later amounts move to earlier nodes (`StakesByPositionIff`).
- The help of `--starting-ip-address` shows a new address for each node; every node gets the same
  address and a P2P port of its own, so the addresses differ only when there is at most one node
  (`AddressesDifferIff`).
- The command's description says that the old validator set is removed; old validators'
  consensus-address entries stay behind, and the new one is alone in that index only if there were
  no others (`ConsensusEntryAloneIff`).

## Model

| member | source | states |
|---|---|---|
| ExportTheorems.PrepRestores | chain/app/export.go:54-166 | From any valid state, whatever withdrawals fail, the preparation ends in a valid state that may be exported again at any height: the reference-count equation holds again for all validators and periods and no keeper panicked. |
| ExportTheorems.EraseBreaksRefs | chain/app/export.go:107-111 | From every sound book, erasing slash events and historical rewards breaks the reference-count equation exactly when there is a validator. |
| ExportTheorems.RunBreaksRefs | chain/app/export.go:93-111 | In every run, whatever withdrawals fail, the equation holds when the withdrawals are done and is then broken by the erasure exactly when there is a validator. |
| ExportTheorems.PrepIs | chain/app/export.go:54-166 | The final book is a function of the staking state alone and the money is what withdrawing left, with everything outstanding donated; nothing panicked. |
| ExportTheorems.PrepIdempotent | chain/app/export.go:54-166 | A second preparation, at any height and with any failures, changes nothing: nobody is paid and the pool is left alone. |
| ExportTheorems.PrepClosedForm | chain/app/export.go:117-166 | A validator with n delegations ends at period n+1 with exactly the records 1..n (record 0 if n is 0), ratios zero, one reference each and two for the last; its j-th delegation starts at period j and height 0. |
| ExportTheorems.NoStaleReferences | chain/app/export.go:107-166 | Starting infos are exactly the delegations' and each, at height 0, points at an existing record. |
| ExportTheorems.NothingOwed | chain/app/export.go:117-166 | Outstanding rewards, commissions and running rewards of every validator end at zero. |
| ExportTheorems.PoolGain | chain/app/export.go:74-141 | The community pool gains the total outstanding minus the whole tokens paid out, which the accounts gain. |
| ExportTheorems.PaidWithinOutstanding | chain/app/export.go:74-105 | Commission and rewards paid for a validator never exceed what was outstanding for it at the start. |
| ExportTheorems.WithdrawRewardsSpends | chain/app/export.go:104 | One reward withdrawal takes only from its own validator, pays only the address that its delegator has in the table of withdraw addresses, or the delegator when there is none, and leaves less than one token of its payout as dust in the pool. |
| Shares.ShareIs | chain/app/export.go:104 | What a delegation that no slash concerns has accrued: with running rewards R, T tokens, stake s and ratios grown by g since its start, R*s + T*g*s exceeds accrued*T*10^18 by less than T*(s + 10^18) and is never below it; a validator without tokens adds nothing for the running period. |
| Shares.RunningShare | chain/app/export.go:104 | Started at the last ended period, it earns its stake's part of the running rewards, R*s/T, up to that rounding. |
| Shares.UnslashedRewards | chain/app/export.go:104 | On any sound book the keeper's comparison fails iff the stake exceeds the worth by more than 3; otherwise the rewards are the growth of the recorded ratio times the smaller of the two, cut to 18 decimals. |
| Shares.RewardsAddUp | chain/app/export.go:104 | Rewards over several periods add up: taken in the middle and then to the end, or all at the end, they differ by at most one unit of the last decimal. |
| Shares.TurnPaysShare | chain/app/export.go:93-105 | In a solvent run in which all claims fit, the whole tokens paid at the turn of such a delegation are its stake's part of its validator's running rewards and of what was recorded before, by the records of the exported state, rounded down to a whole token. |
| Shares.TogetherIs | chain/app/export.go:93-105 | The claims of all delegations of a validator together come to the running rewards in the proportion of their stakes to the tokens plus what the recorded ratios gave before, up to rounding. |
| Shares.AtMostTheRewards | chain/app/export.go:93-105 | When only the running period has paid anything and the stakes add up to at most the tokens, these claims together are at most the running rewards. |
| Shares.FiftyTokens | chain/app/export.go:104 | A concrete withdrawal, all numbers written out: 50 tokens of rewards reach the one delegator of a validator. |
| Slashing.AccrualIsExact | chain/app/export.go:104 | Over any slash events between the start and the export height, what has accrued never exceeds the exact real amount, in which each slash takes its fraction of the stake for all that follows, and falls short of it by less than n + 1 + ((n + 3)*growth + stake)/10^18 for n slashes. |
| Slashing.OneSlash | chain/app/export.go:104 | With one slash of fraction f, what is earned after it is earned by the stake times 1 - f, up to rounding. |
| Restarted.PreparedStake | chain/app/export.go:146-166 | The stake in the exported starting info, by the delegation's and the validator's own records: shares*tokens*10^18 - stake*validator shares lies in [0, validator shares), and all the shares hold all the tokens. |
| Restarted.WorthSeen | chain/app/export.go:104 | The rounded worth that a stake is compared with is the shares' part of the tokens up to half a unit, rounded twice. |
| Restarted.RestartedShare | chain/app/export.go:146-166 | On the chain restarted from the exported state, once rewards have come in, every delegation accrues its stake's part, and so its shares' part, of its validator's rewards, with two-sided bounds over the stores' records. |
| Restarted.NobodyCutAfterRestart | chain/app/export.go:146-166 | There the claims for every validator are at most its running rewards, so nobody's payout is cut, when no validator's delegations have more shares than it has. |
| Accounts.PayoutsReach | chain/app/export.go:74-105 | Whatever fails, each account ends with what it had plus the commission and reward payouts whose owner's entry in the table of withdraw addresses, or own address, it is; the table is unchanged. |
| Accounts.AccountsOfRun | chain/app/export.go:74-105 | From a solvent state these payouts in closed form: the whole tokens of each commission and of each claim cut to what is left at its turn. |
| Solvency.EverythingPaid | chain/app/export.go:74-105 | From a solvent valid state every commission whose call does not fail ends at its fraction of a token, and every delegation with a starting info whose call does not fail is paid, in whole tokens, what it has accrued cut to what its validator has left at its turn, and ends started afresh at the export height at the period its payment ended. |
| Payouts.PayoutsOfRun | chain/app/export.go:74-105 | The payouts of a run in closed form: claims are as they were before the export, commissions are taken first, and each delegation served receives the whole tokens of its claim cut to what its validator has left after the claims served before it; nobody is cut iff all claims fit. |
| Payouts.UncutIff | chain/app/export.go:93-105 | Every delegation served receives all it has accrued iff for every validator these claims together fit in what is left; payouts then depend neither on the order of the list nor on which other calls fail. |
| Payouts.ReceivedIs | chain/app/export.go:104 | Without any condition on the sums: the payout is the minimum of the claim and what the claims served before it have left over. |
| Payouts.LeftClosed | chain/app/export.go:93-105 | After any part of the loop a validator has left what it had minus the claims served so far, or nothing. |
| Payouts.EntitledKept | chain/app/export.go:104 | Another delegation's withdrawal, for the same validator or another, does not change what a delegation has accrued. |
| Payouts.AccruedSame | chain/app/export.go:104 | Accrued rewards depend on the ratios at the start, at the slash events and at the end only. |
| Solvency.RunSolvent | chain/app/export.go:54-166 | A module account that covers the pool and everything outstanding still does after all withdrawals and after the whole preparation, whatever fails. |
| Solvency.AllRewardsSolvent | chain/app/export.go:93-105 | Every prefix of the reward withdrawals keeps the account solvent. |
| Solvency.CommissionsPaid | chain/app/export.go:74-85 | After any prefix of the commission loop exactly the commissions reached without failure are down to their fraction. |
| Solvency.RewardsPaid | chain/app/export.go:104 | From a solvent state a reward withdrawal goes through: the whole tokens of the accrued reward, cut to what is outstanding, leave the account, the period ends, and the delegation starts afresh at it with its current stake. |
| Solvency.SolventPays | chain/app/export.go:80-104 | A solvent account can pay whatever is outstanding for any one validator. |
| ExportTheorems.CommissionsKeep | chain/app/export.go:74-85 | Through every prefix of the commission withdrawals, whatever fails, the state stays valid and the book is untouched. |
| ExportTheorems.RewardsKeep | chain/app/export.go:87-105 | Through every prefix of the reward withdrawals, whatever fails, the invariant holds and no panic is reached. |
| ExportTheorems.CountsBounded | chain/app/export.go:93-105 | Wherever the invariant holds, as it does through the withdrawals, every stored reference count is 1 or 2. |
| ExportTheorems.ReplayCountsBounded | chain/app/export.go:117-166 | After every prefix of the replay, over stale starting infos, no keeper has panicked, each stored count is 1 or 2, and the last ended period of every validator is recorded. |
| Conservation.PrepConserves | chain/app/export.go:54-166 | From any state at all, the module balance minus pool and outstanding, and the total of all tokens, are the same after withdrawing and after the whole preparation. |
| Conservation.WithdrawAllRewardsConserves | chain/app/export.go:93-105 | Both totals are kept by every prefix of the reward withdrawals for any mix of failures. |
| Conservation.ReinitAllConserves | chain/app/export.go:117-144 | Both totals are kept while outstanding rewards are donated and records start over. |
| Invariants.WithdrawRewardsKeeps | chain/app/export.go:104 | A reward withdrawal keeps the reference-count equation, the monotone ratios, the cover of running rewards, and the fit of every slashed stake. |
| Invariants.IncrementKeeps | chain/app/export.go:157 | Ending a period keeps the invariant, and nothing yet points at the period just ended. |
| Invariants.RestartKeeps | chain/app/export.go:104 | Moving a delegation from its old starting period to the ended one keeps the equation: the old count was at least 1 and the new one was exactly 1. |
| Invariants.AccruedDefined | chain/app/export.go:104 | Rewards accrued over any slash events are defined and not negative when the slashed stake is at most the current one up to rounding: none of the keeper's sanity checks fires. |
| Rebuilding.RebuildIs | chain/app/export.go:107-166 | Erasing, reinitialising and replaying leads to a book that depends on the staking state only, whatever stale records and starting infos were there. |
| Rebuilding.FreshSound | chain/app/export.go:146-166 | After every prefix of the replay the reference-count equation holds for the delegations replayed so far. |
| Rebuilding.ReplayIs | chain/app/export.go:146-166 | Stale starting infos do not influence the replay, which overwrites them one by one and panics nowhere. |
| ClosedForm.RecordsClosed | chain/app/export.go:146-166 | The closed form of a validator's records after any prefix of the interleaved delegation list. |
| ClosedForm.StartsClosed | chain/app/export.go:146-166 | The j-th delegation aimed at a validator starts at period j. |
| ClosedForm.OnlyAimedMatter | chain/app/export.go:146-166 | Delegation lists that agree on the delegations aimed at a validator, however interleaved with others, leave the same records and starting periods for it. |
| Keepers.DistrKeeper.CalculateDelegationRewards | chain/app/export.go:104 | The loop over slash events and the final comparison of stakes compute the accrued reward, or none where a sanity check panics. |
| Keepers.DistrKeeper.WithdrawDelegationRewards | chain/app/export.go:104 | The whole new state of a reward withdrawal. |
| Keepers.DistrKeeper.WithdrawValidatorCommission | chain/app/export.go:80 | The whole new state of a commission withdrawal; one that the account cannot pay, which no solvent state meets, is left without effect. |
| Keepers.DistrKeeper.IncrementValidatorPeriod | chain/app/export.go:157 | The whole new state when a period ends. |
| Keepers.DistrKeeper.InitializeDelegation | chain/app/export.go:162 | The whole new state when a delegation starts. |
| Keepers.DistrKeeper.AfterValidatorCreated | chain/app/export.go:137 | The whole new state when a validator's records start over. |
| App.App.WithdrawAll | chain/app/export.go:74-105 | The two withdrawal loops compute the two withdrawal folds. |
| App.App.ReinitializeValidators | chain/app/export.go:117-144 | The donation loop computes the reinitialisation fold. |
| App.App.ReinitializeDelegations | chain/app/export.go:146-166 | At height 0 the replay loop computes the replay fold. |
| App.App.ReadAllowed | chain/app/export.go:55-70 | The table holds exactly the listed texts; an entry that is no address stops the preparation. |
| App.StakingKeeper.ResetRedelegations | chain/app/export.go:173-186 | The nested loops rewrite every redelegation in place to the one whose creation heights are 0 (`Staking.ZeroHeightRecords` says what that keeps). |
| App.StakingKeeper.ResetUnbondingDelegations | chain/app/export.go:188-201 | The same for unbonding delegations. |
| App.StakingKeeper.ResetAllValidators | chain/app/export.go:203-228 | Every unbonding height ends at 0; with a list, a validator ends jailed iff it was or its text is not listed; without one, jails stay; the result is by key, so the order does not matter. |
| App.App.PrepForZeroHeightGenesis | chain/app/export.go:54-228 | The stores end as the distribution and staking functions say, with every creation and unbonding height 0, outsiders of a non-empty list jailed, and every other field of every staking record as before; it succeeds iff the list is readable and no keeper panicked; an unreadable list entry stops it before any change. |
| App.App.ExportAppStateAndValidators | chain/app/export.go:18-48 | Height 0 or last height + 1; without the flag nothing changes; a valid state is exported as a valid state and only an unreadable list makes that fail; value is conserved. |
| App.PrepTwice | chain/app/export.go:54-228 | Preparing twice is preparing once for staking and distribution together. |
| Staking.ViewUnchanged | chain/app/export.go:171-228 | The staking part leaves everything distribution depends on as it was. |
| Staking.ZeroHeightIdempotent | chain/app/export.go:171-228 | Zeroing heights and jailing a second time changes nothing. |
| Staking.ZeroHeightRecords | chain/app/export.go:171-228 | Record by record: every creation and unbonding height ends at 0; validators that a non-empty list does not name end jailed, the others as they were; keys, entry counts, completion times, balances, shares, tokens, statuses and unbonding times stay. |
| Staking.StakeIsShare | chain/app/export.go:162 | The truncated token value of shares is their part of the tokens up to less than one unit; all shares have all the tokens. |
| Staking.WorthIsShare | chain/app/export.go:104 | The rounded token value of shares is their part of the tokens up to half a unit, rounded twice. |
| Staking.RoundedIsNearest | chain/app/export.go:104 | Rounding gives the nearest whole number, and the even one of two that are equally near. |
| Staking.StakesAtMostWorths | chain/app/export.go:162 | For every delegation the truncated token value that it starts with is at most the rounded one that it is compared with. |
| Staking.JailsOutsidersIff | chain/app/export.go:62-70 | The list jails exactly the outsiders iff every free validator listed in some spelling is also listed in its own. |
| Staking.OtherSpellingJails | chain/app/export.go:221-223 | A concrete list, under a codec with two spellings, that names a validator in another spelling and so jails it. |
| ByteStore.RangeIsPrefix | chain/cmd/mirrorvaultd/cmd/testnet.go:135-142 | For every prefix, 0xFF bytes included, the range from it to its end holds exactly the keys that start with it. |
| ByteStore.KVStore.Sweep | chain/cmd/mirrorvaultd/cmd/testnet.go:125-146 | Deleting while iterating upwards terminates and removes exactly the keys of the range, other keys and values staying. |
| ByteStore.KVStore.SweepDown | chain/cmd/mirrorvaultd/cmd/testnet.go:117-123 | Deleting while iterating downwards, as over the power store, removes exactly the same. |
| ByteStore.SweepStep | chain/cmd/mirrorvaultd/cmd/testnet.go:136-138 | After deleting the key it stands on, moving to the next stored key skips no key of the range. |
| ByteStore.SweepDownStep | chain/cmd/mirrorvaultd/cmd/testnet.go:120-122 | After deleting the key it stands on, moving down to the next stored key skips no key of the range. |
| Takeover.ReplaceValidators | chain/cmd/mirrorvaultd/cmd/testnet.go:114-152 | The four sweeps, the power family downwards, and the insertions produce the store without the four families plus the new validator's keys. |
| Takeover.SweepOrder | chain/cmd/mirrorvaultd/cmd/testnet.go:114-146 | Sweeps of the same families in any order leave the same store. |
| Takeover.FourIsSweptAll | chain/cmd/mirrorvaultd/cmd/testnet.go:114-146 | The four sweeps are such a sequence. |
| Takeover.OneValidatorLeft | chain/cmd/mirrorvaultd/cmd/testnet.go:114-152 | For families apart from each other, the validator, power and last-validator families each hold the new validator's entry alone and the queue is empty. |
| Takeover.OthersUnchanged | chain/cmd/mirrorvaultd/cmd/testnet.go:117-152 | Every key outside the families keeps its value. |
| Takeover.ConsensusEntryAloneIff | chain/cmd/mirrorvaultd/cmd/testnet.go:114-152 | The consensus-address family holds the new validator alone iff no other validator had an entry in it before. |
| Takeover.OldConsensusEntryStays | chain/cmd/mirrorvaultd/cmd/testnet.go:114-152 | A concrete store whose old consensus-address entry survives beside the new one. |
| Takeover.InitializeRecords | chain/cmd/mirrorvaultd/cmd/testnet.go:153-162 | Setting the records again after the creation hook changes nothing: the state is that of the hook alone. |
| Takeover.BankKeeper.FundAccounts | chain/cmd/mirrorvaultd/cmd/testnet.go:166-179 | Each account gains 10^9 per listing before the first bad one, the minter keeps nothing unless the loop exits, supply minus balances is constant, and it exits iff some entry is unreadable or blocked. |
| Takeover.FlagRoundTrip | chain/cmd/mirrorvaultd/cmd/testnet.go:209-211 | Cutting the flag undoes joining exactly for non-empty comma-free lists, and loses nothing. |
| Takeover.EmptyFlagIsOneAccount | chain/cmd/mirrorvaultd/cmd/testnet.go:209-211 | The flag left out funds one account with empty text, and succeeds only if that is an address. |
| Gentx.InitTestnetFiles | chain/cmd/mirrorvaultd/cmd/testnet_multi_node.go:162-347 | Every node ends with the same genesis, from the app state that node 0 computes out of the common genesis and its directory overlaid with all gentxs; it fails exactly when some node's computation does; on fresh output every node sees all gentxs and nothing else. |
| Gentx.SeenBefore | chain/cmd/mirrorvaultd/cmd/testnet_multi_node.go:304-308 | Whatever the output directory held, writing the own gentxs and genesis files leaves what a node will see as it was: its old contents overlaid with all gentxs. |
| Gentx.SpreadGentxs | chain/cmd/mirrorvaultd/cmd/testnet_multi_node.go:318-334 | The nested loop never fails, puts every gentx into every directory, changes no original and touches nothing else. |
| Gentx.FileSystem.CopyFile | chain/cmd/mirrorvaultd/cmd/testnet_multi_node.go:471-505 | Copies the source's contents, except that a file copied onto itself is emptied; errors iff the source or the directory is missing. |
| Gentx.CopyHolds | chain/cmd/mirrorvaultd/cmd/testnet_multi_node.go:471-505 | A copy has the source's contents and touches nothing else; the source survives iff it is not its own destination or was empty. |
| Gentx.TwoNodeLayout | chain/cmd/mirrorvaultd/cmd/testnet_multi_node.go:194-197 | Where two nodes with the default prefix have their gentx and genesis files. |
| Gentx.InsideOwnDirOnly | chain/cmd/mirrorvaultd/cmd/testnet_multi_node.go:319-328 | A node's gentx lies in node j's directory iff it is node j, for any slash-free prefix. |
| Gentx.DirectoryAfterSpread | chain/cmd/mirrorvaultd/cmd/testnet_multi_node.go:318-334 | A node's directory ends with all n gentxs as first written, over whatever else it held. |
| Gentx.NodesAgreeIff | chain/cmd/mirrorvaultd/cmd/testnet_multi_node.go:455-458 | Two nodes will see the same gentxs exactly when their directories agreed, at the start, on every name that is not one of the n gentxs. |
| Gentx.CollectGenFiles | chain/cmd/mirrorvaultd/cmd/testnet_multi_node.go:422-468 | Every genesis file is written from the first node's state; it fails iff some node's computation fails. |
| Paths.IsSubDirIff | chain/cmd/mirrorvaultd/cmd/testnet_multi_node.go:507-528 | The textual test holds iff the directory is a prefix of the source and what follows does not begin with two dots. |
| Nodes.PortsUsableIff | chain/cmd/mirrorvaultd/cmd/testnet_multi_node.go:310-311 | All six port families are distinct and within 1..65535 exactly up to 1317 nodes. |
| Nodes.ConsensusPortsDistinct | chain/cmd/mirrorvaultd/cmd/testnet_multi_node.go:449-451 | RPC, P2P and proxy ports are pairwise distinct for every number of nodes. |
| Nodes.ParsePorts | chain/cmd/mirrorvaultd/cmd/testnet_multi_node.go:116-129 | The default RPC family for an empty flag, else the flag's pieces by position. |
| Nodes.BuildPeers | chain/cmd/mirrorvaultd/cmd/testnet_multi_node.go:215-221 | The accumulated text is the memos joined by commas. |
| Nodes.PeersSplitIff | chain/cmd/mirrorvaultd/cmd/testnet_multi_node.go:215-221 | Cutting the peer list at commas gives the memos back iff there is a node and no id and no address has a comma. |
| Nodes.PeersReachListeners | chain/cmd/mirrorvaultd/cmd/testnet_multi_node.go:447-449 | The peer list in any node's configuration, read at the first "@" and the last ":" of each entry, names every node, in order, with the P2P port that node listens on. |
| Nodes.MemoSplitsIff | chain/cmd/mirrorvaultd/cmd/testnet_multi_node.go:215 | A reader that splits at every "@" and every ":" finds the id, address and port of an entry iff the id has no "@" and the address has neither. |
| Nodes.AddressesDifferIff | chain/cmd/mirrorvaultd/cmd/testnet_multi_node.go:215 | All entries of the peer list name the starting address, so the addresses are pairwise different iff there is at most one node. |
| Nodes.TwoNodesOneAddress | chain/cmd/mirrorvaultd/cmd/testnet_multi_node.go:139 | The two nodes of the flag's own example are at one address. |
| Nodes.Configure | chain/cmd/mirrorvaultd/cmd/testnet_multi_node.go:426-453 | The shared configuration object is set for node i, as `Nodes.ConfigSetFor` spells out; of its old contents only the settings that the loop does not touch remain. |
| Nodes.WriteConfigs | chain/cmd/mirrorvaultd/cmd/testnet_multi_node.go:425-454 | Every configuration written from the one shared object is its own node's, setting by setting: moniker and root are the node's directory, the RPC setting ends in the table's text for the node, P2P, proxy and Prometheus settings end in 26656-3i, 26658-3i and 26660+i; with the default table no two listening settings of all configurations share a port. |
| Nodes.ConfigSetFor | chain/cmd/mirrorvaultd/cmd/testnet_multi_node.go:426-452 | The settings of node i as they are read back: the moniker is the prefix and i in decimal without leading zeros, the root is that below the output directory, and the text after the last ":" of each listening setting is the port of its own service. |
| Nodes.ListenersApart | chain/cmd/mirrorvaultd/cmd/testnet_multi_node.go:449-452 | With the default RPC table every listening setting of every node has a port of its own, for every number of nodes. |
| Nodes.FirstTwoNodes | chain/cmd/mirrorvaultd/cmd/testnet_multi_node.go:310-311 | The twelve ports of the first two nodes. |
| Nodes.ParseStakes | chain/cmd/mirrorvaultd/cmd/testnet_multi_node.go:103-115 | Readable amounts are numbered in order, unreadable ones skipped; a negative amount panics. |
| Nodes.StakesByPositionIff | chain/cmd/mirrorvaultd/cmd/testnet_multi_node.go:104-113 | Every amount goes to the node of its position iff no readable amount follows an unreadable one. |
| Nodes.UnreadableAmountShifts | chain/cmd/mirrorvaultd/cmd/testnet_multi_node.go:106-112 | A concrete flag that gives the second node's amount to the first. |
| Nodes.SupplyOf | chain/cmd/mirrorvaultd/cmd/testnet_multi_node.go:384-387 | The supply of each denomination is the sum over all balances. |
| Nodes.BuilderSupply | chain/cmd/mirrorvaultd/cmd/testnet_multi_node.go:255-262 | n nodes start with a supply of n*10^9 test tokens and n*5*10^8 bond tokens, and nothing else. |
| Nodes.SupplyOrder | chain/cmd/mirrorvaultd/cmd/testnet_multi_node.go:384-387 | The supply does not depend on how the balances are sorted. |

## Left out

- Several denominations at once: amounts are those of one denomination, on which each operation acts separately.
- Partial writes of a failing withdrawal: a call that fails for a reason of its own changes nothing here, while the keeper may have written part of it.
- Keepers.DistrKeeper.WithdrawValidatorCommission: when the module account cannot pay, nothing changes here, while the keeper has already reduced the commission and the outstanding rewards; a solvent state never gets there (`Solvency.CommissionPaid`).
- Staking.OtherSpellingJails: uses a small codec with two spellings; bech32 itself is not part of this model.
- App.App.ExportAppStateAndValidators: states the height and the stores that the document is made from, not the document.
- Nodes.Configure: the settings that the loop does not touch are one field, `other`.
- Nodes.WriteConfigs: the same; the written text is not modelled.
- `ApplyAndReturnValidatorSetUpdates` at the end of the preparation, and the power index, which the jail loop does not update.
- Panics for operator and delegator addresses that do not decode: the stores are taken to hold addresses that do.
- The exported JSON, the validator list for the consensus engine and the consensus parameters.
- Delegations, redelegations and unbondings that point at the validators removed by the in-place testnet.
- Reading the other in-place testnet arguments and their type checks.
- Keyring, key generation, signing, gentx contents, random names, the key seed file, `app.toml`, and I/O errors other than a missing file or directory.
- Prefixes with a slash and relative output directories: paths are clean and absolute.
- User-supplied port lists in the port results: they are taken as they are.
- Application wiring, commands, documentation server, the planned x/vault module, the precompile and the Solidity contract.
