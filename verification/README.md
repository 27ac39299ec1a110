# Phygital wallet: verified model

This Dafny project models the parts of the Phygital wallet where money and signatures are decided,
and proves what they keep over every input and every run. `dafny verify dfyconfig.toml` checks it.

- **Instruction policy** (`Policy*.dfy`): the bounded, heap-budgeted permission decoder with its
  cursor, the validator's loops and the rule matcher. The derived Borsh encoding is written out, and
  the sizes of the in-memory structs are symbolic constants.
- **Authority account** (`Authority*.dfy`, `SpendingLimit.dfy`): the account as bytes at fixed
  offsets, the handlers that create, save, clear, charge and close it, the lamports they move, and the
  aligned spend windows of each counter over whole lifecycles.
- **Compact execution** (`Compact*.dfy`, `Execute.dfy`, `PasskeyExecute.dfy`, `SlotHash.dfy`): packing,
  account hashing, the loop that issues cross-program calls, the handler that asks for a passkey
  signature over them, what the secure signer shows of them, and the slot-hash search. A called
  program is an arbitrary function on the accounts' owners and data, which may fail.
- **Fee ledger** (`Fee*.dfy`): balance, idempotent events, expiring reserves, rebinding, and the batch
  that signs with rollback. The SQL tables are maps; the clock is a parameter of each call.
- **Secure signer** (`Base64.dfy`, `WalletFormat.dfy`, `SignerState.dfy`, `SignerRuns.dfy`): its
  codecs, its request state, and the interleavings of its asynchronous handlers.
- **Amounts** (`DecimalAmount.dfy`): printing and reading decimal token amounts.

Code that works step by step is a class or a loop, proved against a specification function; the
theorems are about those functions and whole runs of them.

## What the proofs found

- A permission list has one encoding, and the decoder accepts nothing else. The validator's heap
  check can never be what rejects a decoded list (`PolicyDecoder.ChargedIsHeap`).
- The per-window cap is exact. A stretch that straddles two windows can spend twice the cap, never
  more, and it can for every cap as soon as a window lasts two seconds
  (`SpendingLimit.TwiceCapIsReached`, `SpendingLimit.OneSecondStretchWithinCap`).
- A protected account can gain a signature in exactly one way: by being the wallet itself
  (`Execute.ProtectedGetNothing`). `execute.rs:104` protects the token and the authority account.
- A failing batch takes away exactly the open reserves it got hold of
  (`FeeBatch.FailedBatchDropsTouched`). A retry that fails before its message is signed leaves the
  reserve of the earlier batch alone. One that fails after signing it again drops that reserve
  (`FeeBatch.FailedRetryDropsReserve`).
- `token-signer.ts:258` ignores the result of the rebind, so a message that takes longer to sign than
  its reserve lives is returned signed with nothing reserved (`FeeBatch.SignedBatchHolds`).
- Rebinding to an id that has a row already drops the moved reserve, so the open total then falls
  (`FeeRuns.RebindEffect`).
- The comment in `state.ts:4-8` promises that a rejected second request does not disturb the active
  one. It holds iff posting the refusal does not fail first and succeed at the second attempt, in the
  handler at `main.ts:146` (`SignerRuns.BusyIsUndisturbed`). Both attempts post the same message;
  as long as one that fails fails again, every run has one operation active at a time
  (`SignerRuns.SteadyRunsAreExclusive`). In no run at all is an unapproved message signed
  (`SignerRuns.SignedWasApproved`).
- A lone dot is read as the amount zero although `amount.ts:38` means to refuse amounts that are not
  positive. The exact result is for text the input field has sanitised; other text can even be read as
  negative, as `0.-5` is.

## Model

| member | source | states |
|---|---|---|
| PolicyDecoder.DecodesExactly | programs/phygital-wallet/src/utils/instruction_policy.rs:146-403 | the accepted byte strings are exactly the encodings, of at most 4096 bytes, of the lists the validator accepts, and each decodes to its own list: decoder, serializer and validator agree on every value, in both directions |
| PolicyDecoder.AcceptedIsPrefixFree | programs/phygital-wallet/src/utils/instruction_policy.rs:379-403 | no accepted byte string is a strict prefix or a strict extension of another accepted one |
| PolicyDecoder.AcceptedWithinLimits | programs/phygital-wallet/src/utils/instruction_policy.rs:146-230 | no accepted byte string permits this program or phygital-token, names a program twice, or exceeds the fixed limits on bytes, heap, permissions, rules, selectors and constraints |
| PolicyCodec.VariantsAreNumbered | programs/phygital-wallet/src/utils/instruction_policy.rs:19-95 | the tags written are the declaration indexes of the variants, as the Borsh specification numbers them |
| PolicyDecoder.Decode | programs/phygital-wallet/src/utils/instruction_policy.rs:320-403 | on every input, malformed ones included, the cursor-and-budget run gives the outcome of the one-function decoder and asks for at most 8192 bytes of buffers in all; on success it asked for exactly the heap of the decoded list |
| PolicyDecoder.ChargedIsHeap | programs/phygital-wallet/src/utils/instruction_policy.rs:148-228 | on success the budget used is the sum the validator adds up, so the validator's heap check never fires during decoding |
| PolicyRoundTrip.PermissionsExplained | programs/phygital-wallet/src/utils/instruction_policy.rs:379-403 | whatever a decode reads is the encoding of its value at the front of the input, and the budget fell by the value's heap |
| PolicyRoundTrip.PermissionsParsed | programs/phygital-wallet/src/utils/instruction_policy.rs:379-403 | any list within bounds and budget is read back whole from its encoding, whatever follows it |
| PolicyRoundTrip.VecExplained | programs/phygital-wallet/src/utils/instruction_policy.rs:320-341 | the bounded list reader, for any item reader that inverts its item encoding: what it reads is the length-prefixed encoding, and it charged buffer and items |
| PolicyRoundTrip.VecParsed | programs/phygital-wallet/src/utils/instruction_policy.rs:320-341 | the converse: every list within bound and budget is read back |
| PolicyRoundTrip.UnsignedExplained | programs/phygital-wallet/src/utils/instruction_policy.rs:348-359 | an unsigned predicate that is read re-encodes to the bytes it came from: width tag, comparison tag, little-endian value |
| PolicyDecoder.Decoder.Count | programs/phygital-wallet/src/utils/instruction_policy.rs:320-332 | reads, bounds and charges a vector length before anything is reserved, so requests never exceed what was charged |
| PolicyDecoder.Decoder.Constraint | programs/phygital-wallet/src/utils/instruction_policy.rs:348-359 | moves cursor and budget as the constraint parser predicts, and fails exactly where it does |
| PolicyDecoder.Decoder.Rule | programs/phygital-wallet/src/utils/instruction_policy.rs:361-377 | the same for a rule: selector, length, count, accounts and arguments in wire order |
| PolicyDecoder.Decoder.Permissions | programs/phygital-wallet/src/utils/instruction_policy.rs:379-397 | the same for the whole list: the item loop completes exactly the list the recursive parser predicts |
| PolicyRules.ValidateConstraint | programs/phygital-wallet/src/utils/instruction_policy.rs:104-118 | decides exactly the valid data constraints: nonempty bounded bytes, or a value its width can hold |
| PolicyRules.ValidateRule | programs/phygital-wallet/src/utils/instruction_policy.rs:169-224 | the nested loops decide exactly the valid rules and add up exactly the rule's heap |
| PolicyRules.ValidatePermissions | programs/phygital-wallet/src/utils/instruction_policy.rs:146-230 | the loops accept exactly the lists that satisfy the quantified definition: bounded, distinct allowed programs, valid rules, heap within 8192 |
| PolicyMatch.UnsignedDecidesInteger | programs/phygital-wallet/src/utils/instruction_policy.rs:120-143 | an unsigned predicate fails when its field does not lie in the data, and otherwise holds iff the little-endian integer there is equal, unequal, less, at most, greater or at least, as the comparison says |
| PolicyMatch.ValidValues | programs/phygital-wallet/src/utils/instruction_policy.rs:104-118 | the validator lets through exactly the values each width can hold |
| PolicyMatch.RuleDecides | programs/phygital-wallet/src/utils/instruction_policy.rs:233-282 | any rule, valid or not, matches iff its pinned lengths agree, every place it looks at is there, and its tests hold |
| PolicyMatch.ValidRuleIsMeaningful | programs/phygital-wallet/src/utils/instruction_policy.rs:169-224 | a valid rule never matches empty data, and looks at account data only under an owner it pins |
| PolicyMatch.ValidEqualityIsSatisfiable | programs/phygital-wallet/src/utils/instruction_policy.rs:104-143 | a validated equality names a value its field can hold: data carrying that value matches |
| PolicyMatch.PinnedRuleDecides | programs/phygital-wallet/src/utils/instruction_policy.rs:169-282 | a valid rule that pins both lengths, on account indexes in range, matches iff the lengths are the pinned ones and its tests hold, with every argument, account position and account it looks at in reach |
| Execute.HashedPinnedRuleDecides | programs/phygital-wallet/src/utils/compact.rs:80-162 | so it is for every instruction of a batch whose account hash was computed, whatever the accounts hold by then |
| PolicyMatch.PinnedRuleStaysInRange | programs/phygital-wallet/src/utils/instruction_policy.rs:169-282 | each pin alone: a pinned data length puts every argument inside the data, a pinned account count every position inside the instruction's own account list |
| PolicyMatch.CheckDecidesAllowed | programs/phygital-wallet/src/utils/instruction_policy.rs:284-313 | the first-match search allows exactly what some permission of the list, in any position, allows |
| PolicyMatch.RefusalNamesItsReason | programs/phygital-wallet/src/utils/instruction_policy.rs:284-313 | a refusal is of the instruction when the program has rules, and of the program otherwise |
| PolicyMatch.OrderDoesNotMatter | programs/phygital-wallet/src/utils/instruction_policy.rs:284-313 | reordering a list changes no answer, error codes included |
| SpendingLimit.NextChargeIsExact | programs/phygital-wallet/src/utils/spending_limit.rs:5-73 | after any run of charges and re-saves at nondecreasing times, a positive charge succeeds iff it plus what its aligned window already spent is at most the cap; the only failure is the limit error, so no overflow is reachable |
| SpendingLimit.RunTracks | programs/phygital-wallet/src/utils/spending_limit.rs:43-73 | in every run the slot holds exactly what its window has left, and stands at an aligned window start |
| SpendingLimit.ChargeIsExact | programs/phygital-wallet/src/utils/spending_limit.rs:43-73 | the same exactness from any state a run can reach |
| SpendingLimit.RefillTracks | programs/phygital-wallet/src/utils/spending_limit.rs:5-14 | the refill moves the slot to the window of the clock reading and restores exactly that window's remainder, without overflow |
| SpendingLimit.SavableCaps | programs/phygital-wallet/src/utils/spending_limit.rs:5-27 | for clock readings from the epoch on, a cap can be saved iff it is positive and its window not negative, lifetime caps included; it starts full at the aligned start of the current window |
| SpendingLimit.EveryWindowWithinCap | programs/phygital-wallet/src/utils/spending_limit.rs:43-73 | no aligned window ever totals more than the cap; with no window, nor does the whole run |
| SpendingLimit.AnyStretchWithinTwiceCap | programs/phygital-wallet/src/utils/spending_limit.rs:5-73 | any interval one window long, aligned or not, totals at most twice the cap |
| SpendingLimit.TwiceCapIsReached | programs/phygital-wallet/src/utils/spending_limit.rs:5-73 | that bound is reached for every positive cap and every window of two seconds or more, by one charge on each side of a window boundary |
| SpendingLimit.OneSecondStretchWithinCap | programs/phygital-wallet/src/utils/spending_limit.rs:5-73 | and never for windows of one second: there any stretch one window long totals at most the cap |
| SpendingLimit.CapSlot.Charge | programs/phygital-wallet/src/utils/spending_limit.rs:43-73 | the four fields written one at a time end as the charge function says, on success and on each failure |
| AuthorityLayout.ImageReads | programs/phygital-wallet/src/state.rs:133-228 | reading the bytes an account image consists of gives back its header, its marker and its policy, permissions included |
| AuthorityLayout.MintsRoundTrip | programs/phygital-wallet/src/state.rs:157-201 | the mint array is read back entry by entry from its fixed-stride bytes |
| AuthorityReader.ReadsExactlyImages | programs/phygital-wallet/src/state.rs:93-190 | the readers accept a header and a policy exactly when the bytes are the ones they are written as, with a policy that could have been saved; nothing else reads |
| AuthorityLifecycle.PerformRefines | programs/phygital-wallet/src/instructions/wallet_policy.rs:69-234 | each successful instruction on the bytes does what the owner expects of the abstract account, and keeps it rent-exempt |
| AuthorityLifecycle.RunReadsBack | programs/phygital-wallet/src/state.rs:133-201 | after any sequence of instructions a live account passes `read`, holds at least its rent minimum, and an active policy is read back exactly |
| AuthorityLifecycle.RunKeepsTerms | programs/phygital-wallet/src/instructions/wallet_policy.rs:103-168 | in every run the header keys are those given at creation and an active policy states exactly the last saved caps and permissions, up to counters |
| AuthorityAccess.OnlyTheOwner | programs/phygital-wallet/src/instructions/wallet_policy.rs:69-234 | on every reachable account, a save, clear or close that succeeds passed its guards, carries the stored authority's signature and refunds the stored payer; what is saved is acceptable, what is cleared was there, and an account is created only where none is and for a real owner |
| AuthorityAccess.StrangersChangeNothing | programs/phygital-wallet/src/instructions/wallet_policy.rs:69-234 | whatever run of instructions anyone but the owner signs, the account keeps its header, whether it has a policy, and every cap, window and permission |
| AuthorityAccess.CreatedWithItsKeys | programs/phygital-wallet/src/instructions/authority.rs:103-117 | the bytes of a new account read back the three keys and two bumps of the call, and an active empty policy |
| AuthorityAccess.LamportsMoveExactly | programs/phygital-wallet/src/instructions/wallet_policy.rs:132-232 | the payer pays exactly what the account is short of its minimum; a save that shrinks the account, a clear and a close give the receiver exactly the surplus; no other balance moves |
| AuthorityCounters.SaveKeepsEachCounter | programs/phygital-wallet/src/instructions/wallet_policy.rs:115-131 | in every successful save on a reachable account, the SOL cap and each mint cap whose own cap and window are left alone keep their whole counter, whatever else is added, dropped, reordered or permitted; every other cap starts full at its aligned window |
| AuthorityLifecycle.ResaveKeepsCounters | programs/phygital-wallet/src/instructions/wallet_policy.rs:115-131 | in particular, saving exactly the stored terms changes nothing at all |
| AuthorityCounters.EverySlotWithinCap | programs/phygital-wallet/src/utils/spending_limit.rs:43-73 | over every lifecycle run with a nondecreasing clock, what is charged in the account to the SOL cap or to a mint since its terms last changed totals at most the cap in each aligned window |
| AuthorityCounters.NextChargeOfSlotIsExact | programs/phygital-wallet/src/utils/spending_limit.rs:43-73 | and an allowed charge of that slot succeeds on the account bytes iff its window has room |
| AuthorityCounters.RunKeepsMintsDistinct | programs/phygital-wallet/src/instructions/wallet_policy.rs:76-87 | no reachable account lists a mint twice, so a mint has one counter |
| AuthorityLifecycle.ChargeRefines | programs/phygital-wallet/src/state.rs:192-201 | a counter charged in place changes that counter only; every other byte still reads as before |
| AuthorityLifecycle.RunConserves | programs/phygital-wallet/src/instructions/wallet_policy.rs:132-232 | no run creates or destroys a lamport, whoever pays and whoever is refunded |
| AuthorityLifecycle.PerformConserves | programs/phygital-wallet/src/instructions/authority.rs:103-169 | each successful instruction, creation and closing included, keeps the lamport total |
| AuthorityLifecycle.ClearPolicySucceeds | programs/phygital-wallet/src/instructions/wallet_policy.rs:200-234 | for its owner, clearing an active policy never fails on a reachable account when rent is monotone: the refund subtraction cannot underflow |
| AuthorityLifecycle.ClearAuthoritySucceeds | programs/phygital-wallet/src/instructions/authority.rs:151-169 | for its owner, closing never fails on a reachable account |
| AuthorityLifecycle.SetPolicySucceeds | programs/phygital-wallet/src/instructions/wallet_policy.rs:69-168 | saving acceptable caps never fails once payer and account together hold the new rent minimum |
| AuthorityAccount.Chain.WritePolicy | programs/phygital-wallet/src/state.rs:203-228 | the piecewise writes leave exactly header, counters, padding, count, mints and tail |
| AuthorityAccount.Chain.SetPolicyHandler | programs/phygital-wallet/src/instructions/wallet_policy.rs:69-168 | validate, fund, resize, refund and rewrite commit the specified world, or nothing |
| AuthorityAccount.Chain.ClearPolicyHandler | programs/phygital-wallet/src/instructions/wallet_policy.rs:200-234 | shrink, refund and rewrite commit the specified world, or nothing |
| AuthorityAccount.Chain.ClearAuthorityHandler | programs/phygital-wallet/src/instructions/authority.rs:151-169 | hands back every lamport and removes the account, or changes nothing |
| AuthorityAccount.Chain.ChargeHandler | programs/phygital-wallet/src/state.rs:192-201 | a charge writes back over the bytes of the counter it loaded, or nothing changes |
| Compact.PackedInjective | programs/phygital-wallet/src/utils/compact.rs:16-48 | the packed bytes determine the instructions, list by list and byte by byte |
| Compact.PackedOffsets | programs/phygital-wallet/src/utils/compact.rs:16-48 | where each field of a packed instruction lies, counts and little-endian length included |
| Compact.EntryOffsets | programs/phygital-wallet/src/utils/compact.rs:71-109 | each reference takes 33 bytes of the hash input: its key, then signer in the lowest bit and writable in the next |
| Compact.Pack | programs/phygital-wallet/src/utils/compact.rs:16-48 | two passes write exactly the bytes the size pass counted, or fail exactly when a count does not fit |
| Compact.HashReferencedAccounts | programs/phygital-wallet/src/utils/compact.rs:80-109 | digests key and privilege of every referenced account in order; fails exactly on an index out of range |
| Execute.ExecuteCompact | programs/phygital-wallet/src/utils/compact.rs:114-203 | the loop with its reused metas buffer and taken data issues what the pure run over the untouched instructions issues |
| Execute.RunIssuesIntended | programs/phygital-wallet/src/utils/compact.rs:138-191 | a completed run issues, position by position, the call each original instruction stands for, read off the account list alone; no call targets either program, or gives a protected account more than the wallet's own signature |
| Execute.RunChecksEachInstruction | programs/phygital-wallet/src/utils/compact.rs:154-162 | each call was preceded by a passed check of its own instruction, data in place, against the accounts its predecessors left |
| Execute.RunEnforcesPolicy | programs/phygital-wallet/src/utils/compact.rs:138-162 | under a policy, every call of a completed run was allowed by some entry of the stored list, or by the baseline, on the accounts its predecessors left |
| Execute.RunStopsAtRefusal | programs/phygital-wallet/src/utils/compact.rs:138-162 | where the policy does not allow the next instruction the run ends there, with the code that says whether program or instruction was refused |
| Execute.NoPolicyNoRefusal | programs/phygital-wallet/src/utils/compact.rs:138-162 | without a policy no run ends in a refusal |
| Execute.RunCompletesIff | programs/phygital-wallet/src/utils/compact.rs:138-191 | a run completes iff each instruction in turn targets neither program, is permitted, gives no protected account a privilege, and its call succeeds |
| Execute.ExecutionKeepsWallet | programs/phygital-wallet/src/utils/compact.rs:193-203 | a completed run succeeds iff it left the wallet's owner and size alone |
| Execute.PrivilegesDoNotGrow | programs/phygital-wallet/src/utils/compact.rs:164-184 | no issued call gives an account a privilege it did not come with, but for the wallet's own signature |
| Execute.ProtectedGetNothing | programs/phygital-wallet/src/utils/compact.rs:164-184 | protected accounts get neither signature nor write access iff the wallet is not both protected and referenced |
| Execute.HashedIndexesAreInRange | programs/phygital-wallet/src/utils/compact.rs:80-203 | once the account hash succeeded, execution never meets an index out of range |
| PasskeyExecute.Handler | programs/phygital-wallet/src/instructions/execute.rs:53-128 | the exact outcome: a failed hash and a signature that does not verify issue nothing; otherwise the result is that of the run over the untouched instructions, refused as over the limit iff a policy is present and its charge fails; an index error is impossible |
| PasskeyExecute.EqualChallengesIssueEqualCalls | programs/phygital-wallet/src/utils/compact.rs:16-109 | for one wallet, two completed executions whose hash inputs are equal issue equal lists of calls, whatever their account lists and callees |
| PasskeyExecute.SummarizeInner | secure-signer/src/tx/parser.ts:49-79 | succeeds iff every index is in range, and lists program, account keys and data length of each instruction |
| PasskeyExecute.ShownIsIssued | secure-signer/src/tx/parser.ts:49-79 | whenever execution completes, the summary of the same instructions exists and agrees with the issued calls position by position |
| SlotHash.FetchSlotHash | programs/phygital-wallet/src/utils/slot_hash.rs:7-36 | a returned hash is stored for the slot; on strictly descending entries it is returned iff the slot is present; each malformed length gives its own error; every read is in bounds |
| SlotHash.SysvarHoldsItsEntries | programs/phygital-wallet/src/utils/slot_hash.rs:7-36 | an encoded sysvar holds exactly its (slot, hash) entries and descends iff they do |
| FeeRuns.AtMostFourOpen | workers/api-signer/src/token-store.ts:119-262 | under any interleaving of store calls with a nondecreasing clock, at most four reserves are open |
| FeeRuns.FreshReserveIsCovered | workers/api-signer/src/token-store.ts:160-190 | a reserve call succeeds iff its id is open or a new row fits; a new row leaves the open total at or below the balance |
| FeeRuns.RebindEffect | workers/api-signer/src/token-store.ts:234-262 | rebinding to an id with no row keeps count and total; to an existing row it drops the moved reserve |
| FeeRuns.BalanceAddsUp | workers/api-signer/src/token-store.ts:55-117 | in every run the balance is the starter granted, plus distinct credits, minus distinct debits, plus what was clamped at zero; it is never negative and the starter is granted at most once |
| FeeRuns.EventsAreDelivered | workers/api-signer/src/token-store.ts:264-298 | the recorded events are exactly the positive ones delivered |
| FeeRuns.RepeatsDoNotCount | workers/api-signer/src/token-store.ts:264-298 | a delivery with repeats leaves the ledger its first occurrences alone would have left |
| FeeRuns.SettleFreesItsReserve | workers/api-signer/src/token-store.ts:221-231 | a debit, with or without its suffix and even when repeated, frees the open reserve of its own transaction and no other; count and total fall by that row |
| FeeRuns.ExpireDropsTheExpired | workers/api-signer/src/token-store.ts:197-203 | expiring drops exactly the rows that are not open, so nothing open later is lost |
| FeeRuns.FirstGrantDecides | workers/api-signer/src/token-store.ts:89-117 | in every run the first request for the starter brings the whole starter to a ledger without a balance and nothing to any other; every later one changes nothing |
| FeeRuns.OneTokenPerLedger | workers/api-signer/src/token-store.ts:55-87 | after any run a ledger lets in the token it was bound to and no other; binding starts it at zero |
| FeeStore.TokenStore.ReserveAttempt | workers/api-signer/src/token-store.ts:160-190 | the statement-by-statement reserve reaches the specified tables |
| FeeStore.TokenStore.ReservedLamports | workers/api-signer/src/token-store.ts:138-147 | sums exactly the open rows, in whatever order they are visited |
| FeeStore.TokenStore.NextReserveExpiry | workers/api-signer/src/token-store.ts:205-219 | returns the earliest expiry of an open row, or nothing iff none is open |
| FeeStore.TokenStore.RebindReserve | workers/api-signer/src/token-store.ts:234-262 | moves, merges or refuses as specified |
| FeeStore.TokenStore.SettleDebit | workers/api-signer/src/token-store.ts:221-231 | expires, drops the settled row and applies the event as specified |
| FeeBatch.SignTransactions | workers/api-signer/src/token-signer.ts:177-296 | the loop that collects, replaces and releases ids reaches the specified outcome; on success it returns each wire's own signature in order |
| FeeBatch.SignedBatchMaySign | workers/api-signer/src/token-signer.ts:205-284 | a batch is signed only if every wire decodes, names the ledger's token, has a sponsored fee payer and was signed, and the alarm was set |
| FeeBatch.TopUpsNeedNoBalance | workers/api-signer/src/token-signer.ts:226-284 | a batch of such top-ups alone is always signed, whatever the balance, and makes no reserve |
| FeeBatch.FeePayingWirePasses | workers/api-signer/src/token-signer.ts:226-262 | a wire that pays fees passes iff it may be signed and its message has a reserve or can get one |
| FeeBatch.FailedBatchDropsTouched | workers/api-signer/src/token-signer.ts:184-296 | a failing batch takes away exactly the open reserves it got hold of and adds none, whichever wire fails, at whichever step and with repeated wires; so it leaves no trace iff it held none that was open before |
| FeeBatch.FailedBatchIsInvisible | workers/api-signer/src/token-signer.ts:184-296 | in particular it leaves no trace if none of its message hashes and signatures names an open row on entry |
| FeeBatch.FailedRetryDropsReserve | workers/api-signer/src/token-signer.ts:248-281 | a concrete case: an earlier batch left its reserve under the signature; when the same message is retried and signing fails, the reserve stays; when it is signed again and a later wire fails, the earlier reserve is dropped |
| FeeBatch.SignedBatchHolds | workers/api-signer/src/token-signer.ts:248-284 | after a signed batch of new messages, a returned signature has an open reserve exactly until the reserve of its message would have expired, even if that was before the signature was there |
| FeeBatch.RebindLeavesOpen | workers/api-signer/src/token-store.ts:234-262 | a rebind leaves the signature open iff it was open already, or the message hash is still open and the signature has no row |
| Base64.Base64ToBytes | secure-signer/src/encoding.ts:33-75 | accepts exactly the texts that stand for some bytes within the cap and returns those: the never-masked accumulator, wrapping at 32 bits, still yields the right bytes |
| Base64.DecodesUniquely | secure-signer/src/encoding.ts:33-75 | a text stands for at most one byte string |
| Base64.BytesToBase64 | secure-signer/src/encoding.ts:77-106 | writes the encoding of its input, group by group |
| Base64.EncodedDecodes | secure-signer/src/encoding.ts:33-106 | every byte string within the cap is what its encoding stands for, in both alphabets |
| Base64.AcceptedIsEncoding | secure-signer/src/encoding.ts:33-106 | every accepted text is the encoding of its bytes up to trailing padding |
| Base64.BuildLookup | secure-signer/src/encoding.ts:15-24 | the table inverts the alphabet and rejects every other code |
| Base64.BytesEqual | secure-signer/src/encoding.ts:113-118 | the accumulated exclusive-or is zero iff the strings are equal |
| WalletFormat.BlobDecodes | secure-signer/src/wallet-format.ts:91-145 | decoding an encoded blob gives the fields back |
| WalletFormat.DecodedReencodes | secure-signer/src/wallet-format.ts:91-145 | an accepted blob is the encoding of its fields, so nothing else is accepted |
| WalletFormat.AadInjective | secure-signer/src/wallet-format.ts:147-165 | for headers of one key and salt length, as all parsed ones are, equal associated data means equal public key, credential id, salt and relying-party id |
| WalletFormat.DecodeWalletBlob | secure-signer/src/wallet-format.ts:112-145 | the reader, which checks before every read, accepts and returns what the offset-based decoder does |
| WalletFormat.EncodeWalletBlob | secure-signer/src/wallet-format.ts:91-110 | writes the blob of encodable fields and refuses all others |
| WalletFormat.Concat | secure-signer/src/wallet-format.ts:79-89 | fills an array with exactly the parts, end to end |
| SignerState.SeenIsLatestAccepted | secure-signer/src/state.ts:56-75 | in every run the replay memory is the duplicate-free FIFO of the latest 512 accepted ids |
| SignerState.ReplayNeedsManyOthers | secure-signer/src/state.ts:56-75 | two acceptances of one id have at least 512 other acceptances between them |
| SignerState.ReplayWithinTwoMinutes | secure-signer/src/state.ts:56-65 | when the timestamp is the same too, everything accepted between them lies within 120 seconds |
| SignerState.AcceptedIffFresh | secure-signer/src/state.ts:56-75 | after any run a request is accepted iff its id is not among the latest 512 accepted and its timestamp is within 60 seconds either way |
| SignerState.ConsumeHasItsAuthorize | secure-signer/src/state.ts:97-117 | every successful consume has its own earlier matching authorize, with no consume, end or authorize between |
| SignerState.SignerStateMachine.RememberId | secure-signer/src/state.ts:67-75 | adds the id, evicting the oldest beyond 512 |
| SignerState.SignerStateMachine.ConsumeAuthorization | secure-signer/src/state.ts:105-117 | hands out a matching authorization, and clears it whatever the outcome |
| SignerRuns.SignedWasApproved | secure-signer/src/main.ts:622-720 | in every interleaving, reused ids and failing reports included, a signature uses up its own grant for the same request and digest, was approved by the user in its own task, and no task signs twice |
| SignerRuns.SignsIffGrantStands | secure-signer/src/state.ts:97-117 | in every run, a task that is ready to sign signs iff the latest grant, signature, denial or end before it is a grant for its request and digest |
| SignerRuns.SteadyRunsAreExclusive | secure-signer/src/main.ts:146-190 | in every run in which a report that cannot be posted cannot be posted the second time either, at most one request is pending, the authorization is its own, and the check before signing never denies |
| SignerRuns.ApprovedRequestIsSigned | secure-signer/src/main.ts:153-720 | after any such run with nothing pending, a fresh request that is approved and unlocked is signed, and the page is idle again |
| SignerRuns.BusyIsUndisturbed | secure-signer/src/main.ts:146-165 | in every run, a request refused as busy touches no task; once its own handler of last resort has run too, the active operation is disturbed iff the request was fresh and its refusal failed to post and then posted |
| SignerRuns.UnsteadyReportDenies | secure-signer/src/main.ts:146-165 | the case that remains: a second request whose refusal posts only at the second attempt ends the first one's operation, which is then denied its signature |
| SignerRuns.SignerPage.OnMessage | secure-signer/src/main.ts:125-165 | check, remember and begin change the page as the step says |
| SignerRuns.SignerPage.OnUnlocked | secure-signer/src/main.ts:704-717 | signs the frozen message only when the authorization is consumed, and logs a denial otherwise |
| DecimalAmount.RoundTrip | app/src/lib/tokens/amount.ts:3-15 | for every positive amount and decimals 0 to 255, reading the printed text gives the amount back |
| DecimalAmount.SameText | secure-signer/src/tx/clear-sign.ts:107-117 | the app and the signer print the same text for every integer and every number of decimals |
| DecimalAmount.TextIsInjective | app/src/lib/tokens/amount.ts:3-15 | different amounts of one mint, negative ones included, never print alike |
| DecimalAmount.SanitizedReadsExactly | app/src/lib/tokens/amount.ts:27-49 | a sanitised text is read iff its fraction fits and it denotes more than zero or is a lone dot, and then as its exact value; that value is positive iff the text is not the lone dot |
| DecimalAmount.SanitizingKeepsDigits | app/src/lib/tokens/amount.ts:27-34 | sanitising keeps every digit in order and the first dot in its place among them |
| DecimalAmount.DecimalIsSanitized | app/src/lib/tokens/amount.ts:27-34 | and leaves alone what is decimal text already |
| DecimalAmount.ReadThenPrinted | app/src/lib/tokens/amount.ts:3-49 | printing what was read gives the text back up to zeros that carry no value |
| DecimalAmount.UnsanitizedCanBeNegative | app/src/lib/tokens/amount.ts:36-49 | why the text must be sanitised first: one that was not can be read as a negative amount |

## Left out

- Guards and snapshots of `utils/policy.rs` (top-level check, durable nonce, balance snapshot and deltas): each handler takes their verdict as the parameter `allowed`, and a charge names its counter and amount.
- Cryptography: SHA-256, ed25519, AES-GCM, HKDF, passkey verification. Digests are arbitrary functions or replaced by the inputs they digest; verification is a parameter.
- Address derivation, signer seeds and the canonical-address and token checks at the head of the execute handlers.
- The two other execute entry points, which differ from `handler` in the signer they demand and share its execution loop.
- Anchor's account constraints and discriminator dispatch; the runtime's limit on growing an account is the parameter `resizable`.
- A failing instruction is undone as a whole; partial effects inside one are not observable in the model.
- The runtime's own check that no account a transaction touches, payer and receiver included, is left with a balance below its rent minimum: the results that an instruction never fails are about the program's checks.
- Negative clock readings: the window theorems are for readings at or after the epoch, where truncating and flooring division agree.
- Compiler-chosen struct sizes: symbolic; the results hold for any, zero included.
- Error messages, logs, HTTP statuses and response bodies; the blob codec's error codes are one failure value.
- SQLite and Durable Object scheduling: each store method is one atomic step, and a batch runs between two of them.
- The wording of instruction titles on the confirmation screen; the fields they are rendered from are modelled.
- DecimalAmount.UnsanitizedCanBeNegative: one input, with no exact condition for unsanitised text.
- DecimalAmount.RoundTrip: `Number` and `BigInt` are parameters known to be right on digit texts with at most one dot; floating-point rounding of other texts is not modelled.
- Signature bytes, the wallet unlock between grant and signature, dismissal and the export and sign-in flows, which appear only as tasks that may finish at any time.
- User interface, routing, RPC and indexing clients, and the host side of the message channel.
