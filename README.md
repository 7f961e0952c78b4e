# fcli core, modelled in Dafny

fcli is a command-line Flokicoin wallet. It is a thin layer over an external wallet library. This project models the sequential logic fcli adds on top of that library and proves what that logic promises:

- the session lifecycle of the wallet service (`wallet/service.go`), a class whose methods change its fields step by step: synchronise, stop, fee queries, recovery provisioning, and clean-up on failed create and restore;
- the command handler (`cli/handler.go`): grouping the transaction history by id, the newest-first sort, the history limit, bulk-transfer validation, the five-address cutoff of the account listing, and the up-to-date test of `sync`;
- the interactive input rules (`utils/prompt.go`): the mnemonic line fold and the `ReadLine` retry loop with its validators;
- the CLI handler (`cli/cli.go`): the wallet parameters, the existence guards and the four-words-per-row mnemonic display;
- the key helpers (`utils/crypto.go`): the address-type names and the control flow of deriving an address and WIF;
- the `bulktransfer` command (`cmd/fcli/command/bulkTransfer.go`): validation order, and the JSON file replacing the address and amount lists.

Foreign calls are parameters of the member that makes them. This covers the Electrum and chain clients, the wallet database, bip39, hex, hdkeychain, address decoding, `strconv`, the terminal and the file system. Most are functions from input to a `Result`; a few are an `Outcome` (success or a cause). `log.Fatalf` is a failure value that ends the command.

Modules, one per file:

- `Wrappers`: `Option`, `Result`, `Outcome` and an opaque `Cause`.
- `GoStrings`: `strings.TrimSpace`, `strings.Fields`, `strings.Join` and `strings.ToLower` as the source uses them.
- `HdKeys`: opaque extended keys and the shapes of the key-library calls.
- `WalletService`, `Handler`, `Prompt`, `Cli`, `Crypto`, `BulkTransferCmd`.

Behaviour of the code worth noting, which the model follows:

- `synchronize` does not shut down a client whose `Start` failed. The deferred shutdown is registered only after that check (wallet/service.go:69-78).
- A successful re-synchronisation replaces `electrumClient` without shutting down the previous client.
- A failure before `stopService` (a chain client that fails to start) leaves the previous `synced` flag as it was, which may be 1. A failed `synchronize` does not always clear the flag.
- `Recover` synchronises with `synchronize(false)` (wallet/service.go:310), so after it the flag is 1 while no watcher runs.
- The CLI does not use `wallet/service.go`. It uses the external `walletmgr.WalletService`, so `Cli` and `WalletService` are modelled independently.

## Model

| member | source | states |
|---|---|---|
| WalletService.WalletService.constructor | wallet/service.go:39-50 | A new service has no session: flag 0, stop channel open, no watcher, no chain sync, no client; the session invariant holds |
| WalletService.WalletService.IsSynced | wallet/service.go:56-58 | Under the session invariant, a synced service has an open wallet and a client, and a running watcher implies synced |
| WalletService.WalletService.StopService | wallet/service.go:379-388 | No-op when the flag is 0; otherwise the flag becomes 0, the stop channel is closed (it was open, so the close cannot panic), no watcher and no chain sync remain, so a second call is a no-op; nothing else changes |
| WalletService.WalletService.SynchronizeSession | wallet/service.go:64-110 | Returns the error of the first failing step; a failed client start changes nothing; a failed chain start shuts the new client down and leaves the old session intact; a failed reopen shuts the new client down and leaves the flag 0 and the wallet closed; success sets flag 1, an open wallet, the new client, and a watcher exactly when `watch`; the invariant is preserved |
| WalletService.WalletService.Synchronize | wallet/service.go:60-62 | `synchronize(true)`: returns the first failing step's error; a failed client start changes nothing; a failed chain start shuts the new client down and leaves the old session intact; a failed reopen shuts the new client down and leaves flag 0, the wallet closed and no watcher; success sets flag 1, an open wallet, the new client and exactly one watcher |
| WalletService.WalletService.RelayFee | wallet/service.go:220-231 | NotLoaded when the wallet is not open, checked before ServerShutdown when not synced; otherwise the current client's answer |
| WalletService.WalletService.EstimateFee | wallet/service.go:233-244 | The same two guards in the same order, then the current client's estimate for the target |
| WalletService.LastAddressIndex | wallet/service.go:198-201 | The index is ExternalKeyCount-1 for a positive count and 0 for count 0, never wrapping below zero |
| WalletService.WalletService.GetLastAddress | wallet/service.go:189-214 | NotLoaded when not open or the account is nil, "can't derive" when its public key is nil; otherwise the address of key `LastAddressIndex` on the external branch, with each derivation error passed on |
| WalletService.WalletService.Recover | wallet/service.go:304-362 | NotLoaded before any sync and with nothing changed; the account and destroy count never change; `synchronize(false)`'s per-path state (a failed client start changes nothing, a failed chain start shuts the new client down and keeps the old session, a failed reopen shuts it down and leaves flag 0 and the wallet closed) with its error returned and nothing provisioned; after success flag 1, no watcher, the new client, no shutdown, then "not supported" for a non-Electrum client, else the provisioning |
| WalletService.WalletService.ProvisionAddresses | wallet/service.go:342-361 | The provisioning calls and the returned error are those of `ProvisionCalls` and `ProvisionStatus` |
| WalletService.ProvisionedBranches | wallet/service.go:347-359 | At most two provisioning calls, each with a positive count for the loaded account; the external branch is provisioned iff its count is positive, the internal iff its count is positive and the external step did not fail; external comes first |
| WalletService.ProvisionSucceeds | wallet/service.go:342-361 | Recovery returns nil iff the scan succeeded and every needed provisioning step succeeded |
| WalletService.PartialProvisioning | wallet/service.go:347-352 | A failed external step is returned after external addresses were requested and before internal ones: partial provisioning |
| WalletService.BackupData | wallet/service.go:364-377 | The hex form is always the seed's, even on a mnemonic error; nil error iff the mnemonic succeeds, and then the words are `strings.Fields` of the seed's mnemonic: non-empty blank-free tokens that split back from their single-space join; on a mnemonic error no words and the seed length in the error |
| WalletService.RestoreFrom | wallet/service.go:265-277 | A decoding or restoring error returns no backup; once decode and restore succeed the result is the seed's backup, so its hex form is returned even on a mnemonic error; nil iff decode, restore and mnemonic all succeed, and then the words are the fields of the seed's mnemonic |
| WalletService.WalletService.Create | wallet/service.go:161-175 | A failed creation returns only its error; otherwise the seed's backup; `DestroyWallet` is called exactly when an error is returned |
| WalletService.WalletService.RestoreByHex | wallet/service.go:257-278 | The backup of the hex-decoded seed after restoring; `DestroyWallet` is called exactly when an error is returned |
| WalletService.WalletService.RestoreByMnemonic | wallet/service.go:280-302 | As `RestoreByHex`, with the entropy of the words joined by single spaces |
| Handler.Classify | cli/handler.go:514-520 | MINED iff generated; SENT iff not generated and the amount is negative; RECEIVED iff not generated and the amount is non-negative |
| Handler.GroupRecords | cli/handler.go:491-521 | The grouping loop computes the map `Group` of the records |
| Handler.GroupKeys | cli/handler.go:497-508 | The map's keys are exactly the input's TxIDs, and each entry carries its own TxID |
| Handler.GroupFirst | cli/handler.go:498-508 | Timestamp, address and confirmations of an entry come from its TxID's first occurrence |
| Handler.GroupLast | cli/handler.go:510-520 | Amount and type of an entry come from its TxID's last occurrence |
| Handler.CollectEntries | cli/handler.go:523-527 | The collected slice lists every map entry exactly once, in some order |
| Handler.InsertNewest | cli/handler.go:529-534 | One insertion step: the sorted prefix grows by one, and the records are permuted |
| Handler.SortNewestFirst | cli/handler.go:529-534 | The array ends ordered by timestamp, non-increasing, and is a permutation of the input |
| Handler.Aggregate | cli/handler.go:489-537 | The history lists each grouped entry exactly once, with distinct TxIDs, newest first |
| Handler.OneRecordPerTxId | cli/handler.go:491-527 | Such a history has exactly one record per distinct TxID of the input |
| Handler.DistinctIdsCount | cli/handler.go:524-527 | Records with distinct TxIDs have as many TxIDs as records |
| Handler.Reordered | cli/handler.go:529-534 | Reordering preserves listing each entry exactly once |
| Handler.DistinctCountOnce | cli/handler.go:524-527 | Records with distinct TxIDs hold each record at most once |
| Handler.CountTwice | cli/handler.go:524-527 | A record at two positions occurs at least twice |
| Handler.LimitAsWritten | cli/handler.go:441-443 | As written: limit ≤ 0 keeps all, a limit up to the length keeps a prefix, and the slice fails exactly when limit exceeds the capacity |
| Handler.LimitAsWrittenPanics | cli/handler.go:441-443 | One record, capacity 1, limit 2: the slice is out of range |
| Handler.LimitAsWrittenShowsZero | cli/handler.go:441-443 | Three records, capacity 4 (what three appends allocate), limit 4: the three records and a zero-valued record are shown |
| Handler.Limit | cli/handler.go:441-443 | Corrected: a prefix of the history, of length min(limit, len) for limit > 0, and all of it for limit ≤ 0 |
| Handler.LimitAgrees | cli/handler.go:441-443 | Where the source's slice is in range, it equals the corrected limit |
| Handler.LimitKeepsNewest | cli/handler.go:440-443 | The limited history holds exactly the first records of the listing: as many as asked for and available, distinct, newest first, none newer left out |
| Handler.PrefixOfListing | cli/handler.go:440-443 | A prefix of a newest-first listing is newest first, lists entries of the map, and no entry left out is newer than one shown |
| Handler.PrintAllTransactionHistory | cli/handler.go:433-454 | A listing error is returned (without its message prefix); otherwise the shown records are the newest of the grouped history, with the limit applied |
| Handler.ConvertEach | cli/handler.go:372-386 | The conversion loop computes `ConvertAll`: all converted in order, or the first failure |
| Handler.ConvertAllMeaning | cli/handler.go:372-386 | Success iff every element converts, then element by element; otherwise the error is that of the first failing element |
| Handler.ConvertStep | cli/handler.go:372-386 | One loop step extends the converted prefix or keeps its first failure |
| Handler.ConvertFailedPrefix | cli/handler.go:372-386 | A failure in a prefix is the failure of the whole list |
| Handler.BulkOutcome | cli/handler.go:363-397 | A length mismatch is the first error; success iff the lengths agree, every amount and every address converts and the sync succeeds; the request then holds the typed password when none was given and the converted lists, each as long as the input lists |
| Handler.BulkTransfer | cli/handler.go:363-397 | A length mismatch aborts before anything is converted; then amounts, then addresses, then the password (typed if empty), then the sync, each failure ending the command; the result is `BulkOutcome` of its arguments |
| Handler.AddressLines | cli/handler.go:79 | One address line per address, in order |
| Handler.ListAddressLines | cli/handler.go:70-81 | The loop with its break computes `AddressListing` |
| Handler.AddressListingBound | cli/handler.go:70-81 | The count first, at most five addresses in order, then "...and N more" with N = len-5 exactly when there are more than five |
| Handler.IsUpToDate | cli/handler.go:277-286 | With a readable block, up to date iff its height reaches the startup height; with an unreadable one, iff the startup height is at most 0 |
| Handler.UpToDateMeaning | cli/handler.go:277-286 | Up to date iff the height reaches the startup height; an unreadable block counts as height 0; a higher block stays up to date |
| Prompt.DoneIsLowerDone | utils/prompt.go:77 | The letter-by-letter "done" test is `strings.ToLower(line) == "done"` |
| Prompt.KindOf | utils/prompt.go:74-94 | How one line is treated: "done" ends, a several-word first line is the phrase, one word is appended, anything else is skipped |
| Prompt.ReadMnemonic | utils/prompt.go:58-98 | The read loop computes `MnemonicOf`: the collected words joined by single spaces, or the fatal read error |
| Prompt.CollectedAreWords | utils/prompt.go:82-89 | Every collected entry is a non-empty, blank-free word |
| Prompt.CollectedExtends | utils/prompt.go:83-94 | Input only appends: earlier words are kept, in order |
| Prompt.PhraseSplitsIntoWords | utils/prompt.go:97 | `strings.Fields` of the returned phrase gives back exactly the collected words |
| Prompt.DoneEndsInput | utils/prompt.go:74-79 | A line that trims to "done" in any case ends input without adding a word |
| Prompt.WholePhraseAtOnce | utils/prompt.go:82-86 | A several-word line before any word is the whole phrase, and ends input |
| Prompt.OneWordContinues | utils/prompt.go:87-89 | A one-word line appends its word and reading continues |
| Prompt.IgnoredLine | utils/prompt.go:83-94 | A blank line, and a several-word line after words were collected, change nothing |
| Prompt.WordByWord | utils/prompt.go:67-95 | Word-by-word entry: single-word lines and then "done" give exactly those words |
| Prompt.ReadLine | utils/prompt.go:100-128 | Returns the first scanned input that is not "exit" and passes the validator, with every earlier read a failed scan or a rejected input; "exit" is the error return and is tested first |
| Prompt.AddressValidator | utils/prompt.go:154-164 | Rejects the empty string and nothing else |
| Prompt.AmountValidator | utils/prompt.go:132-141 | Accepts exactly the non-empty text that parses as a float |
| Prompt.ReadAddress | utils/prompt.go:153-167 | The first scanned non-empty input decides: "exit" exits, anything else is accepted; only failed scans and empty inputs come before it; the input runs out iff it holds nothing else |
| Prompt.ReadAmount | utils/prompt.go:130-151 | The first scanned input that is "exit" or a non-empty float decides: "exit" is the error return, a float is accepted as typed; only failed scans and rejected inputs come before it; the input runs out iff it holds nothing else |
| GoStrings.FieldsAreWords | wallet/service.go:374 | Every entry `strings.Fields` returns is a non-empty, blank-free word |
| GoStrings.FieldsOfJoin | utils/prompt.go:97 | Joining words with single spaces and splitting with `strings.Fields` gives the words back |
| Cli.NewWalletCliHandler | cli/cli.go:30-47 | Each copied config field reaches its parameter; the address scope is the default |
| Cli.ParamsFromCopiedFields | cli/cli.go:32-40 | Two configs give equal parameters iff their copied fields are equal |
| Cli.ProcessCommand | cli/cli.go:127-164 | Always returns true |
| Cli.MnemonicRows | cli/cli.go:67-70 | The rows read in order give back the words; ceil(n/4) rows of one to four words, only the last shorter than four |
| Cli.ExistenceAbort | cli/cli.go:50-56 | The guard aborts unless the existence check succeeded with the required answer |
| Cli.CreateWallet | cli/cli.go:49-79 | An existing wallet or a failed check aborts before prompting or creating; otherwise the password secures the new wallet, and the shown rows read back as its words |
| Cli.RestoreWallet | cli/cli.go:81-105 | An existing wallet or a failed check aborts before the mnemonic is read; an unreadable or invalid mnemonic aborts before the password prompt; otherwise the restore's outcome |
| Cli.RequireWallet | cli/cli.go:107-121 | Opens the wallet iff the check succeeded and it exists; a failed check aborts "unable to load wallet" with its cause, an absent wallet "not found", a failed open with its cause |
| Crypto.ParseAddrType | utils/crypto.go:16-37 | The inverse of `StrAddrType` on its names, never yielding an unnamed value |
| Crypto.StrAddrTypeRoundTrip | utils/crypto.go:16-37 | Each of the seven listed types gets its own name and every other value gets "PubKeyHash"; the name parses back; two types share a name iff they are shown as the same type |
| Crypto.NamesDiffer | utils/crypto.go:17-36 | Equal names mean the same shown type |
| Crypto.ParseOfName | utils/crypto.go:17-36 | Parsing a printed name gives the shown type |
| Crypto.StrAddrType | utils/crypto.go:16-37 | The name is "PubKeyHash" exactly for PubKeyHash and every unlisted value; a listed type's name parses back to that type |
| Crypto.PublicAddress | utils/crypto.go:41-54 | Each failing step (parse xpub, derive child, address) gives its own error; otherwise the address is the encoding of child `childIndex` of the xpub |
| Crypto.PrivateWif | utils/crypto.go:59-82 | Each failing step gives its own error, the external-branch error unwrapped; a public child key fails with `NotPrivate`; otherwise the WIF of the private child at the external branch then `childIndex` |
| Crypto.DeriveKeysFromXpub | utils/crypto.go:39-86 | Success iff the public address and, for a non-empty xpriv, the private WIF succeed; any failure returns two empty strings and the first failing step's error; on success the address is that of `childIndex` derived from the xpub, the WIF is empty for an empty xpriv, and otherwise it is the WIF of the private key at the external branch then the same `childIndex` |
| Crypto.EmptyWifIffNoXpriv | utils/crypto.go:56-85 | With a WIF encoder that never yields "", a successful result has an empty WIF iff the xpriv is empty |
| Crypto.PublicKeyHasNoWif | utils/crypto.go:74-77 | A non-private child key ends in the EC-private-key error with empty results |
| BulkTransferCmd.AddressesOf | cmd/fcli/command/bulkTransfer.go:55-57 | Entry i's address at index i, same length |
| BulkTransferCmd.AmountsOf | cmd/fcli/command/bulkTransfer.go:55-58 | Entry i's amount at index i, same length |
| BulkTransferCmd.SplitRoundTrip | cmd/fcli/command/bulkTransfer.go:53-58 | The two lists have equal length, and pairing them gives back the file's entries |
| BulkTransferCmd.PairRoundTrip | cmd/fcli/command/bulkTransfer.go:17-20 | Two equal-length lists are the split of their pairing |
| BulkTransferCmd.BulkTransferCommand.constructor | cmd/fcli/command/bulkTransfer.go:22-29 | The flags become the command's fields |
| BulkTransferCmd.BulkTransferCommand.Execute | cmd/fcli/command/bulkTransfer.go:31-64 | An invalid server returns an error with nothing changed; a file that cannot be opened or decoded stops the program with nothing changed; a decoded file replaces both lists by its entries' addresses and amounts, in order; with no file the lists are unchanged; the wallet is then required, and the transfer runs only if that succeeded, and then it is `BulkOutcome` of the passphrase and the lists as they stand, never failing the length check for file input |

## Left out

- The watcher goroutine, its timers and channel fan-out, and `Watch` (wallet/service.go:112-159). Only the number of live watchers is modelled, so a watcher's notifications and the wait in `stopService` are abstract.
- The progress-forwarding goroutine of `Recover`, with its non-blocking send (wallet/service.go:319-340). This is concurrency.
- The ten-second context timeouts, `cancel` and the health channel. These are time and concurrency.
- Foreign calls are parameters: Electrum and chain clients, wallet open, close, create, restore and destroy, bip39, hex, hdkeychain, `DecodeAddress`, `NewAmount`, the JSON decoder, `os.Open`, URI validation.
- WalletService.WalletService.SynchronizeSession: models a failed `OpenWallet` as leaving the wallet closed, and does not model `OpenWallet` reloading `account`.
- WalletService.WalletService.Create: `DestroyWallet` is modelled only as a call count. The password, seed length and account name it passes on are not modelled.
- WalletService.WalletService.ProvisionAddresses: a nil `ws.account` would panic in Go during provisioning. The model returns the error `NilAccount` instead.
- WalletService.WalletService.EstimateFee: the `uint32` target is bounded to 0..2^32-1 by its precondition. The `float32` fee is an opaque `int` produced by the client.
- `Balance`, `FetchTransactions`, `GetNextAddress` and `IsOpened` are one-line pass-throughs to the wallet library and are not modelled.
- Handler.Aggregate: the amount is an opaque signed `int` and the timestamp is integer seconds. Formatting to local time and parsing back as UTC is not modelled, so neither is its effect on ordering around daylight-saving changes.
- Handler.Aggregate: the source updates a record through a pointer stored in the map; the model writes the updated record back into the map. Go's random map iteration order is an arbitrary choice. `sort.Slice` is unstable, so the order among equal timestamps is left unspecified.
- Handler.PrintAllTransactionHistory: uses the corrected `Limit` (see Findings). The "failed to list transactions" prefix of the returned error and printing are not modelled.
- Handler.BulkTransfer: amounts are `real` values converted by a parameter. The wait on the `Watch` channels, `BulkSimpleTransfer` and printing the hash are not modelled.
- `ListAccounts`' account loop, the height, block hash, name and balance printing, and the two fetch errors are output and foreign calls. Only the address listing of one account is modelled.
- `Sync`'s block fetching, goroutine and waiting are left out; only its `IsUpToDate` test is modelled. Heights are unbounded integers rather than `int32`.
- Prompt.ReadLine: the model's input is finite. It ends in `Exhausted` where the source would keep prompting. `fmt.Scanln`'s tokenising is a parameter (each scan is one token or a failure).
- GoStrings.ToLower: case folding covers ASCII letters only. For "done" this is exact: the only non-ASCII characters Go lowercases to ASCII letters are U+0130 and U+212A, which become 'i' and 'k', and neither letter is in "done".
- `ReadPassword` and the terminal are left out. The typed password is a parameter.
- Cli.CreateWallet: the row padding and frame characters of the display are not modelled, only the rows' words.
- Cli.RestoreWallet: the success message and the printed explanation are not modelled.
- Crypto.DeriveKeysFromXpub: the network parameter and the address encoding are one encoder parameter. `ECPrivKey` is modelled as failing exactly on a public key.
- Flag parsing in cmd/fcli/main.go and the other command dispatchers are not part of this model.

## Findings

| source | as written | input that shows it | evidently intended | confidence | as-written member | corrected member |
|---|---|---|---|---|---|---|
| cli/handler.go:441-443 | `cleanHistory[:limit]` for every positive `limit`: it panics when `limit` exceeds the slice's capacity, and shows zero-valued records when `limit` lies between the length and the capacity | a history of one transaction (capacity 1) with `--limit 2` panics; a history of three transactions (capacity 4 after three appends) with `--limit 4` shows them and a zero record | keep the first `min(limit, len)` records | not executed | Handler.LimitAsWritten, Handler.LimitAsWrittenPanics, Handler.LimitAsWrittenShowsZero | Handler.Limit, Handler.LimitKeepsNewest, Handler.LimitAgrees |
