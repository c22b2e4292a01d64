# Tansanit wallet and client core, modelled in Dafny

This project models the two stateful parts of the Tansanit Bismuth client.

**The multi-address wallet** (`MultiWallet`, multiwallet.py) is a lock/encryption
state machine over two parallel address lists:
- the decrypted in-memory records;
- the persisted list, which holds plaintext records or ciphertexts.

`encrypt`, `lock` and `unlock` move the wallet between states. `new_address`,
`import_der`, `set_label` and `set_address` edit the two lists under the
guards of those states; `set_spend` replaces the spend setting, sealed under
the master password when the wallet is encrypted. The class invariant (`Wallet.MultiWallet.Valid`)
says:
- a locked wallet is an encrypted one and holds neither a master password nor decrypted records;
- a plaintext wallet holds no master password and persists exactly its records, in order;
- an unlocked encrypted wallet can open every persisted ciphertext with the master password it holds, and the ciphertexts open to the same records as the in-memory list (in the order `set_address` left them).

Every method preserves that invariant. The cipher is abstract: `Seal(pw, x)`
opens to `x` under `pw` and under no other password (`Sealing`).

**The client** (`BisClient`, bisclient.py) covers:
- the 30-second session cache;
- first-fit server selection over a reachability oracle;
- the merge of rediscovered servers into the known list;
- the alias cache, with its one-hour and one-day lifetimes;
- the drift-corrected timestamp, transaction id and reply classification of `send`;
- the clock drift measured by `status`;
- clearing the session cache when the selected address changes.

Times are integer milliseconds. The 0.1-second safety margin is 100 ms, and the
alias lifetimes are 3 600 000 and 86 400 000 ms.

The following are parameters of the operations that use them:
- reachability (`lwbench.connectible`);
- the discovered server list (`bismuthapi.get_wallet_servers_legacy`);
- the server replies (`command`, where `None` means the command raised);
- the generated keys;
- the key file read by `import_der`;
- the signing function.

Files:
- `wrappers.dfy`: `Option`, `Result` and `Outcome` (an operation that passes or raises).
- `sealing.dfy`: the abstract cipher.
- `wallet_lists.dfy`: the pure list operations of the wallet and the loops that build its lists.
- `wallet.dfy`: class `MultiWallet`, plus the as-written versions of the findings below.
- `servers.dfy`: "ip:port" rendering and parsing, the known-server merge, and first-fit order.
- `aliases.dfy`: the pure parts of `get_aliases`.
- `client.dfy`: class `BisClient`.

The client creates its wallet as `BisMultiWallet` (bisclient.py:14, 409, 419). The model takes
that class to be `MultiWallet` of multiwallet.py, so `load_multi_wallet` and the client's
`set_address` are modelled on top of `Wallet.MultiWallet`.

Three places where the code does less than its comments suggest; the model follows the code:
- The comment at bisclient.py:32 says the `REJECT_EMPTY_MSG` addresses need a message, but `send` (bisclient.py:280-310) never checks it. `reject_empty_msg` is only list membership.
- An empty server reply to `send` never reaches the "Server timeout" branch (bisclient.py:298-309). Indexing its last element at line 298 raises first, the generic handler swallows the error, and nothing is appended to `error_reply`.
- `lock` forgets the master password, the decrypted records and the selected address (multiwallet.py:141-146), but not `key` or `public_key`. A locked wallet therefore still signs in `send` (bisclient.py:290-291). `Wallet.MultiWallet.Lock` keeps both, as the code does.

## Model

The reference definitions of `WalletLists` carry no contract of their own and
have no row: `Plains` (the plaintext persisted list, multiwallet.py:87),
`SealAll` (the ciphertext list of `encrypt`, multiwallet.py:117-121),
`OpenAll` (the decryption of `unlock`, multiwallet.py:155-159), and
`Relabelled`, `Resealed` and `ResealLabel` (the relabel of `set_label`,
multiwallet.py:196-203). What they mean is stated by the rows of
`SealRecords`, `OpenRecords`, `OpenSealAll`, `Relabel`, `OpenResealLabel`,
`MultiWallet.Unlock` and `MultiWallet.SetLabel`, which are proved against them.

| member | source | states |
|---|---|---|
| Sealing.Seal | multiwallet.py:121 | a ciphertext is bound to the password it was sealed with |
| Sealing.Open | multiwallet.py:158 | decryption succeeds exactly under the sealing password and then yields the sealed content |
| Sealing.OpenSeal | multiwallet.py:158 | opening a sealed value gives it back iff the password is the sealing one |
| WalletLists.OpenSealAll | multiwallet.py:117-160 | decrypting the list `encrypt` produced gives back the records in order under the same password, and fails under any other (for a non-empty list) |
| WalletLists.Relabel | multiwallet.py:196-199 | the in-memory list after `set_label`: same length and addresses, the records of the address carry the new label, every other record is untouched |
| WalletLists.RelabelMultiset | multiwallet.py:196-203 | two lists holding the same records in any order still hold the same records once relabelled (so the persisted and in-memory lists stay in step) |
| WalletLists.FirstIndex | multiwallet.py:262-265 | the index the enumerate-and-break loops stop at: a record of the address with none before it |
| WalletLists.RelabelKeepsAddresses | multiwallet.py:196-199 | relabelling neither adds nor removes an address |
| WalletLists.OpenResealLabel | multiwallet.py:196-203 | re-sealing the ciphertexts of an address with a new label decrypts to the relabelled records: no record is lost or swapped |
| WalletLists.MoveToFront | multiwallet.py:262-265 | `insert(0, pop(i))` keeps the length and puts element i first |
| WalletLists.MoveToFrontPermutes | multiwallet.py:262-265 | moving to the front is a permutation that keeps every other element in its relative order |
| WalletLists.MoveToFrontPlains | multiwallet.py:262-279 | reordering a plaintext wallet's two lists the same way keeps them parallel |
| WalletLists.IndexOfAddress | multiwallet.py:287-290 | the loop finds the first record of the address, or reports -1 exactly when there is none |
| WalletLists.IndexOfStored | multiwallet.py:276-279 | the loop finds the first plaintext persisted entry of the address, or -1 exactly when there is none |
| WalletLists.SealRecords | multiwallet.py:117-121 | the loop seals record i into entry i under the password, for every i, and nothing else |
| WalletLists.OpenRecords | multiwallet.py:155-159 | the loop decrypts every entry in order, and fails exactly when some entry does not open under the password |
| Wallet.PlainRecords | multiwallet.py:87 | the copied records persist back as exactly the plaintext list they came from |
| Wallet.NewRecord | multiwallet.py:176-178 | a new record carries the generated address, the label, and the current time in whole seconds |
| Wallet.StoredFor | multiwallet.py:180-186 | a new persisted entry is sealed with the master password (and opens to the record) iff the wallet is encrypted, else it is the plain record |
| Wallet.OpenAllAppend | multiwallet.py:180-183 | appending a record sealed with the master password keeps the persisted list decryptable, with that record last |
| Wallet.PlainsFirstIndex | multiwallet.py:267-279 | in a plaintext wallet the persisted loop stops at the same index as the in-memory one |
| Wallet.MultiWallet.constructor | multiwallet.py:30-39 | the fresh wallet is unlocked, unencrypted and empty, with no password and no key |
| Wallet.MultiWallet.Load | multiwallet.py:80-97 | a plaintext file is copied to memory; an encrypted one is unlocked with the password, and fails without a matching one; the first record becomes the selected address, or none; `_infos['spend']` is the file's setting, decrypted when the file is encrypted; the key stays unset |
| Wallet.MultiWallet.PasswordOk | multiwallet.py:105-106 | on a locked wallet exactly the empty password passes; on an unlocked encrypted wallet a passing password opens every persisted ciphertext |
| Wallet.MultiWallet.Encrypt | multiwallet.py:108-133 | refused, changing nothing, for an empty, locked or already encrypted wallet; otherwise entry i is record i sealed under the password, the spend setting is sealed, and the wallet is encrypted, unlocked and holds the password |
| Wallet.MultiWallet.Lock | multiwallet.py:135-146 | refused for a never-encrypted or empty wallet; otherwise forgets the password, the records and the selected address and is locked; the persisted data are untouched |
| Wallet.MultiWallet.Unlock | multiwallet.py:148-168 | a no-op unless locked and encrypted; a password that fails on any record changes nothing; otherwise the records are decrypted in order, and a spend-setting failure raises only after the wallet is unlocked |
| Wallet.MultiWallet.NewAddress | multiwallet.py:170-187 | refused on a locked encrypted wallet; otherwise appends exactly one record to both lists, sealed in the persisted list iff encrypted |
| Wallet.MultiWallet.SetLabel | multiwallet.py:189-206 | refused on a locked encrypted wallet; otherwise changes only the labels of the records of the address, in memory and in the persisted list (corrected; see Findings) |
| Wallet.MultiWallet.SetSpend | multiwallet.py:208-222 | refused on a locked wallet or a wrong password; otherwise stores the setting ("None" meaning no type), sealed iff encrypted (corrected; see Findings) |
| Wallet.MultiWallet.IsAddressInWallet | multiwallet.py:283-290 | refused on a locked encrypted wallet; otherwise true iff some record has the address |
| Wallet.MultiWallet.GetKey | multiwallet.py:292-299 | refused on a locked encrypted wallet; otherwise the first record of the address, or none iff there is no such record |
| Wallet.MultiWallet.SetAddress | multiwallet.py:247-281 | refused, changing nothing, when locked or when the address is unknown; otherwise selects it, moves its first record to the front of memory, and reorders the persisted list the same way only when not encrypted |
| Wallet.MultiWallet.ImportDer | multiwallet.py:301-319 | refused when locked, when the key file cannot be read, or for a known address, with both lists unchanged; otherwise appends the labelled record to both lists, sealed iff encrypted |
| Wallet.EncryptLockUnlock | multiwallet.py:108-168 | encrypt, lock, then unlock with the same password restores the same records in the same order |
| Wallet.SetLabelAsWritten | multiwallet.py:189-206 | the index-based relabel as written raises exactly when it takes the plaintext branch on a ciphertext; when it raises, the in-memory record at that index already has the new label and the later ones are untouched; otherwise the in-memory list is relabelled |
| Wallet.SetLabelAsWrittenLosesRecord | multiwallet.py:196-203 | after selecting B in an encrypted wallet stored as [A, B], relabelling A as written loses B from the persisted list |
| Wallet.SetLabelAsWrittenEmptyPasswordRaises | multiwallet.py:196-205 | with the empty master password, relabelling as written raises on an encrypted wallet, after the in-memory record got its new label |
| Wallet.SetSpendAsWritten | multiwallet.py:208-222 | as written, the spend setting is accepted iff the password equals the master password held, and is sealed under that password |
| Wallet.SetSpendAsWrittenBreaksUnlock | multiwallet.py:208-218 | as written, a locked wallet accepts the empty password and seals the spend setting so that the real password no longer opens it |
| ServerList.Render | bisclient.py:151 | "ip:port": the ip, then ':', then the port |
| ServerList.RenderAll | bisclient.py:201 | one "ip:port" per server record, in order |
| ServerList.IndexOfChar | bisclient.py:156 | the first occurrence of the separator |
| ServerList.Split | bisclient.py:156-157 | `split(':')` yields at least one field and no field contains the separator |
| ServerList.JoinSplit | bisclient.py:156-157 | splitting loses nothing: joining the fields gives back the text |
| ServerList.SplitRender | bisclient.py:151-157 | a rendered server splits back into its ip and port |
| ServerList.Configured | bisclient.py:154-162 | a configured server yields a record iff it contains ':', with load and height "N/A" |
| ServerList.ConfiguredAll | bisclient.py:154-162 | the records of all configured servers, in order, or a failure iff one of them has no port |
| ServerList.ConfiguredRender | bisclient.py:151-162 | parsing the rendering of server records gives back their ips and ports |
| ServerList.MergeKnown | bisclient.py:193-199 | the merge appends at most the known servers to the discovered list |
| ServerList.MergeKeepsFresh | bisclient.py:193-199 | the merge keeps the discovered servers first and in order, and adds at most the known ones |
| ServerList.MergeKeepsKnown | bisclient.py:193-199 | no previously known server is dropped by the merge |
| ServerList.MergeOnlyKnown | bisclient.py:193-199 | every merged server was discovered or previously known |
| ServerList.MergeSkipsListed | bisclient.py:193-199 | a known server whose endpoint is already listed is not appended again |
| ServerList.MergeNoDuplicates | bisclient.py:193-199 | a merged list without duplicate endpoints stays without duplicate endpoints |
| ServerList.MergeServers | bisclient.py:187-199 | the nested loop computes the merge: discovered first, every known endpoint present, nothing invented |
| ServerList.FirstReachable | bisclient.py:167-180 | the first reachable server in list order, or none iff none is reachable |
| AliasCache.Dedup | bisclient.py:69 | the deduplicated addresses: no repeats, and the same addresses |
| AliasCache.Hits | bisclient.py:70 | exactly the requested addresses with a still-valid entry, each with its cached alias |
| AliasCache.Misses | bisclient.py:73 | the requested addresses without a still-valid entry, without repeats |
| AliasCache.ZipMap | bisclient.py:77 | `dict(zip(...))` has only batch addresses as keys, and has every address that got a reply |
| AliasCache.ZipMapAt | bisclient.py:77 | each batch address maps to the reply at its own position |
| AliasCache.Expiry | bisclient.py:79-83 | a looked-up address is kept one hour without alias, one day with one, always in the future |
| AliasCache.WriteBack | bisclient.py:78-83 | the cache after the write-back holds the old keys and the new lookups; each new lookup has its alias and a future expiry, every other entry is as it was |
| AliasCache.Answer | bisclient.py:89 | `{**cached, **new}` holds the keys of both, and a new lookup takes precedence over a cached one |
| AliasCache.AnswerCovers | bisclient.py:68-89 | the answer holds only requested addresses, and all of them when every miss got a reply; hits come from the cache and misses from the reply at their position |
| AliasCache.BatchIsMisses | bisclient.py:70-74 | the one batch asks for exactly the requested addresses without a still-valid entry, none twice |
| AliasCache.WriteBackExpiry | bisclient.py:78-83 | the write-back stores each new alias with its one-hour or one-day expiry and leaves every other entry as it was |
| AliasCache.NoRequeryBeforeExpiry | bisclient.py:70-83 | a looked-up address is not asked again before its entry expires |
| Client.Lookup | bisclient.py:106-111 | a cached value is returned iff present and stored at most the timeout ago (inclusive) |
| Client.LookupAfterStore | bisclient.py:106-114 | a stored value reads back for exactly the timeout, and storing one key leaves the others unchanged |
| Client.Truthy | bisclient.py:218-219 | a cached page counts as a hit only when it is non-empty; a cached status always does |
| Client.Decimal | bisclient.py:216 | the printed number is all digits, one digit exactly below 10 |
| Client.DecimalInjective | bisclient.py:216 | different numbers print differently |
| Client.SplitAtDash | bisclient.py:216 | the text around the first '-' determines both parts |
| Client.TxKey | bisclient.py:216 | a page key never collides with the status key |
| Client.TxKeyInjective | bisclient.py:216 | different (num, offset) pages never share a cache entry |
| Client.SendTimestamp | bisclient.py:285-288 | the signed time is never after local time, and is moved back by drift plus 100 ms exactly when the drift is positive |
| Client.SendNotInFuture | bisclient.py:285-288 | with the drift measured by status, a later send is never stamped after the server's clock |
| Client.TxId | bisclient.py:292 | the id is a prefix of the signature of length min(56, length) |
| Client.RejectEmptyMsg | bisclient.py:276-278 | true exactly for the three hard-coded addresses |
| Client.StoreAliases | bisclient.py:78-83 | the loop over the new lookups produces the written-back cache |
| Client.WriteBackStep | bisclient.py:78-83 | each loop step adds one entry to the written-back cache |
| Client.ProbeInOrder | bisclient.py:167-180 | the probing loop stops at the first reachable server, or finds none iff none is reachable |
| Client.BisClient.constructor | bisclient.py:37-51 | a fresh client has the configured servers, no server, connection, wallet or address, empty caches and zero drift |
| Client.BisClient.SetCache | bisclient.py:113-114 | the entry is stamped with the current time and reads back at once; nothing else changes |
| Client.BisClient.ClearCache | bisclient.py:116-117 | afterwards every key reads as absent |
| Client.BisClient.SetServer | bisclient.py:125-140 | a reachable server becomes current with a connection to it and is returned; an unreachable one leaves neither |
| Client.BisClient.BuildServerList | bisclient.py:149-162 | configured servers are used as they are, discovery only when none is configured; a configured server without a port raises |
| Client.BisClient.ConnectFirst | bisclient.py:164-180 | probes the list in order, connects to the first reachable server and probes none after it; with none reachable, no server and no connection |
| Client.BisClient.GetServer | bisclient.py:142-180 | probes in list order, commits to the first reachable server and probes none after it; with none reachable, no server and no connection |
| Client.BisClient.RefreshServers | bisclient.py:182-201 | discovered servers first and in order, then every known server not rediscovered; none dropped; `servers` is the rendering of the records; raises when no list was ever built |
| Client.BisClient.GetAliases | bisclient.py:65-89 | hits come from the cache, all misses go in one batch, the answers are written back with their lifetimes, and a new answer wins over a cached one |
| Client.BisClient.LatestTransactions | bisclient.py:205-230 | nothing without an address and a wallet; a non-empty page cached within 30 s is returned; otherwise the page is requested, with or without offset, and cached (empty when the request fails) |
| Client.BisClient.Status | bisclient.py:366-397 | a status cached within 30 s is returned; otherwise drift = local time minus the server timestamp (0 without one) is kept and cached with the status; nothing changes when the request fails |
| Client.BisClient.Send | bisclient.py:280-310 | the id is returned iff the reply's last element is "Success", and it is the signature's first 56 characters at the drift-corrected time; otherwise that element is appended to the error list |
| Client.BisClient.SetAddress | bisclient.py:418-424 | without a wallet it raises; when the wallet refuses, the wallet and the cache are unchanged; on success the wallet moved the address's first record to the front and holds its key, the client's address is the wallet's, and the cache is cleared iff the address changed |
| Client.BisClient.LoadMultiWallet | bisclient.py:399-416 | loads the wallet, creates a "default" address in an empty one, and takes the wallet's address, clearing the cache iff that address is set; the new wallet is unencrypted, unlocked and has no key yet; an encrypted file leaves no wallet |
| Client.NewClient | bisclient.py:37-53 | a new client over the configured servers, with no server, connection or probe, empty caches and zero drift, and its wallet loaded as `load_multi_wallet` does (records, "default" address, no key) |

## Left out

- Writing and reading files is not modelled: `MultiWallet.save`, creating a missing wallet file with a random salt, `get_der_key`, and the alias-cache file (`set_alias_cache_file`, bisclient.py:57-63, and its save inside `get_aliases`, bisclient.py:85-87). The parsed wallet file is `Load`'s `WalletFile` argument, and the key-file record is `ImportDer`'s argument.
- Cryptography is abstract. Encryption is `Seal`/`Open`, key generation is the `KeyPair` argument, and transaction signing is `Send`'s `sign` argument. `RSA.importKey` is reduced to keeping the private-key text.
- The `sign`, `encrypt` and `decrypt` wrappers of the client (bisclient.py:318-364) are left out, because they only forward to the cryptography.
- Networking is abstract. `connectible` is the `reachable` oracle and discovery is the `discovered` list. `command` is not modelled: its replies are arguments, and its lazy call to `get_server` (bisclient.py:468-470) is left out.
- `balance` and `global_balance` (bisclient.py:232-274) are left out, because the amounts they return are decimals the model does not represent. Both return 'N/A' without an address or wallet, `global_balance` first raises for a wallet that is not a multi-wallet, and they send `balanceget` and `globalbalanceget`. `balance` also reads and writes the session cache under the key 'balance'; that entry is not modelled, so `Client.CacheShaped` only describes the status entry and the transaction pages.
- Floating-point amounts and the `'%.2f'`/`'%.8f'` formatting of the submitted transaction are left out. The amount is text.
- `TxFormatter` is left out: transaction pages are lists of opaque strings.
- The `timedelta` uptime text in `status` is left out.
- A `server_timestamp` that `float()` cannot convert is not modelled: the timestamp is already an integer.
- `alias_exists` and `has_alias` are left out, because they fail as written: dict keys are unpacked as pairs, and a dict is compared with `''`.
- Trivial accessors and delegations are left out: `info`, `wallet`, `addresses`, `current_server`, and the client's `new_address`/`import_der` delegations (bisclient.py:426-458). The same applies to `MultiWallet.info`, `_infos['address']`/`_infos['file']`, logging and verbose printing.
- tansanit.py is not part of this model: it is command-line and interactive user-interface code.
- `Encrypt`'s unused `current_password` parameter is left out.
- Sharing of the same record dict between the two lists of a plaintext wallet (`new_address` appends one dict to both) is not modelled. The model holds values, and the two lists are kept equal by the invariant instead.
- Client.BisClient.GetAliases: Python's `set` iteration order is arbitrary; the model uses first-occurrence order for the batch.
- Client.BisClient.Send: the shared mutable default `error_reply=[]` is modelled as a list passed in and returned. Sharing between calls is not modelled.
- Client.BisClient.Send: each call reads the clock once (`now`), while the source reads it several times; the same holds for Client.BisClient.Status and Client.BisClient.LatestTransactions.
- Client.TxKeyInjective: stated for non-negative page sizes and offsets only; negative values, which print with a leading '-', are not covered.
- Wallet.MultiWallet.SetAddress: its ensures states the result through `MoveToFront`. That the result is a permutation keeping the relative order of the other records is the separate lemma `WalletLists.MoveToFrontPermutes`.
- Wallet.MultiWallet.Load: only the state set up after the file is read (multiwallet.py:80-97) is modelled.
- Wallet.MultiWallet.Load: requires an empty in-memory record list, as `__init__` leaves it before it calls `load` (multiwallet.py:38-41). A second `load` of an encrypted file on a wallet that already holds records, which keeps those records while locked, is not modelled.
- Wallet.MultiWallet.Load: requires `WellFormed(file)`, so only wallet files this program writes are read: a plaintext file holds plaintext records and a plain spend setting, an encrypted one a sealed spend setting. Hand-edited files that mix the two are not covered.
- Sealing.Seal: seals under any password, including `''`. Whether simplecrypt refuses an empty password is not known from the repository's code (the library is not part of this model); the second and third rows under "## Findings" rest on it accepting one.
- Client.BisClient.LatestTransactions: `num` and `offset` are natural numbers; negative page sizes or offsets are not modelled.

## Findings

| source | as written | input that shows it | evidently intended | confidence | as-written member | corrected member |
|---|---|---|---|---|---|---|
| multiwallet.py:196-203 | relabelling writes the re-sealed record i of the in-memory list into persisted entry i, but `set_address` reorders only the in-memory list of an encrypted wallet | encrypted wallet persisted as [A, B]; `set_address(B)`; `set_label(A, "x")` overwrites B's ciphertext, and B is lost | re-seal the ciphertext that holds the record of the address | not executed | Wallet.SetLabelAsWrittenLosesRecord | Wallet.MultiWallet.SetLabel |
| multiwallet.py:200-205 | the re-seal branch also requires a non-empty master password, so a wallet encrypted with `''` takes the plaintext branch and indexes a ciphertext as a dict (TypeError) after the in-memory label changed | assuming simplecrypt seals under `''`: `encrypt('')`, then `set_label(a, "x")` | re-seal whenever the wallet is encrypted | not executed | Wallet.SetLabelAsWrittenEmptyPasswordRaises | Wallet.MultiWallet.SetLabel |
| multiwallet.py:208-218 | `set_spend` only compares the password with the master password held, which is `''` on a locked wallet | assuming simplecrypt seals under `''`: locked encrypted wallet; `set_spend('x', 'y', '')` seals the setting under `''`, and every later `unlock` with the real password raises | refuse on a locked wallet, like the other editing operations | not executed | Wallet.SetSpendAsWrittenBreaksUnlock | Wallet.MultiWallet.SetSpend |
