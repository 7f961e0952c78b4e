/**
 * The session lifecycle of wallet/service.go: the `WalletService` that connects the wallet to
 * an Electrum server, tears the previous session down before it starts a new one, answers fee
 * queries, drives the address-recovery scan, and cleans up after a failed create or restore.
 *
 * Every call into the Electrum client, the chain client, the wallet database, bip39 and hex
 * is a foreign call; its outcome is a parameter of the method that makes it. The watcher
 * goroutine is represented only by how many of them are alive.
 */
module WalletService {
  import opened Wrappers
  import opened GoStrings
  import opened HdKeys

  /** The identity of one `electrum.Client` value created by `electrum.NewClient`. */
  type ClientId = nat

  /** The fields of `waddrmgr.AccountProperties` the service reads. */
  datatype Account = Account(number: nat, pubKey: Option<ExtKey>, externalKeyCount: nat)

  datatype WalletError =
    | NotLoaded                          // wallet.ErrNotLoaded
    | ServerShutdown                     // electrum.ErrServerShutdown
    | External(cause: Cause)             // an error passed on unchanged from a foreign call
    | OpenFailed(cause: Cause)           // "failed to open wallet: ..."
    | RecoverNotSupported                // "recovering not supported !"
    | CannotDerive(account: nat)         // "account %d can't derive"
    | MnemonicFailed(seedLen: nat, cause: Cause)  // "unable to generate mnemonic: ..."
    | NilAccount                         // a nil `ws.account` dereferenced (a panic in Go)

  /** A Go `error` result: nil, or an error. */
  datatype Status = Nil | Failed(error: WalletError)

  /** What `Create`, `RestoreByHex` and `RestoreByMnemonic` return. */
  datatype Backup = Backup(hexData: string, words: seq<string>, err: Status)

  datatype Branch = ExternalChain | InternalChain

  /** One `NewAddressRPCLess` / `NewChangeAddressRPCLess` call. */
  datatype Provision = Provision(branch: Branch, accountNumber: nat, count: nat)

  /** What `electrumClient.Recover` found: how many external and internal addresses are in use. */
  datatype ScanCounts = ScanCounts(external: nat, internal: nat)

  // ---------------------------------------------------------------------------
  // Specification functions

  /** The error `synchronize` returns, in the order its steps run (lines 69-94). */
  function SyncStatus(clientStart: Outcome, chainStart: Outcome, openWallet: Outcome): Status {
    if clientStart.Fail? then Failed(External(clientStart.cause))
    else if chainStart.Fail? then Failed(External(chainStart.cause))
    else if openWallet.Fail? then Failed(OpenFailed(openWallet.cause))
    else Nil
  }

  /** The provisioning calls `Recover` makes after a scan (lines 342-359): external first, each
      only for a positive count, and none after a failed one. */
  function ProvisionCalls(account: Option<Account>, scan: Result<ScanCounts, Cause>, external: Outcome): seq<Provision> {
    match scan
    case Failure(_) => []
    case Success(counts) =>
      if account.None? then []
      else
        var ext := if counts.external > 0 then [Provision(ExternalChain, account.value.number, counts.external)] else [];
        var inner := if counts.internal > 0 then [Provision(InternalChain, account.value.number, counts.internal)] else [];
        if counts.external > 0 && external.Fail? then ext else ext + inner
  }

  /** The error `Recover` returns after its scan (lines 342-361). */
  function ProvisionStatus(account: Option<Account>, scan: Result<ScanCounts, Cause>, external: Outcome, internal: Outcome): Status {
    match scan
    case Failure(c) => Failed(External(c))
    case Success(counts) =>
      if counts.external > 0 && account.None? then Failed(NilAccount)
      else if counts.external > 0 && external.Fail? then Failed(External(external.cause))
      else if counts.internal > 0 && account.None? then Failed(NilAccount)
      else if counts.internal > 0 && internal.Fail? then Failed(External(internal.cause))
      else Nil
  }

  /** `backupData` (lines 364-377): the hex form is set before the mnemonic is tried, so it
      survives a mnemonic error; the words are the mnemonic split by `strings.Fields`. */
  function BackupData(seed: Seed, hexEncode: Seed -> string, newMnemonic: Seed -> Result<string, Cause>): (b: Backup)
    ensures b.hexData == hexEncode(seed)
    ensures b.err.Nil? <==> newMnemonic(seed).Success?
    ensures b.err.Failed? ==> b.words == [] && b.err.error == MnemonicFailed(|seed|, newMnemonic(seed).error)
    ensures b.err.Nil? ==> b.words == Fields(newMnemonic(seed).value)
    ensures b.err.Nil? ==>
              (Fields(Join(b.words, " ")) == b.words && forall k :: 0 <= k < |b.words| ==> IsWord(b.words[k]))
  {
    match newMnemonic(seed)
    case Failure(c) => Backup(hexEncode(seed), [], Failed(MnemonicFailed(|seed|, c)))
    case Success(m) =>
      var words := Fields(m);
      FieldsAreWords(m);
      FieldsOfJoin(words);
      Backup(hexEncode(seed), words, Nil)
  }

  /** The index `GetLastAddress` derives (lines 198-201): the last external key handed out, with
      the guard that keeps `ExternalKeyCount - 1` from wrapping around at zero. */
  function LastAddressIndex(externalKeyCount: nat): (i: nat)
    requires externalKeyCount <= MaxIndex
    ensures i <= MaxIndex
    ensures externalKeyCount > 0 ==> i < externalKeyCount && i + 1 == externalKeyCount
    ensures externalKeyCount == 0 ==> i == 0
  {
    if externalKeyCount > 0 then externalKeyCount - 1 else 0
  }

  /** `Recover` provisions a branch exactly when the scan succeeded, the account is loaded, the
      branch's count is positive, and (for the internal branch) the external step did not fail. */
  lemma ProvisionedBranches(account: Option<Account>, scan: Result<ScanCounts, Cause>, external: Outcome)
    ensures var calls := ProvisionCalls(account, scan, external);
      |calls| <= 2
      && (forall k :: 0 <= k < |calls| ==> calls[k].count > 0 && calls[k].accountNumber == account.value.number)
      && ((exists k :: 0 <= k < |calls| && calls[k].branch == ExternalChain)
          <==> scan.Success? && account.Some? && scan.value.external > 0)
      && ((exists k :: 0 <= k < |calls| && calls[k].branch == InternalChain)
          <==> scan.Success? && account.Some? && scan.value.internal > 0
               && (scan.value.external == 0 || external.Ok?))
      && (|calls| == 2 ==> calls[0].branch == ExternalChain && calls[1].branch == InternalChain)
  {
    var calls := ProvisionCalls(account, scan, external);
    if scan.Success? && account.Some? && scan.value.external > 0 {
      assert calls[0].branch == ExternalChain;
    }
    if scan.Success? && account.Some? && scan.value.internal > 0 && (scan.value.external == 0 || external.Ok?) {
      assert calls[|calls| - 1].branch == InternalChain;
    }
  }

  /** Recovery succeeds exactly when the scan and every provisioning step it needed succeeded. */
  lemma ProvisionSucceeds(account: Option<Account>, scan: Result<ScanCounts, Cause>, external: Outcome, internal: Outcome)
    ensures ProvisionStatus(account, scan, external, internal).Nil? <==>
      scan.Success?
      && (scan.value.external > 0 ==> account.Some? && external.Ok?)
      && (scan.value.internal > 0 ==> account.Some? && internal.Ok?)
  {
  }

  /** A failed external step is returned as is, after external addresses were requested and
      before internal ones are: the account can be left partially provisioned. */
  lemma PartialProvisioning(account: Account, counts: ScanCounts, cause: Cause, internal: Outcome)
    requires counts.external > 0 && counts.internal > 0
    ensures ProvisionCalls(Some(account), Success(counts), Fail(cause))
      == [Provision(ExternalChain, account.number, counts.external)]
    ensures ProvisionStatus(Some(account), Success(counts), Fail(cause), internal) == Failed(External(cause))
  {
  }

  // ---------------------------------------------------------------------------
  // The service

  class WalletService {
    /** The `*int32` flag read and written with `atomic`: 1 while a session is synced. */
    var synced: int
    /** `WalletAccess.isOpened`. */
    var isOpened: bool
    /** `WalletAccess.account`. */
    var account: Option<Account>
    /** Whether the current `ws.stop` channel has been closed. */
    var stopClosed: bool
    /** How many watcher goroutines are alive (the count held by `ws.wg`). */
    var watchers: nat
    /** Whether the wallet is synchronising with a chain client (`SynchronizeRPC` vs `Stop`). */
    var chainSyncing: bool
    /** `ws.electrumClient`: the client the fee queries go to. */
    var electrumClient: Option<ClientId>
    /** Every client `Shutdown` was called on, in order. */
    var shutdowns: seq<ClientId>
    /** How many times `DestroyWallet` was called. */
    var destroyCalls: nat
    /** Every address-provisioning call made, in order. */
    var provisioned: seq<Provision>

    /** The session invariant: the flag is 0 or 1; a synced session has an open wallet, an open
        stop channel, a running chain sync and a client; at most one watcher is alive, and only
        in a synced session. */
    ghost predicate Valid()
      reads this
    {
      (synced == 0 || synced == 1)
      && (synced == 1 ==> isOpened && !stopClosed && chainSyncing && electrumClient.Some?)
      && watchers <= 1
      && (watchers > 0 ==> synced == 1)
      && (chainSyncing ==> synced == 1)
    }

    /** `NewWalletService`: the wallet access that the external `New(params)` builds is given by
        `isOpened` and `account`; no session exists yet. */
    constructor (isOpened: bool, account: Option<Account>)
      ensures Valid()
      ensures this.isOpened == isOpened && this.account == account
      ensures synced == 0 && !stopClosed && watchers == 0 && !chainSyncing && electrumClient == None
      ensures shutdowns == [] && destroyCalls == 0 && provisioned == []
    {
      synced := 0;
      this.isOpened := isOpened;
      this.account := account;
      stopClosed := false;
      watchers := 0;
      chainSyncing := false;
      electrumClient := None;
      shutdowns := [];
      destroyCalls := 0;
      provisioned := [];
    }

    /** `IsSynced`: a synced service always has an open wallet and a client to ask, and while a
        watcher runs the service reports itself synced. */
    function IsSynced(): (r: bool)
      reads this
      requires Valid()
      ensures r ==> isOpened && electrumClient.Some?
      ensures watchers > 0 ==> r
    {
      synced == 1
    }

    /** `stopService` (lines 379-388): a no-op when not synced; otherwise it stops the chain
        sync, clears the flag, closes the stop channel (which was open, so the close cannot
        panic) and waits for the watcher to return. Afterwards the flag is 0, so a second call
        changes nothing. */
    method StopService()
      requires Valid()
      modifies this
      ensures Valid()
      ensures synced == 0
      ensures old(synced) == 0 ==> unchanged(this)
      ensures old(synced) == 1 ==> stopClosed && watchers == 0 && !chainSyncing
      ensures isOpened == old(isOpened) && account == old(account) && electrumClient == old(electrumClient)
      ensures shutdowns == old(shutdowns) && destroyCalls == old(destroyCalls) && provisioned == old(provisioned)
    {
      if synced == 0 {
        return;
      }
      chainSyncing := false;
      synced := 0;
      assert !stopClosed;
      stopClosed := true;
      watchers := 0;
    }

    /** `synchronize(watch)` (lines 64-110). A client that fails to start changes nothing; a
        chain client that fails to start gets the new client shut down and leaves the old
        session as it was; once the old session is stopped, a failure to reopen the wallet
        leaves the service unsynced with the new client shut down. On success the new client
        is current, and a watcher runs exactly when `watch` asks for one; the previous client
        is not shut down. */
    method SynchronizeSession(watch: bool, client: ClientId, clientStart: Outcome, chainStart: Outcome, openWallet: Outcome)
      returns (status: Status)
      requires Valid()
      modifies this
      ensures Valid()
      ensures status == SyncStatus(clientStart, chainStart, openWallet)
      ensures account == old(account) && destroyCalls == old(destroyCalls) && provisioned == old(provisioned)
      ensures clientStart.Fail? ==> unchanged(this)
      ensures clientStart.Ok? && chainStart.Fail? ==>
        shutdowns == old(shutdowns) + [client]
        && synced == old(synced) && isOpened == old(isOpened) && stopClosed == old(stopClosed)
        && watchers == old(watchers) && chainSyncing == old(chainSyncing) && electrumClient == old(electrumClient)
      ensures clientStart.Ok? && chainStart.Ok? && openWallet.Fail? ==>
        shutdowns == old(shutdowns) + [client]
        && synced == 0 && !isOpened && watchers == 0 && !chainSyncing && electrumClient == old(electrumClient)
        && stopClosed == (old(stopClosed) || old(synced) == 1)
      ensures status.Nil? ==>
        shutdowns == old(shutdowns)
        && synced == 1 && isOpened && !stopClosed && chainSyncing && electrumClient == Some(client)
        && watchers == (if watch then 1 else 0)
    {
      if clientStart.Fail? {
        return Failed(External(clientStart.cause));
      }
      // From here on, the deferred function shuts the new client down if an error is returned.
      label session: {
        if chainStart.Fail? {
          status := Failed(External(chainStart.cause));
          break session;
        }
        StopService();
        if isOpened {
          isOpened := false;   // CloseWallet
        }
        if openWallet.Fail? {
          status := Failed(OpenFailed(openWallet.cause));
          break session;
        }
        isOpened := true;
        stopClosed := false;   // ws.stop = make(chan struct{})
        synced := 1;
        if watch {
          watchers := watchers + 1;
        }
        chainSyncing := true;   // SynchronizeRPC
        electrumClient := Some(client);
        status := Nil;
      }
      if status.Failed? {
        shutdowns := shutdowns + [client];
      }
    }

    /** `Synchronize` (lines 60-62): `synchronize(true)`, so a successful session runs one watcher;
        every failure path leaves what `SynchronizeSession` promises for it. */
    method Synchronize(client: ClientId, clientStart: Outcome, chainStart: Outcome, openWallet: Outcome)
      returns (status: Status)
      requires Valid()
      modifies this
      ensures Valid()
      ensures status == SyncStatus(clientStart, chainStart, openWallet)
      ensures account == old(account) && destroyCalls == old(destroyCalls) && provisioned == old(provisioned)
      ensures clientStart.Fail? ==> unchanged(this)
      ensures clientStart.Ok? && chainStart.Fail? ==>
        shutdowns == old(shutdowns) + [client]
        && synced == old(synced) && isOpened == old(isOpened) && stopClosed == old(stopClosed)
        && watchers == old(watchers) && chainSyncing == old(chainSyncing) && electrumClient == old(electrumClient)
      ensures clientStart.Ok? && chainStart.Ok? && openWallet.Fail? ==>
        shutdowns == old(shutdowns) + [client]
        && synced == 0 && !isOpened && watchers == 0 && !chainSyncing && electrumClient == old(electrumClient)
        && stopClosed == (old(stopClosed) || old(synced) == 1)
      ensures status.Nil? ==>
        shutdowns == old(shutdowns)
        && synced == 1 && isOpened && !stopClosed && chainSyncing && electrumClient == Some(client)
        && watchers == 1
    {
      status := SynchronizeSession(true, client, clientStart, chainStart, openWallet);
    }

    /** `RelayFee` (lines 220-231): an unopened wallet is checked before an unsynced one; otherwise the
        current client is asked. */
    method RelayFee(relayFee: ClientId -> Result<int, Cause>) returns (r: Result<int, WalletError>)
      requires Valid()
      ensures !isOpened ==> r == Failure(NotLoaded)
      ensures isOpened && synced == 0 ==> r == Failure(ServerShutdown)
      ensures isOpened && synced != 0 ==> electrumClient.Some? && r == FromClient(relayFee(electrumClient.value))
    {
      if !isOpened {
        return Failure(NotLoaded);
      }
      if synced == 0 {
        return Failure(ServerShutdown);
      }
      r := FromClient(relayFee(electrumClient.value));
    }

    /** `EstimateFee` (lines 233-244): the same two guards in the same order, then the current
        client is asked for the fee of confirming within `target` blocks. */
    method EstimateFee(target: nat, estimate: (ClientId, nat) -> Result<int, Cause>) returns (r: Result<int, WalletError>)
      requires Valid() && target <= MaxIndex
      ensures !isOpened ==> r == Failure(NotLoaded)
      ensures isOpened && synced == 0 ==> r == Failure(ServerShutdown)
      ensures isOpened && synced != 0 ==> electrumClient.Some? && r == FromClient(estimate(electrumClient.value, target))
    {
      if !isOpened {
        return Failure(NotLoaded);
      }
      if synced == 0 {
        return Failure(ServerShutdown);
      }
      r := FromClient(estimate(electrumClient.value, target));
    }

    /** `GetLastAddress` (lines 189-214): fails when the wallet is not open or has no
        account, or when the account has no public key; otherwise derives the external branch
        and then the last handed-out index on it, and encodes that key's address. */
    method GetLastAddress(derive: Deriver, encode: Encoder) returns (r: Result<string, WalletError>)
      requires account.Some? ==> account.value.externalKeyCount <= MaxIndex
      ensures !isOpened || account.None? ==> r == Failure(NotLoaded)
      ensures isOpened && account.Some? && account.value.pubKey.None? ==> r == Failure(CannotDerive(account.value.number))
      ensures isOpened && account.Some? && account.value.pubKey.Some? ==>
        var index := LastAddressIndex(account.value.externalKeyCount);
        match derive(account.value.pubKey.value, ExternalBranch)
        case Failure(c) => r == Failure(External(c))
        case Success(branch) =>
          match derive(branch, index)
          case Failure(c) => r == Failure(External(c))
          case Success(key) => r == FromClient(encode(key))
    {
      if !isOpened || account.None? {
        return Failure(NotLoaded);
      }
      var acct := account.value;
      if acct.pubKey.None? {
        return Failure(CannotDerive(acct.number));
      }
      var nextAddrIndex := LastAddressIndex(acct.externalKeyCount);
      var branchKey := derive(acct.pubKey.value, ExternalBranch);
      if branchKey.Failure? {
        return Failure(External(branchKey.error));
      }
      var key := derive(branchKey.value, nextAddrIndex);
      if key.Failure? {
        return Failure(External(key.error));
      }
      r := FromClient(encode(key.value));
    }

    /** `Recover` (lines 304-362): an unopened wallet fails before any sync; then a session without a
        watcher is synchronised; then a chain client that cannot scan is refused; then the
        scan and the provisioning calls of `ProvisionCalls` run. */
    method Recover(client: ClientId, clientStart: Outcome, chainStart: Outcome, openWallet: Outcome,
                   isElectrum: bool, scan: Result<ScanCounts, Cause>, external: Outcome, internal: Outcome)
      returns (status: Status)
      requires Valid()
      modifies this
      ensures Valid()
      ensures account == old(account) && destroyCalls == old(destroyCalls)
      ensures !old(isOpened) ==> status == Failed(NotLoaded) && unchanged(this)
      ensures old(isOpened) && SyncStatus(clientStart, chainStart, openWallet).Failed? ==>
        status == SyncStatus(clientStart, chainStart, openWallet) && provisioned == old(provisioned)
      ensures old(isOpened) && clientStart.Fail? ==> unchanged(this)
      ensures old(isOpened) && clientStart.Ok? && chainStart.Fail? ==>
        shutdowns == old(shutdowns) + [client]
        && synced == old(synced) && isOpened && stopClosed == old(stopClosed)
        && watchers == old(watchers) && chainSyncing == old(chainSyncing) && electrumClient == old(electrumClient)
      ensures old(isOpened) && clientStart.Ok? && chainStart.Ok? && openWallet.Fail? ==>
        shutdowns == old(shutdowns) + [client]
        && synced == 0 && !isOpened && watchers == 0 && !chainSyncing && electrumClient == old(electrumClient)
        && stopClosed == (old(stopClosed) || old(synced) == 1)
      ensures old(isOpened) && SyncStatus(clientStart, chainStart, openWallet).Nil? ==>
        shutdowns == old(shutdowns) && isOpened && !stopClosed && chainSyncing
        && synced == 1 && watchers == 0 && electrumClient == Some(client)
        && status == (if isElectrum then ProvisionStatus(account, scan, external, internal) else Failed(RecoverNotSupported))
        && provisioned == old(provisioned) + (if isElectrum then ProvisionCalls(account, scan, external) else [])
    {
      if !isOpened {
        return Failed(NotLoaded);
      }
      status := SynchronizeSession(false, client, clientStart, chainStart, openWallet);
      if status.Failed? {
        return;
      }
      if !isElectrum {
        return Failed(RecoverNotSupported);
      }
      status := ProvisionAddresses(scan, external, internal);
    }

    /** The scan and provisioning steps of `Recover` (lines 342-361). */
    method ProvisionAddresses(scan: Result<ScanCounts, Cause>, external: Outcome, internal: Outcome) returns (status: Status)
      modifies this`provisioned
      ensures status == ProvisionStatus(account, scan, external, internal)
      ensures provisioned == old(provisioned) + ProvisionCalls(account, scan, external)
    {
      if scan.Failure? {
        return Failed(External(scan.error));
      }
      var counts := scan.value;
      if counts.external > 0 {
        if account.None? {
          return Failed(NilAccount);
        }
        provisioned := provisioned + [Provision(ExternalChain, account.value.number, counts.external)];
        if external.Fail? {
          return Failed(External(external.cause));
        }
      }
      if counts.internal > 0 {
        if account.None? {
          return Failed(NilAccount);
        }
        provisioned := provisioned + [Provision(InternalChain, account.value.number, counts.internal)];
        if internal.Fail? {
          return Failed(External(internal.cause));
        }
      }
      status := Nil;
    }

    /** `Create` (lines 161-175): a failed wallet creation returns nothing else; otherwise the
        backup of the new seed is returned. The wallet is destroyed exactly when an error is
        returned. */
    method Create(created: Result<Seed, Cause>, hexEncode: Seed -> string, newMnemonic: Seed -> Result<string, Cause>)
      returns (b: Backup)
      modifies this`destroyCalls
      ensures created.Failure? ==> b == Backup("", [], Failed(External(created.error)))
      ensures created.Success? ==> b == BackupData(created.value, hexEncode, newMnemonic)
      ensures destroyCalls == old(destroyCalls) + (if b.err.Failed? then 1 else 0)
    {
      if created.Failure? {
        b := Backup("", [], Failed(External(created.error)));
      } else {
        b := BackupData(created.value, hexEncode, newMnemonic);
      }
      if b.err.Failed? {
        destroyCalls := destroyCalls + 1;
      }
    }

    /** `RestoreByHex` (lines 257-278): the hex text is decoded, the wallet restored from the
        seed, and the seed backed up; the wallet is destroyed exactly when an error is returned. */
    method RestoreByHex(input: string, decodeHex: string -> Result<Seed, Cause>, restore: Seed -> Outcome,
                        hexEncode: Seed -> string, newMnemonic: Seed -> Result<string, Cause>)
      returns (b: Backup)
      modifies this`destroyCalls
      ensures b == RestoreFrom(decodeHex(input), restore, hexEncode, newMnemonic)
      ensures destroyCalls == old(destroyCalls) + (if b.err.Failed? then 1 else 0)
    {
      b := RestoreFrom(decodeHex(input), restore, hexEncode, newMnemonic);
      if b.err.Failed? {
        destroyCalls := destroyCalls + 1;
      }
    }

    /** `RestoreByMnemonic` (lines 280-302): as `RestoreByHex`, with the seed recovered from the
        words joined by single spaces. */
    method RestoreByMnemonic(input: seq<string>, entropy: string -> Result<Seed, Cause>, restore: Seed -> Outcome,
                             hexEncode: Seed -> string, newMnemonic: Seed -> Result<string, Cause>)
      returns (b: Backup)
      modifies this`destroyCalls
      ensures b == RestoreFrom(entropy(Join(input, " ")), restore, hexEncode, newMnemonic)
      ensures destroyCalls == old(destroyCalls) + (if b.err.Failed? then 1 else 0)
    {
      b := RestoreFrom(entropy(Join(input, " ")), restore, hexEncode, newMnemonic);
      if b.err.Failed? {
        destroyCalls := destroyCalls + 1;
      }
    }
  }

  /** The answer of a foreign call, with its error passed on unchanged. */
  function FromClient<T>(x: Result<T, Cause>): Result<T, WalletError> {
    match x
    case Success(v) => Success(v)
    case Failure(c) => Failure(External(c))
  }

  /** The steps shared by both restores once the seed is decoded (lines 265-277, 288-301): a
      decoding or restoring error returns no backup; otherwise the seed is backed up. */
  function RestoreFrom(seed: Result<Seed, Cause>, restore: Seed -> Outcome,
                       hexEncode: Seed -> string, newMnemonic: Seed -> Result<string, Cause>): (b: Backup)
    ensures seed.Failure? ==> b == Backup("", [], Failed(External(seed.error)))
    ensures seed.Success? && restore(seed.value).Fail? ==>
      b == Backup("", [], Failed(External(restore(seed.value).cause)))
    ensures b.err.Nil? <==> seed.Success? && restore(seed.value).Ok? && newMnemonic(seed.value).Success?
    ensures seed.Success? && restore(seed.value).Ok? ==> b == BackupData(seed.value, hexEncode, newMnemonic)
    ensures seed.Success? && restore(seed.value).Ok? ==> b.hexData == hexEncode(seed.value)
    ensures b.err.Nil? ==> b.words == Fields(newMnemonic(seed.value).value) && Fields(Join(b.words, " ")) == b.words
  {
    match seed
    case Failure(c) => Backup("", [], Failed(External(c)))
    case Success(s) =>
      match restore(s)
      case Fail(c) => Backup("", [], Failed(External(c)))
      case Ok => BackupData(s, hexEncode, newMnemonic)
  }
}
