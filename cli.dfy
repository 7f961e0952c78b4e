/**
 * The command-line handler of cli/cli.go: building the wallet parameters from the
 * configuration, the existence guards of `CreateWallet`, `RestoreWallet` and `RequireWallet`,
 * and the four-words-per-row display of a new mnemonic. The wallet service behind the handler
 * belongs to the external `walletmgr` package; each of its answers is a parameter.
 */
module Cli {
  import opened Wrappers
  import opened HdKeys
  import Prompt

  /** `chaincfg.Params`, only told apart. */
  datatype Network = Network(id: nat)

  datatype AddressScope = Bip0044

  /** `defaultAddressScope`. */
  const DefaultAddressScope := Bip0044

  /** `Config` (cli/config.go). The timeout is in nanoseconds, as a `time.Duration`. */
  datatype Config = Config(
    walletDir: string, regressionTest: bool, testnet: bool, publicPassword: string,
    dbTimeout: int, electrumServer: string, accountId: nat, accountName: string)

  /** `walletmgr.WalletParams`. */
  datatype WalletParams = WalletParams(
    network: Network, path: string, timeout: int, publicPassword: string,
    addressScope: AddressScope, electrumServer: string, accountId: nat)

  /** `WalletCliHandler`: the service is built by the external `walletmgr.NewWalletService`
      from `params`. */
  datatype CliHandler = CliHandler(params: WalletParams, network: Network, cfg: Config)

  /** `NewWalletCliHandler` (lines 30-47). */
  function NewWalletCliHandler(network: Network, cfg: Config): (h: CliHandler)
    ensures h.cfg == cfg && h.network == network && h.params.network == network
    ensures h.params.path == cfg.walletDir && h.params.timeout == cfg.dbTimeout
    ensures h.params.publicPassword == cfg.publicPassword && h.params.electrumServer == cfg.electrumServer
    ensures h.params.accountId == cfg.accountId && h.params.addressScope == DefaultAddressScope
  {
    var params := WalletParams(network, cfg.walletDir, cfg.dbTimeout, cfg.publicPassword,
                               DefaultAddressScope, cfg.electrumServer, cfg.accountId);
    CliHandler(params, network, cfg)
  }

  /** The parameters depend on exactly the copied fields: the network flags and the account
      name never reach them, and any difference in a copied field does. */
  lemma ParamsFromCopiedFields(network: Network, c1: Config, c2: Config)
    ensures NewWalletCliHandler(network, c1).params == NewWalletCliHandler(network, c2).params
      <==> c1.walletDir == c2.walletDir && c1.dbTimeout == c2.dbTimeout
           && c1.publicPassword == c2.publicPassword && c1.electrumServer == c2.electrumServer
           && c1.accountId == c2.accountId
  {
  }

  /** `ProcessCommand` (lines 127-164): its whole body is commented out but the `return`. */
  function ProcessCommand(h: CliHandler): (r: bool)
    ensures r
  {
    true
  }

  // ---------------------------------------------------------------------------
  // Mnemonic rows

  function Flatten(rows: seq<seq<string>>): seq<string>
    decreases |rows|
  {
    if rows == [] then [] else Flatten(rows[..|rows| - 1]) + rows[|rows| - 1]
  }

  /** The rows a mnemonic of `n` words is shown in: each holds one to four words, only the last
      may hold fewer than four, and there are `ceil(n / 4)` of them. */
  ghost predicate RowShape(rows: seq<seq<string>>, n: nat) {
    |rows| == (n + 3) / 4
    && (forall k :: 0 <= k < |rows| ==> 1 <= |rows[k]| <= 4)
    && (forall k :: 0 <= k < |rows| - 1 ==> |rows[k]| == 4)
  }

  /** The display loop of `CreateWallet` (lines 67-70): `words[i:min(i+4, len(words))]` for
      `i = 0, 4, 8, ...`. Read in order, the rows give back the words. */
  method MnemonicRows(words: seq<string>) returns (rows: seq<seq<string>>)
    ensures Flatten(rows) == words
    ensures RowShape(rows, |words|)
  {
    rows := [];
    var i := 0;
    while i < |words|
      invariant i == 4 * |rows| && i <= |words| + 3
      invariant Flatten(rows) == words[..if i < |words| then i else |words|]
      invariant forall k :: 0 <= k < |rows| ==> 1 <= |rows[k]| <= 4
      invariant forall k :: 0 <= k < |rows| && 4 * (k + 1) <= |words| ==> |rows[k]| == 4
      decreases |words| - i
    {
      var end := if i + 4 < |words| then i + 4 else |words|;
      var line := words[i..end];
      assert Flatten(rows + [line]) == Flatten(rows) + line;
      assert words[..end] == words[..i] + line;
      rows := rows + [line];
      i := i + 4;
    }
  }

  // ---------------------------------------------------------------------------
  // Existence guards

  /** The interactive and wallet-changing steps a command takes, in order. */
  datatype Action = PromptPassword | CreateCall(passphrase: string) | ReadMnemonicCall
                  | RestoreCall(seed: Seed, passphrase: string) | OpenCall

  /** The `log.Fatalf` / `log.Fatal` a command ends with. */
  datatype Fatal =
    | LoadFailed(cause: Cause)         // "unable to load wallet: ..."
    | AlreadyExists                     // "A wallet already exists ..." / "wallet restoration failed"
    | NotFound                          // "wallet not found"
    | CreateFailed(cause: Cause)       // "unable to create wallet: ..."
    | MnemonicUnreadable               // the read error `ReadMnemonic` ends the program with
    | InvalidMnemonic(cause: Cause)    // "Invalid mnemonic: ..."
    | RestoreFailed(cause: Cause)      // "wallet restoration failed: ..."
    | OpeningFailed(cause: Cause)      // "opening failed: ..."

  /** What a command did, and how it ended. */
  datatype Run<T> = Run(actions: seq<Action>, result: Result<T, Fatal>)

  /** What `CreateWallet` prints: the mnemonic in rows, and the hex form of the seed. */
  datatype Shown = Shown(rows: seq<seq<string>>, hex: string)

  /** The abort of the shared existence check (lines 50-56, 82-89, 110-116), if any: a failed
      check, or a wallet present (`mustExist` false) or absent (`mustExist` true). */
  function ExistenceAbort(found: Result<bool, Cause>, mustExist: bool): (r: Option<Fatal>)
    ensures r.None? <==> found == Success(mustExist)
  {
    match found
    case Failure(c) => Some(LoadFailed(c))
    case Success(e) =>
      if e == mustExist then None
      else if e then Some(AlreadyExists) else Some(NotFound)
  }

  /** `CreateWallet` (lines 49-79): a wallet already present, or a failed check for one, aborts
      before the password prompt and before anything is created. Otherwise the typed password
      secures the new wallet, and its mnemonic is shown in rows that read back as its words. */
  method CreateWallet(found: Result<bool, Cause>, typed: string, create: string -> Result<(string, seq<string>), Cause>)
    returns (run: Run<Shown>)
    ensures ExistenceAbort(found, false).Some? ==> run == Run([], Failure(ExistenceAbort(found, false).value))
    ensures found == Success(false) ==> run.actions == [PromptPassword, CreateCall(typed)]
    ensures found == Success(false) && create(typed).Failure? ==> run.result == Failure(CreateFailed(create(typed).error))
    ensures found == Success(false) && create(typed).Success? ==>
      run.result.Success?
      && run.result.value.hex == create(typed).value.0
      && Flatten(run.result.value.rows) == create(typed).value.1
      && RowShape(run.result.value.rows, |create(typed).value.1|)
  {
    var abort := ExistenceAbort(found, false);
    if abort.Some? {
      return Run([], Failure(abort.value));
    }
    var privPass := typed;
    var actions := [PromptPassword, CreateCall(privPass)];
    var created := create(privPass);
    if created.Failure? {
      return Run(actions, Failure(CreateFailed(created.error)));
    }
    var (hex, words) := created.value;
    var rows := MnemonicRows(words);
    run := Run(actions, Success(Shown(rows, hex)));
  }

  /** `RestoreWallet` (lines 81-105): a wallet already present, or a failed check, aborts before
      the mnemonic is read. Otherwise the phrase read from `lines` is decoded, and only a valid
      one leads to the password prompt and the restore. */
  method RestoreWallet(found: Result<bool, Cause>, lines: seq<string>, entropy: string -> Result<Seed, Cause>,
                       typed: string, restore: (Seed, string) -> Outcome)
    returns (run: Run<()>)
    ensures ExistenceAbort(found, false).Some? ==> run == Run([], Failure(ExistenceAbort(found, false).value))
    ensures found == Success(false) ==>
      match Prompt.MnemonicOf(lines)
      case ReadFailed => run == Run([ReadMnemonicCall], Failure(MnemonicUnreadable))
      case Mnemonic(phrase) =>
        match entropy(phrase)
        case Failure(c) => run == Run([ReadMnemonicCall], Failure(InvalidMnemonic(c)))
        case Success(seed) =>
          run.actions == [ReadMnemonicCall, PromptPassword, RestoreCall(seed, typed)]
          && run.result == (if restore(seed, typed).Fail? then Failure(RestoreFailed(restore(seed, typed).cause)) else Success(()))
  {
    var abort := ExistenceAbort(found, false);
    if abort.Some? {
      return Run([], Failure(abort.value));
    }
    var mnemonic := Prompt.ReadMnemonic(lines);
    if mnemonic.ReadFailed? {
      return Run([ReadMnemonicCall], Failure(MnemonicUnreadable));
    }
    var seed := entropy(mnemonic.phrase);
    if seed.Failure? {
      return Run([ReadMnemonicCall], Failure(InvalidMnemonic(seed.error)));
    }
    var privPass := typed;
    var actions := [ReadMnemonicCall, PromptPassword, RestoreCall(seed.value, privPass)];
    var restored := restore(seed.value, privPass);
    if restored.Fail? {
      return Run(actions, Failure(RestoreFailed(restored.cause)));
    }
    run := Run(actions, Success(()));
  }

  /** `RequireWallet` (lines 107-121): aborts when there is no wallet (or the check fails), and
      otherwise opens it. */
  function RequireWallet(found: Result<bool, Cause>, open: Outcome): (run: Run<()>)
    ensures run.actions == (if found == Success(true) then [OpenCall] else [])
    ensures run.result.Success? <==> found == Success(true) && open.Ok?
    ensures found.Failure? ==> run.result == Failure(LoadFailed(found.error))
    ensures found == Success(false) ==> run.result == Failure(NotFound)
    ensures found == Success(true) && open.Fail? ==> run.result == Failure(OpeningFailed(open.cause))
  {
    match ExistenceAbort(found, true)
    case Some(f) => Run([], Failure(f))
    case None =>
      match open
      case Fail(c) => Run([OpenCall], Failure(OpeningFailed(c)))
      case Ok => Run([OpenCall], Success(()))
  }
}
