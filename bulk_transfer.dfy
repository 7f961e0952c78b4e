/**
 * The `bulktransfer` command of cmd/fcli/command/bulkTransfer.go: its flags are the fields of a
 * command object, a JSON input file replaces the address and amount lists, and the command
 * then requires an open wallet and hands the lists to the handler's bulk transfer. Reading the
 * file, decoding the JSON and validating the server address are foreign calls whose results
 * are parameters.
 */
module BulkTransferCmd {
  import opened Wrappers
  import Cli
  import Handler

  /** `TransactionInput` (lines 17-20): one entry of the JSON input file. */
  datatype TransactionInput = TransactionInput(address: string, amount: real)

  /** What opening and decoding the input file gave. */
  datatype FileRead = OpenError(cause: Cause) | DecodeError(cause: Cause) | Decoded(inputs: seq<TransactionInput>)

  /** The `log.Fatalf` of lines 43 and 49. */
  datatype FileFatal = CannotOpen(cause: Cause) | CannotDecode(cause: Cause)

  /** How `Execute` ended: the error it returned, the file error it stopped the program on, or
      the hand-off to the handler with the arguments it passed. The bulk transfer runs only
      when `RequireWallet` did not end the program. */
  datatype Executed =
    | Rejected(cause: Cause)
    | Stopped(fatal: FileFatal)
    | Handed(required: Cli.Run<()>, passphrase: string, addresses: seq<string>, amounts: seq<real>,
             transfer: Option<Result<Handler.BulkRequest, Handler.BulkError>>)

  /** The addresses of the file's entries, in order. */
  function AddressesOf(inputs: seq<TransactionInput>): (r: seq<string>)
    ensures |r| == |inputs| && forall k :: 0 <= k < |inputs| ==> r[k] == inputs[k].address
  {
    seq(|inputs|, k requires 0 <= k < |inputs| => inputs[k].address)
  }

  /** The amounts of the file's entries, in order. */
  function AmountsOf(inputs: seq<TransactionInput>): (r: seq<real>)
    ensures |r| == |inputs| && forall k :: 0 <= k < |inputs| ==> r[k] == inputs[k].amount
  {
    seq(|inputs|, k requires 0 <= k < |inputs| => inputs[k].amount)
  }

  /** The entries made of two parallel lists. */
  function Pair(addresses: seq<string>, amounts: seq<real>): seq<TransactionInput>
    requires |addresses| == |amounts|
  {
    seq(|addresses|, k requires 0 <= k < |addresses| => TransactionInput(addresses[k], amounts[k]))
  }

  /** Splitting the file's entries into the two lists loses nothing: pairing them again gives
      back the entries, and the lists are always of equal length. */
  lemma SplitRoundTrip(inputs: seq<TransactionInput>)
    ensures |AddressesOf(inputs)| == |AmountsOf(inputs)|
    ensures Pair(AddressesOf(inputs), AmountsOf(inputs)) == inputs
  {
  }

  /** Two lists of equal length are exactly the split of their pairing. */
  lemma PairRoundTrip(addresses: seq<string>, amounts: seq<real>)
    requires |addresses| == |amounts|
    ensures AddressesOf(Pair(addresses, amounts)) == addresses
    ensures AmountsOf(Pair(addresses, amounts)) == amounts
  {
  }

  /** `BulkTransferCommand` (lines 22-29); the handler is passed to `Execute` as its answers. */
  class BulkTransferCommand {
    var passphrase: string
    var amounts: seq<real>
    var addresses: seq<string>
    var inputFile: string

    constructor (passphrase: string, amounts: seq<real>, addresses: seq<string>, inputFile: string)
      ensures this.passphrase == passphrase && this.amounts == amounts
      ensures this.addresses == addresses && this.inputFile == inputFile
    {
      this.passphrase := passphrase;
      this.amounts := amounts;
      this.addresses := addresses;
      this.inputFile := inputFile;
    }

    /** `Execute` (lines 31-64). An invalid server address returns an error before anything
        else; a named input file that cannot be opened or decoded stops the program; a decoded
        one replaces both lists by its entries' addresses and amounts, in order. The wallet is
        then required, and the passphrase and the lists go to the bulk transfer. */
    method Execute(serverValid: Outcome, file: FileRead, found: Result<bool, Cause>, open: Outcome,
                   newAmount: real -> Result<int, Cause>, decodeAddress: string -> Result<nat, Cause>,
                   typed: string, synchronize: Outcome)
      returns (r: Executed)
      modifies this`addresses, this`amounts
      ensures passphrase == old(passphrase) && inputFile == old(inputFile)
      ensures serverValid.Fail? ==> r == Rejected(serverValid.cause) && unchanged(this)
      ensures serverValid.Ok? && inputFile != "" && file.OpenError? ==> r == Stopped(CannotOpen(file.cause)) && unchanged(this)
      ensures serverValid.Ok? && inputFile != "" && file.DecodeError? ==> r == Stopped(CannotDecode(file.cause)) && unchanged(this)
      ensures serverValid.Ok? && inputFile == "" ==> addresses == old(addresses) && amounts == old(amounts)
      ensures serverValid.Ok? && inputFile != "" && file.Decoded? ==>
        addresses == AddressesOf(file.inputs) && amounts == AmountsOf(file.inputs)
      ensures serverValid.Ok? && (inputFile == "" || file.Decoded?) ==>
        r.Handed? && r.required == Cli.RequireWallet(found, open)
        && r.passphrase == passphrase && r.addresses == addresses && r.amounts == amounts
        && (r.transfer.Some? <==> r.required.result.Success?)
      ensures r.Handed? && r.required.result.Success? ==>
        r.transfer == Some(Handler.BulkOutcome(passphrase, addresses, amounts, newAmount, decodeAddress, typed, synchronize))
      ensures r.Handed? && r.transfer.Some? && inputFile != "" ==>
        !(r.transfer.value.Failure? && r.transfer.value.error.LengthMismatch?)
    {
      if serverValid.Fail? {
        return Rejected(serverValid.cause);
      }
      if inputFile != "" {
        if file.OpenError? {
          return Stopped(CannotOpen(file.cause));
        }
        if file.DecodeError? {
          return Stopped(CannotDecode(file.cause));
        }
        var txInputs := file.inputs;
        addresses := [];
        amounts := [];
        var i := 0;
        while i < |txInputs|
          invariant 0 <= i <= |txInputs|
          invariant addresses == AddressesOf(txInputs[..i]) && amounts == AmountsOf(txInputs[..i])
        {
          addresses := addresses + [txInputs[i].address];
          amounts := amounts + [txInputs[i].amount];
          i := i + 1;
        }
        assert txInputs[..i] == txInputs;
      }
      var required := Cli.RequireWallet(found, open);
      if required.result.Failure? {
        return Handed(required, passphrase, addresses, amounts, None);
      }
      var transfer := Handler.BulkTransfer(passphrase, addresses, amounts, newAmount, decodeAddress, typed, synchronize);
      r := Handed(required, passphrase, addresses, amounts, Some(transfer));
    }
  }
}
