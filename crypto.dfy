/**
 * utils/crypto.go: the display names of address types, and the control flow of deriving the
 * address (and, given the private key, the WIF) of a child key. The key library's parsing,
 * derivation, address and WIF encodings are foreign calls and are parameters.
 */
module Crypto {
  import opened Wrappers
  import opened HdKeys

  /** `waddrmgr.AddressType`; `Other` is any value that has no name among these. */
  datatype AddressType =
    | PubKeyHash | Script | RawPubKey | NestedWitnessPubKey | WitnessPubKey
    | WitnessScript | TaprootPubKey | TaprootScript | Other(code: nat)

  /** `StrAddrType` (lines 16-37): every value outside the seven listed ones falls to the
      default name "PubKeyHash", and a listed type's name reads back as that type. */
  function StrAddrType(t: AddressType): (r: string)
    ensures r == "PubKeyHash" <==> t.PubKeyHash? || t.Other?
    ensures !t.Other? ==> ParseAddrType(r) == Some(t)
  {
    match t
    case Script => "Script"
    case RawPubKey => "RawPubKey"
    case NestedWitnessPubKey => "NestedWitnessPubKey"
    case WitnessPubKey => "WitnessPubKey"
    case WitnessScript => "WitnessScript"
    case TaprootPubKey => "TaprootPubKey"
    case TaprootScript => "TaprootScript"
    case _ => "PubKeyHash"
  }

  /** The type a name stands for: the inverse of `StrAddrType` on the names it prints. */
  function ParseAddrType(name: string): (r: Option<AddressType>)
    ensures r.Some? ==> !r.value.Other?
  {
    if name == "PubKeyHash" then Some(PubKeyHash)
    else if name == "Script" then Some(Script)
    else if name == "RawPubKey" then Some(RawPubKey)
    else if name == "NestedWitnessPubKey" then Some(NestedWitnessPubKey)
    else if name == "WitnessPubKey" then Some(WitnessPubKey)
    else if name == "WitnessScript" then Some(WitnessScript)
    else if name == "TaprootPubKey" then Some(TaprootPubKey)
    else if name == "TaprootScript" then Some(TaprootScript)
    else None
  }

  /** The type whose name `StrAddrType` prints: itself, except that every unnamed value goes to
      the default branch. */
  function Shown(t: AddressType): AddressType {
    if t.Other? then PubKeyHash else t
  }

  /** Each of the seven listed types gets its own name back, every other value (PubKeyHash
      included) gets "PubKeyHash", and two types print alike exactly when they are shown as
      the same type. */
  lemma {:induction false} StrAddrTypeRoundTrip(t: AddressType, u: AddressType)
    ensures ParseAddrType(StrAddrType(t)) == Some(Shown(t))
    ensures t.PubKeyHash? || t.Other? <==> StrAddrType(t) == "PubKeyHash"
    ensures StrAddrType(t) == StrAddrType(u) <==> Shown(t) == Shown(u)
  {
    match t
    case PubKeyHash =>
    case Script => assert StrAddrType(t) != "PubKeyHash";
    case RawPubKey => assert StrAddrType(t) != "PubKeyHash";
    case NestedWitnessPubKey => assert StrAddrType(t) != "PubKeyHash";
    case WitnessPubKey => assert StrAddrType(t) != "PubKeyHash";
    case WitnessScript => assert StrAddrType(t) != "PubKeyHash";
    case TaprootPubKey => assert StrAddrType(t) != "PubKeyHash";
    case TaprootScript => assert StrAddrType(t) != "PubKeyHash";
    case Other(_) =>
    NamesDiffer(t, u);
  }

  lemma NamesDiffer(t: AddressType, u: AddressType)
    ensures StrAddrType(t) == StrAddrType(u) ==> Shown(t) == Shown(u)
  {
    if StrAddrType(t) == StrAddrType(u) {
      ParseOfName(t);
      ParseOfName(u);
    }
  }

  lemma ParseOfName(t: AddressType)
    ensures ParseAddrType(StrAddrType(t)) == Some(Shown(t))
  {
    match t
    case PubKeyHash =>
    case Script =>
    case RawPubKey =>
    case NestedWitnessPubKey =>
    case WitnessPubKey =>
    case WitnessScript =>
    case TaprootPubKey =>
    case TaprootScript =>
    case Other(_) =>
  }

  // ---------------------------------------------------------------------------
  // DeriveKeysFromXpub

  datatype CryptoError =
    | ParseXpubFailed(cause: Cause)       // "failed to parse xpub: ..."
    | DeriveChildFailed(cause: Cause)     // "failed to derive child key: ..."
    | AddressFailed(cause: Cause)         // "failed to generate address: ..."
    | ParseXprivFailed(cause: Cause)      // "failed to parse xpriv: ..."
    | BranchFailed(cause: Cause)          // the external-branch derivation error, unwrapped
    | DerivePrivateFailed(cause: Cause)   // "failed to derive private key: ..."
    | NotPrivate                          // "failed to extract EC private key: ..."
    | WifFailed(cause: Cause)             // "failed to convert private key to WIF: ..."

  /** The three results of `DeriveKeysFromXpub`: address, WIF and error. */
  datatype Derived = Derived(address: string, wif: string, err: Option<CryptoError>)

  function Fail(e: CryptoError): Derived {
    Derived("", "", Some(e))
  }

  /** Lines 41-54: the address of child `childIndex` of the xpub; each failing step names its
      own error, and the address is the encoding of the derived child. */
  function PublicAddress(xpub: string, childIndex: nat, parse: string -> Result<ExtKey, Cause>,
                         derive: Deriver, encode: Encoder): (r: Result<string, CryptoError>)
    requires childIndex <= MaxIndex
    ensures parse(xpub).Failure? ==> r == Failure(ParseXpubFailed(parse(xpub).error))
    ensures parse(xpub).Success? && derive(parse(xpub).value, childIndex).Failure? ==>
      r == Failure(DeriveChildFailed(derive(parse(xpub).value, childIndex).error))
    ensures parse(xpub).Success? && derive(parse(xpub).value, childIndex).Success? ==>
      var child := derive(parse(xpub).value, childIndex).value;
      (encode(child).Failure? ==> r == Failure(AddressFailed(encode(child).error)))
      && (encode(child).Success? ==> r == Success(encode(child).value))
  {
    match parse(xpub)
    case Failure(c) => Failure(ParseXpubFailed(c))
    case Success(extKey) =>
      match derive(extKey, childIndex)
      case Failure(c) => Failure(DeriveChildFailed(c))
      case Success(childKey) =>
        match encode(childKey)
        case Failure(c) => Failure(AddressFailed(c))
        case Success(add) => Success(add)
  }

  /** Lines 59-82: the WIF of the private child key on the external branch. Each failing step
      names its own error, the external-branch error passed on unwrapped; a public child key
      fails with `NotPrivate`; otherwise the WIF is the encoder's. */
  function PrivateWif(xpriv: string, childIndex: nat, parse: string -> Result<ExtKey, Cause>,
                      derive: Deriver, newWif: ExtKey -> Result<string, Cause>): (r: Result<string, CryptoError>)
    requires childIndex <= MaxIndex
    ensures parse(xpriv).Failure? ==> r == Failure(ParseXprivFailed(parse(xpriv).error))
    ensures parse(xpriv).Success? && derive(parse(xpriv).value, ExternalBranch).Failure? ==>
      r == Failure(BranchFailed(derive(parse(xpriv).value, ExternalBranch).error))
    ensures parse(xpriv).Success? && derive(parse(xpriv).value, ExternalBranch).Success? ==>
      var child := derive(derive(parse(xpriv).value, ExternalBranch).value, childIndex);
      (child.Failure? ==> r == Failure(DerivePrivateFailed(child.error)))
      && (child.Success? && !child.value.isPrivate ==> r == Failure(NotPrivate))
      && (child.Success? && child.value.isPrivate && newWif(child.value).Failure? ==>
            r == Failure(WifFailed(newWif(child.value).error)))
      && (child.Success? && child.value.isPrivate && newWif(child.value).Success? ==>
            r == Success(newWif(child.value).value))
  {
    match parse(xpriv)
    case Failure(c) => Failure(ParseXprivFailed(c))
    case Success(privExtKey) =>
      match derive(privExtKey, ExternalBranch)
      case Failure(c) => Failure(BranchFailed(c))
      case Success(privBranchKey) =>
        match derive(privBranchKey, childIndex)
        case Failure(c) => Failure(DerivePrivateFailed(c))
        case Success(privChildKey) =>
          if !privChildKey.isPrivate then Failure(NotPrivate)
          else
            match newWif(privChildKey)
            case Failure(c) => Failure(WifFailed(c))
            case Success(w) => Success(w)
  }

  /** `DeriveKeysFromXpub` (lines 39-86): the public path derives `childIndex` from the xpub;
      the private path, taken only for a non-empty xpriv, derives the external branch and then
      the same `childIndex`, and only a private child yields a WIF. Every failure returns two
      empty strings and the error of the first failing step; a run whose every step succeeds
      is a success. */
  function DeriveKeysFromXpub(xpriv: string, xpub: string, childIndex: nat,
                              parse: string -> Result<ExtKey, Cause>, derive: Deriver,
                              encode: Encoder, newWif: ExtKey -> Result<string, Cause>): (r: Derived)
    requires childIndex <= MaxIndex
    ensures r.err.Some? ==> r.address == "" && r.wif == ""
    ensures r.err.None? ==>
      parse(xpub).Success? && derive(parse(xpub).value, childIndex).Success?
      && encode(derive(parse(xpub).value, childIndex).value) == Success(r.address)
    ensures r.err.None? && xpriv == "" ==> r.wif == ""
    ensures r.err.None? && xpriv != "" ==>
      parse(xpriv).Success? && derive(parse(xpriv).value, ExternalBranch).Success?
      && var child := derive(derive(parse(xpriv).value, ExternalBranch).value, childIndex);
         child.Success? && child.value.isPrivate && newWif(child.value) == Success(r.wif)
    ensures r.err.None? <==>
      PublicAddress(xpub, childIndex, parse, derive, encode).Success?
      && (xpriv == "" || PrivateWif(xpriv, childIndex, parse, derive, newWif).Success?)
    ensures PublicAddress(xpub, childIndex, parse, derive, encode).Failure? ==>
      r == Fail(PublicAddress(xpub, childIndex, parse, derive, encode).error)
    ensures PublicAddress(xpub, childIndex, parse, derive, encode).Success? && xpriv != ""
            && PrivateWif(xpriv, childIndex, parse, derive, newWif).Failure? ==>
      r == Fail(PrivateWif(xpriv, childIndex, parse, derive, newWif).error)
  {
    match PublicAddress(xpub, childIndex, parse, derive, encode)
    case Failure(e) => Fail(e)
    case Success(add) =>
      if xpriv == "" then Derived(add, "", None)
      else
        match PrivateWif(xpriv, childIndex, parse, derive, newWif)
        case Failure(e) => Fail(e)
        case Success(wif) => Derived(add, wif, None)
  }

  /** When the WIF encoder never yields an empty string, a successful derivation returns an
      empty WIF exactly when no xpriv was given. */
  lemma EmptyWifIffNoXpriv(xpriv: string, xpub: string, childIndex: nat,
                           parse: string -> Result<ExtKey, Cause>, derive: Deriver,
                           encode: Encoder, newWif: ExtKey -> Result<string, Cause>)
    requires childIndex <= MaxIndex
    requires forall k :: newWif(k).Success? ==> newWif(k).value != ""
    requires DeriveKeysFromXpub(xpriv, xpub, childIndex, parse, derive, encode, newWif).err.None?
    ensures DeriveKeysFromXpub(xpriv, xpub, childIndex, parse, derive, encode, newWif).wif == "" <==> xpriv == ""
  {
  }

  /** A public child key never yields a WIF: the private path fails with `NotPrivate`. */
  lemma PublicKeyHasNoWif(xpriv: string, xpub: string, childIndex: nat,
                          parse: string -> Result<ExtKey, Cause>, derive: Deriver,
                          encode: Encoder, newWif: ExtKey -> Result<string, Cause>)
    requires childIndex <= MaxIndex && xpriv != ""
    requires parse(xpriv).Success? && derive(parse(xpriv).value, ExternalBranch).Success?
    requires var child := derive(derive(parse(xpriv).value, ExternalBranch).value, childIndex);
      child.Success? && !child.value.isPrivate
    requires parse(xpub).Success? && derive(parse(xpub).value, childIndex).Success?
    requires encode(derive(parse(xpub).value, childIndex).value).Success?
    ensures DeriveKeysFromXpub(xpriv, xpub, childIndex, parse, derive, encode, newWif) == Derived("", "", Some(NotPrivate))
  {
  }
}
