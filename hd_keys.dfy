/**
 * Extended keys of the external hierarchical-deterministic key library. Parsing, child
 * derivation and address encoding are foreign calls; the model keeps an opaque handle and
 * whether the key carries its private half, and receives every such call as a parameter.
 */
module HdKeys {
  import opened Wrappers

  /** The entropy a wallet's key tree is generated from. */
  type Seed = seq<bv8>

  datatype ExtKey = ExtKey(handle: nat, isPrivate: bool)

  /** `waddrmgr.ExternalBranch`: the child index of the receiving-address branch. */
  const ExternalBranch: nat := 0

  /** The largest child index a `uint32` can hold. */
  const MaxIndex: nat := 0xFFFF_FFFF

  /** `(*ExtendedKey).Derive(index)`, whatever the library does. */
  type Deriver = (ExtKey, nat) -> Result<ExtKey, Cause>

  /** `(*ExtendedKey).Address(network)` followed by the encoding of the address. */
  type Encoder = ExtKey -> Result<string, Cause>
}
