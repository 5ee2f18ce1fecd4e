/** Vocabulary shared by every module: machine integers, addresses, hashes. */
module Common {
  const UINT256_END: int := 0x1_00000000_00000000_00000000_00000000_00000000_00000000_00000000_00000000

  // A uint256 of Solidity 0.8 (or a U256 of ethers): arithmetic that leaves the range fails.
  type uint256 = x: int | 0 <= x < UINT256_END

  const UINT256_MAX: uint256 := UINT256_END - 1

  // address(0) and bytes32(0) are the number zero; nothing else is known about the others.
  type Address = nat
  const ZERO_ADDRESS: Address := 0

  type Hash = nat
  const ZERO_HASH: Hash := 0

  newtype byte = x: int | 0 <= x < 256
  type Payload = seq<byte>

  datatype Option<+T> = None | Some(value: T)

  // Checked addition: None is the overflow that reverts a transaction (or panics off chain).
  function CheckedAdd(a: uint256, b: uint256): (r: Option<uint256>)
    ensures r.Some? <==> a + b <= UINT256_MAX
    ensures r.Some? ==> r.value == a + b
  {
    if a + b < UINT256_END then Some(a + b) else None
  }
}
