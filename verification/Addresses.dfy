/** IP addresses, prefixes and endpoints, as far as the program looks into them. */
module Addresses {
  type Uint32 = x: int | 0 <= x < 0x1_0000_0000
  type Uint128 = x: int | 0 <= x < 0x1_0000_0000_0000_0000_0000_0000_0000_0000

  datatype Addr = V4(v4: Uint32) | V6(v6: Uint128)

  datatype AddrPort = AddrPort(addr: Addr, port: nat)

  datatype Prefix = Prefix(addr: Addr, bits: nat)

  function BitLen(a: Addr): nat {
    if a.V4? then 32 else 128
  }

  /** The prefix that contains the address alone. */
  function HostPrefix(a: Addr): Prefix {
    Prefix(a, BitLen(a))
  }

  /** The number without its `n` low binary digits. */
  function Shifted(x: int, n: nat): int
    decreases n
  {
    if n == 0 then x else Shifted(x / 2, n - 1)
  }

  /** The addresses agree in the leading digits that the prefix counts. */
  predicate Contains(p: Prefix, a: Addr) {
    match a
    case V4(x) => p.addr.V4? && p.bits <= 32 && Shifted(x, 32 - p.bits) == Shifted(p.addr.v4, 32 - p.bits)
    case V6(x) => p.addr.V6? && p.bits <= 128 && Shifted(x, 128 - p.bits) == Shifted(p.addr.v6, 128 - p.bits)
  }

  /** A host prefix contains its own address and no other. */
  lemma HostPrefixAlone(a: Addr, b: Addr)
    ensures Contains(HostPrefix(a), b) <==> b == a
  {}

  /** Every shorter prefix of the same address contains another one. */
  lemma ShorterPrefixShares(a: Addr, bits: nat) returns (b: Addr)
    requires bits < BitLen(a)
    ensures Contains(Prefix(a, bits), b) && b != a
  {
    if a.V4? {
      b := V4(if a.v4 % 2 == 0 then a.v4 + 1 else a.v4 - 1);
    } else {
      b := V6(if a.v6 % 2 == 0 then a.v6 + 1 else a.v6 - 1);
    }
  }
}
