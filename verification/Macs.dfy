/** The MAC addresses of the VXLAN overlay. */
module Macs {
  type WgKey = string
  type Mac = seq<bv8>

  type Digest = d: seq<bv8> | |d| == 32 witness seq(32, i => 0)

  const BROADCAST: Mac := [0xff, 0xff, 0xff, 0xff, 0xff, 0xff]

  /** The MAC a node derives from a WireGuard key: six bytes of its digest, local and unicast. */
  function VxlanMac(hash: WgKey -> Digest, key: WgKey): (mac: Mac)
    ensures |mac| == 6 && mac[0] & 1 == 0 && mac[0] & 2 == 2
    ensures mac[0] | 3 == hash(key)[0] | 3 && forall i :: 1 <= i < 6 ==> mac[i] == hash(key)[i]
  {
    var h := hash(key);
    [(h[0] | 0x02) & 0xfe] + h[1..6]
  }

  /** No key derives the broadcast MAC. */
  lemma VxlanMacNotBroadcast(hash: WgKey -> Digest, key: WgKey)
    ensures VxlanMac(hash, key) != BROADCAST
  {
    assert VxlanMac(hash, key)[0] & 1 == 0;
    assert BROADCAST[0] & 1 == 1;
  }
}
