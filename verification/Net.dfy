/** Addresses, protocols and connection tuples. */
module Net {
  datatype Proto = Tcp | Udp

  datatype IpAddr = V4(a: nat) | V6(a: nat)
  {
    predicate IsUnspecified() {
      a == 0
    }

    predicate IsMulticast() {
      match this
      case V4(n) => 0xE000_0000 <= n < 0xF000_0000
      case V6(n) => n / 0x100_0000_0000_0000_0000_0000_0000_0000 == 0xff
    }
  }

  /** A connection tuple seen from this host. */
  datatype ConnKey = ConnKey(proto: Proto, local: IpAddr, lport: nat, remote: IpAddr, rport: nat)
}
