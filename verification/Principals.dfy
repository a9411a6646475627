/** The records that every part of the proxy passes around. */
module Principals {

  datatype Option<+T> = None | Some(value: T)

  /** An IPv4 address as the 32-bit number of its four octets. */
  type Ip = x: int | 0 <= x < 0x1_0000_0000

  /** A port as the proxy parses it: any 32-bit signed value, -1 for "no upper bound given". */
  type Port = x: int | -0x8000_0000 <= x < 0x8000_0000

  const VM_INSTANCE_TYPE := "vm"
  const NORMAL_INSTANCE_TYPE := "normal"
  const IAAS_PROVIDER := "152.3.145.38:444"

  const STATUS_OK := 200
  const STATUS_BAD_REQUEST := 400
  const STATUS_UNAUTHORIZED := 401
  const STATUS_NOT_FOUND := 404
  const STATUS_INTERNAL_ERROR := 500

  datatype Network = Network(base: Ip, bits: nat) {
    /** At most 32 bits, and no address bit set beyond them. */
    predicate Masked() {
      bits <= 32 && Mask(base, bits) == base
    }

    /** The first `bits` bits of the two addresses agree. */
    predicate Contains(ip: Ip)
      requires bits <= 32
    {
      Mask(ip, bits) == Mask(base, bits)
    }
  }

  /** `ip` with all but its first `bits` bits cleared. */
  function Mask(ip: Ip, bits: nat): Ip
    requires bits <= 32
  {
    ClearLow(ip, 32 - bits)
  }

  /** `x` with its last `k` bits cleared. */
  function ClearLow(x: nat, k: nat): (r: nat)
    ensures r <= x
  {
    if k == 0 then x else 2 * ClearLow(x / 2, k - 1)
  }

  lemma {:induction false} ClearLowTwice(x: nat, k: nat)
    ensures ClearLow(ClearLow(x, k), k) == ClearLow(x, k)
  {
    if k > 0 {
      ClearLowTwice(x / 2, k - 1);
      assert 2 * ClearLow(x / 2, k - 1) / 2 == ClearLow(x / 2, k - 1);
    }
  }

  function Pow2(k: nat): nat {
    if k == 0 then 1 else 2 * Pow2(k - 1)
  }

  lemma {:induction false} Pow2Grows(k: nat, n: nat)
    requires k <= n
    ensures Pow2(k) <= Pow2(n)
  {
    if k < n {
      Pow2Grows(k, n - 1);
    }
  }

  lemma Pow2Of32()
    ensures Pow2(31) == 0x8000_0000 && Pow2(32) == 0x1_0000_0000
  {
    assert Pow2(8) == 0x100;
    assert Pow2(16) == 0x1_0000;
    assert Pow2(24) == 0x100_0000;
  }

  lemma {:induction false} ClearAll(x: nat, k: nat)
    requires x < Pow2(k)
    ensures ClearLow(x, k) == 0
  {
    if k > 0 {
      ClearAll(x / 2, k - 1);
    }
  }

  lemma {:induction false} ClearLowIs(x: nat, base: nat, k: nat)
    requires ClearLow(base, k) == base
    ensures ClearLow(x, k) == base <==> base <= x < base + Pow2(k)
  {
    if k > 0 {
      assert base == 2 * (base / 2);
      ClearLowIs(x / 2, base / 2, k - 1);
    }
  }

  /** A network contains the 2^(32 - bits) addresses from its base on, and no others. */
  lemma ContainsIsInterval(n: Network, ip: Ip)
    requires n.Masked()
    ensures n.Contains(ip) <==> n.base <= ip < n.base + Pow2(32 - n.bits)
  {
    ClearLowIs(ip, n.base, 32 - n.bits);
  }

  /** A network as section 3.1 of RFC 4632 writes it and a parser yields it: already masked. */
  type Cidr = n: Network | n.Masked() witness Network(0, 0)

  /** Names with this prefix are not looked up. */
  const NOAUTH_PREFIX := "noauth_"

  /** How a request handler ends: with a status, by indexing past the request's values, or by
      dereferencing a missing instance. */
  datatype Outcome = Status(code: int) | IndexPanic | NilPanic

  /** Who an instance is, who created it, and (for a VM) the network it hands out. */
  datatype InstanceCred = InstanceCred(pid: string, ppid: string, cidr: Option<Cidr>, kind: string)

  /** An address: one IP with a closed port range. */
  datatype Addr = Addr(ip: Ip, lport: Port, rport: Port) {
    predicate Contains(ip: Ip, port: int) {
      this.ip == ip && lport <= port <= rport
    }

    /** `this` lies in `outer`: same IP, both bounds inside. */
    predicate Within(outer: Addr) {
      ip == outer.ip && outer.lport <= lport && rport <= outer.rport
    }
  }

  datatype CachedInstance = CachedInstance(addr: Addr, cred: InstanceCred)
}
