/** The number of virtual CPUs, in the 32-bit unsigned arithmetic of the CPU fields. */
module VCPUs {
  import opened Collections

  const LIMIT := 0x1_0000_0000

  newtype uint32 = x: int | 0 <= x < 0x1_0000_0000

  datatype CPU = CPU(cores: uint32, sockets: uint32, threads: uint32)

  function Mul(a: uint32, b: uint32): uint32 {
    (a as int * b as int % LIMIT) as uint32
  }

  function AtLeastOne(n: uint32): nat {
    if n == 0 then 1 else n as nat
  }

  ghost predicate Wraps(a: nat, b: nat) {
    a * b % LIMIT == 0
  }

  /** The result for three factors: the product, wrapped; but where the first two wrap to zero the third
      alone, and where the product wraps to zero one. */
  ghost function Result(a: nat, b: nat, c: nat): nat {
    if Wraps(a, b) then c
    else if a * b * c % LIMIT == 0 then 1
    else a * b * c % LIMIT
  }

  ghost function Number(cores: uint32, sockets: uint32, threads: uint32): nat {
    Result(AtLeastOne(cores), AtLeastOne(sockets), AtLeastOne(threads))
  }

  lemma ModSum(k: nat, y: nat)
    ensures (k * LIMIT + y) % LIMIT == y % LIMIT
  {
  }

  /** Wrapping early or late is the same. */
  lemma WrapEarly(x: nat, y: nat)
    ensures (x % LIMIT) * y % LIMIT == x * y % LIMIT
  {
    var q, r := x / LIMIT, x % LIMIT;
    assert x * y == (q * y) * LIMIT + r * y by {
      assert x == q * LIMIT + r;
    }
    ModSum(q * y, r * y);
  }

  lemma SmallProduct(a: nat, b: nat)
    requires 1 <= a < LIMIT && b == 1
    ensures a * b % LIMIT == a && !Wraps(a, b) && !Wraps(b, a)
  {
  }

  method GetNumberOfVCPUs(spec: Option<CPU>) returns (n: int)
    ensures n == if spec.None? then 1 else Number(spec.value.cores, spec.value.sockets, spec.value.threads)
    ensures spec.Some? ==>
      var c := if spec.value.cores == 0 then 1 else spec.value.cores as int;
      var s := if spec.value.sockets == 0 then 1 else spec.value.sockets as int;
      var t := if spec.value.threads == 0 then 1 else spec.value.threads as int;
      && (c * s % 0x1_0000_0000 == 0 ==> n == t)
      && (c * s % 0x1_0000_0000 != 0 && c * s * t % 0x1_0000_0000 == 0 ==> n == 1)
      && (c * s % 0x1_0000_0000 != 0 && c * s * t % 0x1_0000_0000 != 0 ==> n == c * s * t % 0x1_0000_0000)
  {
    if spec.None? {
      return 1;
    }
    var cpu := spec.value;
    var vCPUs := cpu.cores;
    if cpu.sockets != 0 {
      if vCPUs == 0 {
        vCPUs := cpu.sockets;
      } else {
        vCPUs := Mul(vCPUs, cpu.sockets);
      }
    }
    ghost var a, b, c := AtLeastOne(cpu.cores), AtLeastOne(cpu.sockets), AtLeastOne(cpu.threads);
    assert (cpu.cores == 0 && cpu.sockets == 0) || vCPUs as int == a * b % LIMIT;
    WrapEarly(a * b, c);
    if cpu.threads != 0 {
      if vCPUs == 0 {
        vCPUs := cpu.threads;
      } else {
        vCPUs := Mul(vCPUs, cpu.threads);
      }
    }
    if vCPUs == 0 {
      return 1;
    }
    return vCPUs as int;
  }

  /** At least one for all inputs, and never more than fits. */
  lemma NumberInRange(cores: uint32, sockets: uint32, threads: uint32)
    ensures 1 <= Number(cores, sockets, threads) < LIMIT
  {
  }

  /** The product of the fields, an unset field counting as one, whenever it fits in 32 bits. */
  lemma ExactWhenItFits(cores: uint32, sockets: uint32, threads: uint32)
    requires AtLeastOne(cores) * AtLeastOne(sockets) * AtLeastOne(threads) < LIMIT
    ensures Number(cores, sockets, threads) == AtLeastOne(cores) * AtLeastOne(sockets) * AtLeastOne(threads)
  {
    var a, b, c := AtLeastOne(cores), AtLeastOne(sockets), AtLeastOne(threads);
    ProductGrows(a, b);
    ProductGrows(a * b, c);
  }

  lemma ProductGrows(x: nat, y: nat)
    requires x >= 1 && y >= 1
    ensures 1 <= x <= x * y
  {
  }

  /** The result is the same for every order of the fields. */
  ghost predicate Symmetric(x: uint32, y: uint32, z: uint32) {
    Number(x, y, z) == Number(x, z, y) == Number(y, x, z) == Number(y, z, x) == Number(z, x, y) == Number(z, y, x)
  }

  /** Two factors that wrap to zero leave the third to stand alone, so the third must be one, or all pairs must
      wrap and all factors be equal. */
  ghost predicate ThirdHarmless(a: nat, b: nat, c: nat) {
    Wraps(a, b) ==> c == 1 || (Wraps(a, c) && Wraps(b, c) && a == b == c)
  }

  /** Symmetry fails when two fields wrap to zero: 65536 cores and sockets with 3 threads count as 3, while 3
      cores with 65536 sockets and threads count as 1. */
  lemma NotSymmetric()
    ensures Number(65536, 65536, 3) == 3 && Number(3, 65536, 65536) == 1
  {
    assert 65536 * 65536 % LIMIT == 0;
    assert 3 * 65536 % LIMIT == 196608;
    assert 3 * 65536 * 65536 % LIMIT == 0;
  }

  /** Exactly when the order of the fields does not matter. */
  lemma SymmetricIff(x: uint32, y: uint32, z: uint32)
    ensures Symmetric(x, y, z) <==>
      var a, b, c := AtLeastOne(x), AtLeastOne(y), AtLeastOne(z);
      ThirdHarmless(a, b, c) && ThirdHarmless(a, c, b) && ThirdHarmless(b, c, a)
  {
    var a, b, c := AtLeastOne(x), AtLeastOne(y), AtLeastOne(z);
    SwapFirst(a, b, c);
    SwapFirst(a, c, b);
    SwapFirst(b, c, a);
    ThreeOrders(a, b, c);
  }

  lemma SwapFirst(a: nat, b: nat, c: nat)
    ensures Result(a, b, c) == Result(b, a, c)
  {
    assert a * b == b * a;
  }

  /** Where a pair wraps, so does the whole product. */
  lemma PairWraps(a: nat, b: nat, c: nat)
    ensures Wraps(a, b) ==> a * b * c % LIMIT == 0
  {
    WrapEarly(a * b, c);
  }

  lemma ProductOrders(a: nat, b: nat, c: nat)
    ensures a * b * c == a * c * b == b * c * a
  {
    assert a * b * c == a * (b * c) && a * c * b == a * (c * b) && b * c * a == a * (b * c);
  }

  lemma ThreeOrders(a: nat, b: nat, c: nat)
    requires 1 <= a < LIMIT && 1 <= b < LIMIT && 1 <= c < LIMIT
    ensures Result(a, b, c) == Result(a, c, b) == Result(b, c, a) <==>
      ThirdHarmless(a, b, c) && ThirdHarmless(a, c, b) && ThirdHarmless(b, c, a)
  {
    ProductOrders(a, b, c);
    PairWraps(a, b, c);
    PairWraps(a, c, b);
    PairWraps(b, c, a);
    if a == 1 { SmallProduct(b, a); SmallProduct(c, a); }
    if b == 1 { SmallProduct(a, b); SmallProduct(c, b); }
    if c == 1 { SmallProduct(a, c); SmallProduct(b, c); }
    FromFacts(a, b, c, Wraps(a, b), Wraps(a, c), Wraps(b, c), a * b * c % LIMIT);
  }

  lemma FromFacts(a: nat, b: nat, c: nat, ab: bool, ac: bool, bc: bool, p: nat)
    requires ab || ac || bc ==> p == 0
    requires a == 1 ==> !ab && !ac
    requires b == 1 ==> !ab && !bc
    requires c == 1 ==> !ac && !bc
    ensures var r := if p == 0 then 1 else p;
      ((if ab then c else r) == (if ac then b else r) == (if bc then a else r)) <==>
      (ab ==> c == 1 || (ac && bc && a == b == c)) && (ac ==> b == 1 || (ab && bc && a == b == c))
      && (bc ==> a == 1 || (ab && ac && a == b == c))
  {
  }

  /** In particular the order never matters while the product fits. */
  lemma SymmetricWhenItFits(x: uint32, y: uint32, z: uint32)
    requires AtLeastOne(x) * AtLeastOne(y) * AtLeastOne(z) < LIMIT
    ensures Symmetric(x, y, z)
  {
    var a, b, c := AtLeastOne(x), AtLeastOne(y), AtLeastOne(z);
    ProductOrders(a, b, c);
    ProductOrders(b, a, c);
    ProductOrders(c, a, b);
    assert a * b == b * a && a * c == c * a && b * c == c * b;
    ExactWhenItFits(x, y, z);
    ExactWhenItFits(x, z, y);
    ExactWhenItFits(y, x, z);
    ExactWhenItFits(y, z, x);
    ExactWhenItFits(z, x, y);
    ExactWhenItFits(z, y, x);
  }
}
