/** The address sweep of server/arp.go: the successor of an address, and the walk over a local network. */
module Sweep {
  import opened Bytes

  // ---------------------------------------------------------------- addresses as numbers

  /** Network byte order: the last byte counts least. */
  function Number(ip: seq<Byte>): nat {
    if ip == [] then 0 else Number(ip[..|ip| - 1]) * 256 + ip[|ip| - 1] as nat
  }

  function Range(n: nat): (r: nat)
    ensures r > 0
  {
    if n == 0 then 1 else Range(n - 1) * 256
  }

  function Pow2(n: nat): (r: nat)
    ensures r > 0
  {
    if n == 0 then 1 else 2 * Pow2(n - 1)
  }

  lemma {:induction false} NumberInRange(ip: seq<Byte>)
    ensures Number(ip) < Range(|ip|)
  {
    if ip != [] { NumberInRange(ip[..|ip| - 1]); }
  }

  /** An address is its number. */
  lemma {:induction false} NumberIsInjective(a: seq<Byte>, b: seq<Byte>)
    requires |a| == |b| && Number(a) == Number(b)
    ensures a == b
  {
    if a != [] {
      var n := |a| - 1;
      assert a[n] as int == b[n] as int && Number(a[..n]) == Number(b[..n]);
      NumberIsInjective(a[..n], b[..n]);
      assert a == a[..n] + [a[n]] && b == b[..n] + [b[n]];
    }
  }

  /** The carry chain, on values. */
  function Succ(ip: seq<Byte>): (r: seq<Byte>)
    ensures |r| == |ip|
  {
    if ip == [] then []
    else
      var pre, last := ip[..|ip| - 1], ip[|ip| - 1];
      if last == 255 then Succ(pre) + [0] else pre + [last + 1]
  }

  /** Counting up, and from the last address of all back to zero. */
  lemma {:induction false} SuccCounts(ip: seq<Byte>)
    ensures Number(Succ(ip)) == if Number(ip) + 1 == Range(|ip|) then 0 else Number(ip) + 1
  {
    if ip != [] {
      var pre, last := ip[..|ip| - 1], ip[|ip| - 1];
      NumberInRange(pre);
      if last == 255 {
        SuccCounts(pre);
        assert (Succ(pre) + [0])[..|ip| - 1] == Succ(pre);
      } else {
        assert (pre + [last + 1])[..|ip| - 1] == pre;
      }
    }
  }

  lemma SuccStep(s: seq<Byte>, i: nat, v: Byte)
    requires i < |s| && v == if s[i] == 255 then 0 else s[i] + 1
    ensures Succ(s[..i + 1]) + s[i + 1..] == if v == 0 then Succ(s[i := v][..i]) + s[i := v][i..] else s[i := v]
  {
    var pre := s[..i];
    assert s[..i + 1] == pre + [s[i]] && (pre + [s[i]])[..i] == pre;
    assert s[i := v] == pre + [v] + s[i + 1..] && s[i := v][..i] == pre;
    assert s[i := v][i..] == [v] + s[i + 1..];
  }

  /** The following address, on a copy. */
  method NextIP(ip: array<Byte>) returns (out: array<Byte>)
    ensures fresh(out) && out.Length == ip.Length && out[..] == Succ(ip[..])
  {
    out := new Byte[ip.Length](i requires 0 <= i < ip.Length reads ip => ip[i]);
    ghost var goal, cur := Succ(ip[..]), ip[..];
    assert out[..] == cur;
    var i := out.Length - 1;
    assert cur[..i + 1] == cur && cur[i + 1..] == [];
    while i >= 0
      invariant -1 <= i < out.Length == |cur|
      invariant out[..] == cur && goal == Succ(cur[..i + 1]) + cur[i + 1..]
    {
      var v: Byte := if out[i] == 255 then 0 else out[i] + 1;
      SuccStep(cur, i, v);
      cur := cur[i := v];
      out[i] := v;
      if out[i] != 0 {
        return;
      }
      i := i - 1;
    }
  }

  /** Counting modulo 2^32: after the last address of all comes the first. */
  lemma NextWraps(ip: seq<Byte>)
    requires |ip| == 4
    ensures Number(ip) < ADDRESSES && Number(Succ(ip)) == Wrapped(Number(ip) + 1)
  {
    assert Range(|ip|) == ADDRESSES by { FourBytes(); }
    NumberInRange(ip);
    SuccCounts(ip);
  }

  const ADDRESSES: nat := 0x1_0000_0000

  /** The number of an address, which starts again at zero. */
  function Wrapped(x: nat): nat { if x == ADDRESSES then 0 else x }

  lemma FourBytes()
    ensures Range(4) == ADDRESSES
  {
    assert Range(1) == 256;
    assert Range(2) == 256 * Range(1) && Range(3) == 256 * Range(2);
  }

  // ---------------------------------------------------------------- networks

  /** A byte with its low bits cleared. */
  function Clear(b: Byte, low: nat): Byte
    requires low < 8
  {
    match low
    case 0 => b
    case 1 => b - b % 2
    case 2 => b - b % 4
    case 3 => b - b % 8
    case 4 => b - b % 16
    case 5 => b - b % 32
    case 6 => b - b % 64
    case _ => b - b % 128
  }

  /** The address with its host bits cleared. */
  function Mask(ip: seq<Byte>, host: nat): (r: seq<Byte>)
    ensures |r| == |ip|
  {
    if host == 0 || ip == [] then ip
    else
      var pre, last := ip[..|ip| - 1], ip[|ip| - 1];
      if host >= 8 then Mask(pre, host - 8) + [0] else pre + [Clear(last, host)]
  }

  predicate InNet(net: seq<Byte>, host: nat, ip: seq<Byte>) {
    Mask(ip, host) == Mask(net, host)
  }

  lemma Pow2Adds8(n: nat)
    requires n >= 8
    ensures Pow2(n) == Pow2(n - 8) * 256
  {
    assert Pow2(n) == 2 * Pow2(n - 1) && Pow2(n - 1) == 2 * Pow2(n - 2);
    assert Pow2(n - 2) == 2 * Pow2(n - 3) && Pow2(n - 3) == 2 * Pow2(n - 4);
    assert Pow2(n - 4) == 2 * Pow2(n - 5) && Pow2(n - 5) == 2 * Pow2(n - 6);
    assert Pow2(n - 6) == 2 * Pow2(n - 7) && Pow2(n - 7) == 2 * Pow2(n - 8);
  }

  lemma SmallPow2()
    ensures Pow2(0) == 1 && Pow2(1) == 2 && Pow2(2) == 4 && Pow2(3) == 8
    ensures Pow2(4) == 16 && Pow2(5) == 32 && Pow2(6) == 64 && Pow2(7) == 128
  {
    assert Pow2(1) == 2 * Pow2(0);
    assert Pow2(2) == 2 * Pow2(1) && Pow2(3) == 2 * Pow2(2) && Pow2(4) == 2 * Pow2(3);
    assert Pow2(5) == 2 * Pow2(4) && Pow2(6) == 2 * Pow2(5) && Pow2(7) == 2 * Pow2(6);
  }

  /** x lies in the block of the given size that starts at base. */
  predicate InBlock(x: nat, base: nat, size: nat) { base <= x < base + size }

  lemma ClearRoundsDown(p: nat, b: Byte, low: nat) returns (q: nat)
    requires low < 8
    ensures p * 256 + Clear(b, low) as nat == q * Pow2(low)
    ensures InBlock(p * 256 + b as nat, p * 256 + Clear(b, low) as nat, Pow2(low))
  {
    SmallPow2();
    var x := b as int;
    match low
    case 0 => q := p * 256 + x;
    case 1 => q := p * 128 + x / 2;
    case 2 => q := p * 64 + x / 4;
    case 3 => q := p * 32 + x / 8;
    case 4 => q := p * 16 + x / 16;
    case 5 => q := p * 8 + x / 32;
    case 6 => q := p * 4 + x / 64;
    case _ => q := p * 2 + x / 128;
  }

  /** Clearing the host bits gives the start of the block the address lies in. */
  lemma {:induction false} MaskRoundsDown(ip: seq<Byte>, host: nat) returns (q: nat)
    requires host <= 8 * |ip|
    ensures Number(Mask(ip, host)) == q * Pow2(host)
    ensures InBlock(Number(ip), Number(Mask(ip, host)), Pow2(host))
  {
    if host == 0 || ip == [] {
      q := Number(ip);
    } else {
      var pre, last := ip[..|ip| - 1], ip[|ip| - 1];
      var masked := Mask(ip, host);
      if host >= 8 {
        q := MaskRoundsDown(pre, host - 8);
        assert masked[..|ip| - 1] == Mask(pre, host - 8);
        Pow2Adds8(host);
        Scaled(q, Pow2(host - 8));
      } else {
        assert masked[..|ip| - 1] == pre;
        q := ClearRoundsDown(Number(pre), last, host);
      }
    }
  }

  lemma Scaled(q: nat, m: nat)
    ensures (q * m) * 256 == q * (m * 256)
  {
  }

  /** Blocks of one size that share a member are one block. */
  lemma BlocksAreDisjoint(x: nat, p: nat, q: nat, m: nat)
    requires InBlock(x, p * m, m) && InBlock(x, q * m, m)
    ensures p == q
  {
    if p < q { Stretch(p, q, m); }
    if q < p { Stretch(q, p, m); }
  }

  lemma Stretch(p: nat, q: nat, m: nat)
    requires p < q
    ensures p * m + m <= q * m
  {
    var d: nat := q - p - 1;
    assert q * m == (p + 1 + d) * m == p * m + m + d * m;
  }

  /** A network is the block of addresses from its first one on. */
  lemma NetIsABlock(net: seq<Byte>, host: nat, ip: seq<Byte>)
    requires |ip| == |net| && host <= 8 * |net|
    ensures InNet(net, host, ip) <==> InBlock(Number(ip), Number(Mask(net, host)), Pow2(host))
  {
    var p := MaskRoundsDown(ip, host);
    var q := MaskRoundsDown(net, host);
    if InBlock(Number(ip), q * Pow2(host), Pow2(host)) {
      BlocksAreDisjoint(Number(ip), p, q, Pow2(host));
      NumberIsInjective(Mask(ip, host), Mask(net, host));
    }
  }

  // ---------------------------------------------------------------- the walk

  datatype Net = Net(ip: seq<Byte>, bits: nat, ones: nat)

  /** An interface with the networks of its addresses; other kinds of address are None in the source's cast. */
  datatype Interface = Interface(up: bool, loopback: bool, nets: seq<Net>)

  function Host(n: Net): nat { if n.ones <= 32 then 32 - n.ones else 0 }

  /** IPv4, with a contiguous 32-bit mask of at least 22 ones. */
  predicate Small(n: Net) { |n.ip| == 4 && n.bits == 32 && n.ones >= 22 }

  /** Worth walking are the IPv4 networks, with a mask of 32 bits, that have at most 1024 addresses. */
  lemma SmallExactly(ip: seq<Byte>, bits: nat, ones: nat)
    requires ones <= 32
    ensures Small(Net(ip, bits, ones)) <==> |ip| == 4 && bits == 32 && Pow2(32 - ones) <= 1024
  {
    SmallBlock(10);
    if ones >= 22 { SmallBlock(32 - ones); } else { Pow2Grows(11, 32 - ones); }
  }

  lemma {:induction false} Pow2Grows(a: nat, b: nat)
    requires a <= b
    ensures Pow2(a) <= Pow2(b)
    ensures Pow2(11) == 2048
  {
    SmallPow2();
    assert Pow2(8) == 256 && Pow2(9) == 512 && Pow2(10) == 1024 && Pow2(11) == 2 * Pow2(10);
    if a < b { Pow2Grows(a, b - 1); }
  }

  /** The addresses visited: from the first of the network, each once, in ascending order, and all of them. */
  ghost predicate Sweeps(n: Net, visited: seq<seq<Byte>>)
  {
    && |visited| == Pow2(Host(n))
    && (forall k :: 0 <= k < |visited| ==> |visited[k]| == 4 && InNet(n.ip, Host(n), visited[k])
                                           && Number(visited[k]) == Number(Mask(n.ip, Host(n))) + k)
    && (forall a: seq<Byte> :: |a| == 4 && InNet(n.ip, Host(n), a) ==> a in visited)
  }

  lemma AllInBlock(n: Net, visited: seq<seq<Byte>>, base: nat)
    requires |n.ip| == 4
    requires base == Number(Mask(n.ip, Host(n))) && |visited| == Pow2(Host(n))
    requires forall k :: 0 <= k < |visited| ==> |visited[k]| == 4 && Number(visited[k]) == base + k
    ensures Sweeps(n, visited)
  {
    var host := Host(n);
    forall k | 0 <= k < |visited| ensures InNet(n.ip, host, visited[k]) { NetIsABlock(n.ip, host, visited[k]); }
    forall a: seq<Byte> | |a| == 4 && InNet(n.ip, host, a) ensures a in visited {
      NetIsABlock(n.ip, host, a);
      NumberIsInjective(a, visited[Number(a) - base]);
    }
  }

  lemma SmallBlock(host: nat)
    requires host <= 10
    ensures 0 < Pow2(host) <= 1024
  {
    SmallPow2();
    assert Pow2(8) == 2 * Pow2(7) && Pow2(9) == 2 * Pow2(8) && Pow2(10) == 2 * Pow2(9);
  }

  /** An address that lies k steps from the start of a network is inside exactly when the network has more than k. */
  lemma InsideByNumber(net: seq<Byte>, host: nat, ip: seq<Byte>, k: nat, base: nat, size: nat)
    requires |net| == |ip| && host <= 8 * |net| && base == Number(Mask(net, host)) && size == Pow2(host)
    requires Number(ip) == base + k
    ensures InNet(net, host, ip) <==> k < size
  {
    NetIsABlock(net, host, ip);
  }

  lemma StillInside(net: seq<Byte>, host: nat, ip: seq<Byte>, k: nat, base: nat, size: nat)
    requires |net| == |ip| && host <= 8 * |net| && host <= 10 && base == Number(Mask(net, host)) && size == Pow2(host)
    requires base + size <= ADDRESSES && k <= size && Number(ip) == Wrapped(base + k)
    ensures InNet(net, host, ip) <==> k < size
  {
    if base + k < ADDRESSES {
      InsideByNumber(net, host, ip, k, base, size);
    } else {
      PastTheLast(net, host, ip, base, size);
    }
  }

  /** One step of the walk: still inside exactly when fewer steps were taken than the network has addresses. */
  lemma StepsInside(n: Net, ip: seq<Byte>, k: nat, base: nat, size: nat)
    requires Small(n) && |ip| == 4 && base == Number(Mask(n.ip, Host(n))) && size == Pow2(Host(n))
    requires k <= size && Number(ip) == Wrapped(base + k)
    ensures InNet(n.ip, Host(n), ip) <==> k < size
    ensures k < size ==> Number(ip) == base + k && Number(Succ(ip)) == Wrapped(base + k + 1)
  {
    FitsBelow(n, base);
    StillInside(n.ip, Host(n), ip, k, base, size);
    NextWraps(ip);
  }

  /** After the last address of all comes zero, which is not inside a small network that ends there. */
  lemma PastTheLast(net: seq<Byte>, host: nat, ip: seq<Byte>, base: nat, size: nat)
    requires |net| == |ip| && host <= 8 * |net| && host <= 10 && base == Number(Mask(net, host)) && size == Pow2(host)
    requires Number(ip) == 0 && base + size == ADDRESSES
    ensures !InNet(net, host, ip)
  {
    NetIsABlock(net, host, ip);
    SmallBlock(host);
  }

  /** The last address of a network is an address. */
  lemma FitsBelow(n: Net, base: nat)
    requires Small(n) && base == Number(Mask(n.ip, Host(n)))
    ensures base + Pow2(Host(n)) <= ADDRESSES
  {
    var host := Host(n);
    var q := MaskRoundsDown(n.ip, host);
    NumberInRange(Mask(n.ip, host));
    FourBytes();
    Pow2Splits(host, 32 - host);
    assert Pow2(32) == ADDRESSES by { Pow2Adds8(32); Pow2Adds8(24); Pow2Adds8(16); Pow2Adds8(8); }
    var top := Pow2(32 - host);
    if q < top { Stretch(q, top, Pow2(host)); } else { Stretch2(top, q, Pow2(host)); }
  }

  lemma Stretch2(p: nat, q: nat, m: nat)
    requires p <= q
    ensures p * m <= q * m
  {
  }

  lemma {:induction false} Pow2Splits(a: nat, b: nat)
    ensures Pow2(a + b) == Pow2(b) * Pow2(a)
  {
    if b > 0 {
      Pow2Splits(a, b - 1);
      assert Pow2(a + b) == 2 * Pow2(a + (b - 1));
      Doubled(Pow2(b - 1), Pow2(a));
    }
  }

  lemma Doubled(x: nat, y: nat)
    ensures 2 * (x * y) == (2 * x) * y
  {
  }

  /** The walk over one network; `visited` lists the addresses dialled. */
  method SweepNet(n: Net) returns (visited: seq<seq<Byte>>)
    requires Small(n)
    ensures Sweeps(n, visited) && |visited| <= 1024
  {
    var host := Host(n);
    var first := Mask(n.ip, host);
    var ip := new Byte[4](i requires 0 <= i < 4 => first[i]);
    assert ip[..] == first;
    NextWraps(first);
    visited := [];
    while InNet(n.ip, host, ip[..])
      invariant ip.Length == 4 && Walked(n, ip[..], visited)
      decreases Pow2(host) - |visited|
    {
      WalkOn(n, ip[..], visited);
      visited := visited + [ip[..]];
      ip := NextIP(ip);
    }
    WalkEnds(n, ip[..], visited);
  }

  /** Part of a walk: the addresses so far, and the next one. */
  predicate Walked(n: Net, ip: seq<Byte>, visited: seq<seq<Byte>>) {
    var base := Number(Mask(n.ip, Host(n)));
    && |ip| == 4 && |visited| <= Pow2(Host(n)) && Number(ip) == Wrapped(base + |visited|)
    && forall k :: 0 <= k < |visited| ==> |visited[k]| == 4 && Number(visited[k]) == base + k
  }

  lemma WalkOn(n: Net, ip: seq<Byte>, visited: seq<seq<Byte>>)
    requires Small(n) && Walked(n, ip, visited) && InNet(n.ip, Host(n), ip)
    ensures Walked(n, Succ(ip), visited + [ip]) && |visited| < Pow2(Host(n))
  {
    StepsInside(n, ip, |visited|, Number(Mask(n.ip, Host(n))), Pow2(Host(n)));
  }

  lemma WalkEnds(n: Net, ip: seq<Byte>, visited: seq<seq<Byte>>)
    requires Small(n) && Walked(n, ip, visited) && !InNet(n.ip, Host(n), ip)
    ensures Sweeps(n, visited) && |visited| <= 1024
  {
    StepsInside(n, ip, |visited|, Number(Mask(n.ip, Host(n))), Pow2(Host(n)));
    AllInBlock(n, visited, Number(Mask(n.ip, Host(n))));
    SmallBlock(Host(n));
  }

  /** The networks worth walking: those of interfaces in use, and only small ones. */
  method SweepableNets(interfaces: seq<Interface>) returns (out: seq<Net>)
    ensures forall n :: n in out <==> Small(n) && exists f :: f in interfaces && f.up && !f.loopback && n in f.nets
  {
    out := [];
    for i := 0 to |interfaces|
      invariant forall n :: n in out <==>
                  Small(n) && exists f :: f in interfaces[..i] && f.up && !f.loopback && n in f.nets
    {
      var f := interfaces[i];
      assert interfaces[..i + 1] == interfaces[..i] + [f];
      if !f.up || f.loopback {
        continue;
      }
      out := AddSmall(out, f.nets);
    }
    assert interfaces[..|interfaces|] == interfaces;
  }

  method AddSmall(before: seq<Net>, nets: seq<Net>) returns (out: seq<Net>)
    ensures forall n :: n in out <==> n in before || (n in nets && Small(n))
  {
    out := before;
    for j := 0 to |nets|
      invariant forall n :: n in out <==> n in before || (n in nets[..j] && Small(n))
    {
      var n := nets[j];
      assert nets[..j + 1] == nets[..j] + [n];
      if |n.ip| != 4 {
        continue;
      }
      if n.bits != 32 || n.ones < 22 {
        continue;
      }
      out := out + [n];
    }
    assert nets[..|nets|] == nets;
  }

  /** One round of the sweep: every network worth walking is walked completely. */
  method SweepLocalNets(interfaces: seq<Interface>) returns (nets: seq<Net>, visits: seq<seq<seq<Byte>>>)
    ensures forall n :: n in nets <==> Small(n) && exists f :: f in interfaces && f.up && !f.loopback && n in f.nets
    ensures |visits| == |nets| && forall i :: 0 <= i < |nets| ==> Sweeps(nets[i], visits[i]) && |visits[i]| <= 1024
  {
    nets := SweepableNets(interfaces);
    visits := [];
    for i := 0 to |nets|
      invariant |visits| == i && forall j :: 0 <= j < i ==> Sweeps(nets[j], visits[j]) && |visits[j]| <= 1024
    {
      assert nets[i] in nets;
      var visited := SweepNet(nets[i]);
      visits := visits + [visited];
    }
  }
}
