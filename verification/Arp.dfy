/** The ARP table and the queue of frames that wait for a MAC address: src/arp.c and the end of
    ipv4_forward in src/ip.c. */
module Arp {
  import opened Arith
  import opened Bits
  import opened Rib

  /** A hardware address; 0 is the zero address of an unused table slot. */
  type Mac = nat

  const ETHERTYPE_IP: nat := 0x0800
  const ETHERTYPE_ARP: nat := 0x0806
  const BROADCAST: Mac := 0xffff_ffff_ffff
  const ARPHRD_ETHER: nat := 1
  const ARPOP_REQUEST: nat := 1
  const ARPOP_REPLY: nat := 2

  /** struct my_ifnet, as far as forwarding and ARP read it. */
  datatype Interface = Interface(idx: nat, addr: u32, mac: Mac)

  /** The fields of an ARP message (RFC 826). */
  datatype Message = Message(hrd: nat, pro: nat, hln: nat, pln: nat, op: nat, sha: Mac, spa: u32, tha: Mac, tpa: u32)

  datatype Payload = Ipv4(bytes: seq<u8>) | ArpBody(msg: Message)

  datatype Frame = Frame(dhost: Mac, shost: Mac, etherType: nat, body: Payload)

  /** struct sendbuf: a frame and the next hop it waits for. */
  datatype Pending = Pending(nextip: u32, frame: Frame)

  /** One call of ether_output. */
  datatype Output = Output(ifp: Interface, frame: Frame)

  /** One call of add2arptable. */
  datatype Learnt = Learnt(ip: u32, mac: Mac)

  // ----- IPHASH

  function Xor(x: nat, y: nat): nat {
    if x == 0 then y else if y == 0 then x
    else (if x % 2 != y % 2 then 1 else 0) + 2 * Xor(x / 2, y / 2)
  }

  lemma {:induction false} XorBound(x: nat, y: nat, w: nat)
    requires x < Pow2(w) && y < Pow2(w)
    ensures Xor(x, y) < Pow2(w)
  {
    if x != 0 && y != 0 { XorBound(x / 2, y / 2, w - 1); }
  }

  lemma {:induction false} BitOfXor(x: nat, y: nat, k: nat)
    ensures Bit(Xor(x, y), k) <==> Bit(x, k) != Bit(y, k)
  {
    BitOfZero(k);
    if x != 0 && y != 0 && k > 0 { BitOfXor(x / 2, y / 2, k - 1); }
  }

  function ByteOf(ip: u32, k: nat): nat {
    Shr(ip, 8 * k) % 0x100
  }

  /** The w low digits of a number. */
  lemma {:induction false} BitOfLow(x: nat, w: nat, k: nat)
    requires k < w
    ensures Bit(x % Pow2(w), k) == Bit(x, k)
  {
    HalfParts(x, Pow2(w - 1));
    LowHalves(x, Pow2(w - 1));
    if k > 0 { BitOfLow(x / 2, w - 1, k - 1); }
  }

  lemma LowHalves(x: nat, p: nat)
    requires p > 0
    ensures x % (2 * p) % 2 == x % 2 && x % (2 * p) / 2 == x / 2 % p
  {
    HalfParts(x, p);
  }

  lemma Pow2At8()
    ensures Pow2(8) == 0x100
  {
    assert Pow2(4) == 16;
  }

  lemma BitOfByte(ip: u32, j: nat, k: nat)
    requires k < 8
    ensures Bit(ByteOf(ip, j), k) == Bit(ip, 8 * j + k)
  {
    hide Bit, Shr;
    Pow2At8();
    BitOfLow(Shr(ip, 8 * j), 8, k);
    BitOfShr(ip, 8 * j, k);
  }

  /** The exclusive or of the four bytes of an address. */
  function IpHash(ip: u32): (h: nat)
    ensures h < 256
  {
    Pow2At8();
    XorBound(ByteOf(ip, 0), ByteOf(ip, 1), 8);
    XorBound(ByteOf(ip, 2), ByteOf(ip, 3), 8);
    XorBound(Xor(ByteOf(ip, 0), ByteOf(ip, 1)), Xor(ByteOf(ip, 2), ByteOf(ip, 3)), 8);
    Xor(Xor(ByteOf(ip, 0), ByteOf(ip, 1)), Xor(ByteOf(ip, 2), ByteOf(ip, 3)))
  }

  function Digit(x: nat, k: nat): nat { if Bit(x, k) then 1 else 0 }

  /** Digit k of the slot number is the parity of the digits k of the four bytes. */
  lemma HashDigits(ip: u32, k: nat)
    requires k < 8
    ensures Bit(IpHash(ip), k) <==>
      (Digit(ip, k) + Digit(ip, k + 8) + Digit(ip, k + 16) + Digit(ip, k + 24)) % 2 == 1
  {
    hide Bit, ByteOf, Xor;
    BitOfByte(ip, 0, k);
    BitOfByte(ip, 1, k);
    BitOfByte(ip, 2, k);
    BitOfByte(ip, 3, k);
    BitOfXor(ByteOf(ip, 0), ByteOf(ip, 1), k);
    BitOfXor(ByteOf(ip, 2), ByteOf(ip, 3), k);
    BitOfXor(Xor(ByteOf(ip, 0), ByteOf(ip, 1)), Xor(ByteOf(ip, 2), ByteOf(ip, 3)), k);
  }

  /** The addresses differ, in byte j alone. */
  ghost predicate OneByteApart(a: u32, b: u32, j: nat) {
    a != b && j < 4 && forall k :: 0 <= k < 32 && k / 8 != j ==> Bit(a, k) == Bit(b, k)
  }

  /** Two addresses that differ in one byte have different slots. */
  lemma NeighboursApart(a: u32, b: u32, j: nat)
    requires OneByteApart(a, b, j)
    ensures IpHash(a) != IpHash(b)
  {
    hide Bit, IpHash;
    var k := DigitApart(a, b);
    assert k / 8 == j;
    var d := k % 8;
    HashDigits(a, d);
    HashDigits(b, d);
    forall i | 0 <= i < 4 && i != j ensures Digit(a, d + 8 * i) == Digit(b, d + 8 * i) {
      assert (d + 8 * i) / 8 == i;
    }
  }

  lemma DigitApart(a: u32, b: u32) returns (k: nat)
    requires a != b
    ensures k < 32 && Bit(a, k) != Bit(b, k)
  {
    hide Bit;
    Pow2At32();
    if forall i :: 0 <= i < 32 ==> Bit(a, i) == Bit(b, i) {
      SameDigits(a, b, 32);
      assert false;
    } else {
      k :| 0 <= k < 32 && Bit(a, k) != Bit(b, k);
    }
  }

  lemma Pow2At32()
    ensures Pow2(32) == 0x1_0000_0000
  {
    Pow2At8();
    PowersAdd(8, 8);
    PowersAdd(16, 16);
  }

  lemma ZeroHash()
    ensures IpHash(0) == 0
  {
    ShrIsZero(8);
    ShrIsZero(16);
    ShrIsZero(24);
  }

  lemma {:induction false} ShrIsZero(k: nat)
    ensures Shr(0, k) == 0
  {
    if k > 0 { ShrIsZero(k - 1); }
  }

  // ----- what the table knows, as a function of what was learnt

  /** The last address learnt for table slot h. */
  function LastAt(l: seq<Learnt>, h: nat): Option<Learnt> {
    if l == [] then None
    else if IpHash(l[|l| - 1].ip) == h then Some(l[|l| - 1])
    else LastAt(l[..|l| - 1], h)
  }

  /** The content of slot h: static storage starts as zero. */
  function SlotOf(l: seq<Learnt>, h: nat): Learnt {
    match LastAt(l, h)
    case Some(e) => e
    case None => Learnt(0, 0)
  }

  /** The answer for an address: the slot must hold that very address. */
  function MacOf(l: seq<Learnt>, ip: u32): Option<Mac> {
    if SlotOf(l, IpHash(ip)).ip == ip then Some(SlotOf(l, IpHash(ip)).mac) else None
  }

  /** The hardware address most recently learnt for an address. */
  function MostRecent(l: seq<Learnt>, ip: u32): Option<Mac> {
    if l == [] then None
    else if l[|l| - 1].ip == ip then Some(l[|l| - 1].mac)
    else MostRecent(l[..|l| - 1], ip)
  }

  /** Whatever the table answers is the most recent, except for the unused slot of 0.0.0.0. */
  lemma {:induction false} AnswerIsRecent(l: seq<Learnt>, ip: u32)
    requires MacOf(l, ip).Some?
    ensures MostRecent(l, ip) == MacOf(l, ip) || (ip == 0 && MacOf(l, ip) == Some(0) && LastAt(l, 0) == None)
  {
    hide IpHash;
    ZeroHash();
    if l != [] && IpHash(l[|l| - 1].ip) != IpHash(ip) { AnswerIsRecent(l[..|l| - 1], ip); }
  }

  /** An address that was learnt is answered unless an address of the same slot was learnt since. */
  lemma {:induction false} EvictedOnly(l: seq<Learnt>, ip: u32)
    requires MostRecent(l, ip).Some?
    ensures MacOf(l, ip).Some? <==> LastAt(l, IpHash(ip)).Some? && LastAt(l, IpHash(ip)).value.ip == ip
    ensures LastAt(l, IpHash(ip)).Some?
  {
    hide IpHash;
    if l[|l| - 1].ip != ip { EvictedOnly(l[..|l| - 1], ip); }
  }

  /** Learning one of them does not touch what is known of the other. */
  lemma NeverEvicts(l: seq<Learnt>, a: u32, b: u32, j: nat, mac: Mac)
    requires OneByteApart(a, b, j)
    ensures MacOf(l + [Learnt(b, mac)], a) == MacOf(l, a)
  {
    hide IpHash;
    NeighboursApart(a, b, j);
    assert (l + [Learnt(b, mac)])[..|l|] == l;
  }

  /** And what was just learnt is answered. */
  lemma JustLearnt(l: seq<Learnt>, a: u32, mac: Mac)
    ensures MacOf(l + [Learnt(a, mac)], a) == Some(mac)
  {
    hide IpHash;
  }

  // ----- the queue

  /** The frames of a queue that must wait, and those that can go. */
  function Waiting(q: seq<Pending>, l: seq<Learnt>): seq<Pending> {
    if q == [] then []
    else (if MacOf(l, q[0].nextip).None? then [q[0]] else []) + Waiting(q[1..], l)
  }

  function Due(q: seq<Pending>, l: seq<Learnt>): seq<Pending> {
    if q == [] then []
    else (if MacOf(l, q[0].nextip).Some? then [q[0]] else []) + Due(q[1..], l)
  }

  /** The frames as they are sent: to the hardware address of their next hop, else unchanged. */
  function Sent(ifp: Interface, q: seq<Pending>, l: seq<Learnt>): seq<Output> {
    if q == [] then []
    else
      (match MacOf(l, q[0].nextip)
       case Some(mac) => [Output(ifp, q[0].frame.(dhost := mac))]
       case None => []) + Sent(ifp, q[1..], l)
  }

  /** No frame is lost and none is duplicated. */
  lemma {:induction false} Conserved(q: seq<Pending>, l: seq<Learnt>)
    ensures multiset(Waiting(q, l)) + multiset(Due(q, l)) == multiset(q)
  {
    if q != [] {
      Conserved(q[1..], l);
      assert q == [q[0]] + q[1..];
    }
  }

  lemma {:induction false} WaitingUnknown(q: seq<Pending>, l: seq<Learnt>, k: nat)
    requires k < |Waiting(q, l)|
    ensures Waiting(q, l)[k] in q && MacOf(l, Waiting(q, l)[k].nextip).None?
  {
    if MacOf(l, q[0].nextip).None? {
      if k > 0 { WaitingUnknown(q[1..], l, k - 1); }
    } else {
      WaitingUnknown(q[1..], l, k);
    }
  }

  /** Each due frame goes out once, in queue order. */
  lemma {:induction false} SentIsDue(ifp: Interface, q: seq<Pending>, l: seq<Learnt>)
    ensures |Sent(ifp, q, l)| == |Due(q, l)|
    ensures forall k :: 0 <= k < |Due(q, l)| ==>
      MacOf(l, Due(q, l)[k].nextip).Some?
      && Sent(ifp, q, l)[k] == Output(ifp, Due(q, l)[k].frame.(dhost := MacOf(l, Due(q, l)[k].nextip).value))
  {
    if q != [] { SentIsDue(ifp, q[1..], l); }
  }

  // ----- the history of the queue

  /** A queued frame was sent to mac as output number pos, when the first `at` addresses were learnt. */
  datatype Flush = Flush(item: Pending, mac: Mac, at: nat, pos: nat)

  /** The output is the frame, to the address that the table gave for its next hop at that time. */
  ghost predicate FlushOK(f: Flush, l: seq<Learnt>, o: seq<Output>) {
    && f.at <= |l| && MacOf(l[..f.at], f.item.nextip) == Some(f.mac)
    && f.pos < |o| && o[f.pos].frame == f.item.frame.(dhost := f.mac)
  }

  /** Every flush is an output of its own, later ones after earlier ones. */
  ghost predicate LogOK(fs: seq<Flush>, l: seq<Learnt>, o: seq<Output>) {
    && (forall k :: 0 <= k < |fs| ==> FlushOK(fs[k], l, o))
    && forall j, k :: 0 <= j < k < |fs| ==> fs[j].pos < fs[k].pos
  }

  function Items(fs: seq<Flush>): multiset<Pending> {
    if fs == [] then multiset{} else Items(fs[..|fs| - 1]) + multiset{fs[|fs| - 1].item}
  }

  lemma ItemsPush(fs: seq<Flush>, f: Flush)
    ensures Items(fs + [f]) == Items(fs) + multiset{f.item}
  {
    assert (fs + [f])[..|fs|] == fs;
  }

  lemma LogKept(fs: seq<Flush>, l: seq<Learnt>, l': seq<Learnt>, o: seq<Output>, o': seq<Output>)
    requires LogOK(fs, l, o) && l <= l' && o <= o'
    ensures LogOK(fs, l', o')
  {
    hide MacOf;
    forall k | 0 <= k < |fs| ensures FlushOK(fs[k], l', o') {
      assert FlushOK(fs[k], l, o);
      assert l'[..fs[k].at] == l[..fs[k].at];
    }
  }

  /** Only IP frames are queued. */
  ghost predicate AllIp(q: seq<Pending>) {
    forall k :: 0 <= k < |q| ==> q[k].frame.etherType == 0x0800
  }

  lemma TakeOut(q: seq<Pending>, np: nat)
    requires np < |q|
    ensures multiset(q) == multiset(q[..np] + q[np + 1..]) + multiset{q[np]}
    ensures AllIp(q) ==> AllIp(q[..np] + q[np + 1..])
  {
    assert q == q[..np] + [q[np]] + q[np + 1..];
  }

  lemma FlushIs(x: Pending, mac: Mac, l: seq<Learnt>, o: seq<Output>, o': seq<Output>)
    requires MacOf(l, x.nextip) == Some(mac) && o <= o' && |o'| == |o| + 1 && o'[|o|].frame == x.frame.(dhost := mac)
    ensures FlushOK(Flush(x, mac, |l|, |o|), l, o')
  {
    assert l[..|l|] == l;
  }

  lemma LogBefore(fs: seq<Flush>, l: seq<Learnt>, o: seq<Output>)
    requires LogOK(fs, l, o)
    ensures forall k :: 0 <= k < |fs| ==> fs[k].pos < |o|
  {
    forall k | 0 <= k < |fs| ensures fs[k].pos < |o| { assert FlushOK(fs[k], l, o); }
  }

  lemma LogPush(fs: seq<Flush>, l: seq<Learnt>, o: seq<Output>, f: Flush)
    requires LogOK(fs, l, o) && FlushOK(f, l, o) && f.pos == |o| - 1
    requires forall k :: 0 <= k < |fs| ==> fs[k].pos < |o| - 1
    ensures LogOK(fs + [f], l, o)
  {
    hide FlushOK;
  }

  /** Over any run, a queued frame that was sent went to the hardware address most recently learnt for
      its next hop, unless that is 0.0.0.0. */
  lemma FlushRecent(fs: seq<Flush>, l: seq<Learnt>, o: seq<Output>, k: nat)
    requires LogOK(fs, l, o) && k < |fs| && fs[k].item.nextip != 0
    ensures fs[k].at <= |l| && MostRecent(l[..fs[k].at], fs[k].item.nextip) == Some(fs[k].mac)
    ensures fs[k].pos < |o| && o[fs[k].pos].frame == fs[k].item.frame.(dhost := fs[k].mac)
    ensures forall j :: 0 <= j < |fs| && j != k ==> fs[j].pos != fs[k].pos
  {
    hide MacOf, MostRecent, LastAt;
    assert FlushOK(fs[k], l, o);
    AnswerIsRecent(l[..fs[k].at], fs[k].item.nextip);
    forall j | 0 <= j < |fs| && j != k ensures fs[j].pos != fs[k].pos { if j < k {} else { assert k < j; } }
  }

  /** Asking everybody on the interface's network who has the address (RFC 826). */
  ghost function Asked(ifp: Interface, addr: u32): Output {
    Output(ifp, Frame(0xffff_ffff_ffff, ifp.mac, 0x0806,
                      ArpBody(Message(1, 0x0800, 6, 4, 1, ifp.mac, ifp.addr, 0xffff_ffff_ffff, addr))))
  }

  /** Telling the sender of a question that the interface has its own address. */
  ghost function Answered(ifp: Interface, spa: u32, sha: Mac): Output {
    Output(ifp, Frame(sha, ifp.mac, 0x0806, ArpBody(Message(1, 0x0800, 6, 4, 2, ifp.mac, ifp.addr, sha, spa))))
  }

  class ArpState {
    const ips: array<u32>
    const macs: array<Mac>
    var sbuf: seq<Pending>
    var outputs: seq<Output>

    /** What was learnt, what was ever queued, and what was sent from the queue. */
    ghost var learnt: seq<Learnt>
    ghost var queued: multiset<Pending>
    ghost var flushed: multiset<Pending>
    ghost var flushes: seq<Flush>

    ghost predicate Valid()
      reads this, ips, macs
    {
      && ips.Length == 256 && macs.Length == 256 && ips as object != macs
      && (forall h :: 0 <= h < 256 ==> Learnt(ips[h], macs[h]) == SlotOf(learnt, h))
      && AllIp(sbuf)
      && queued == multiset(sbuf) + flushed && flushed == Items(flushes) && LogOK(flushes, learnt, outputs)
    }

    /** Static storage and arp_init. */
    constructor ()
      ensures Valid() && sbuf == [] && outputs == [] && learnt == [] && queued == multiset{}
      ensures fresh(ips) && fresh(macs)
    {
      ips, macs := new u32[256](_ => 0), new Mac[256](_ => 0);
      sbuf, outputs, learnt, queued, flushed, flushes := [], [], [], multiset{}, multiset{}, [];
    }

    /** find_mac */
    method FindMac(addr: u32) returns (mac: Option<Mac>)
      requires Valid()
      ensures mac == MacOf(learnt, addr)
    {
      var hash := IpHash(addr);
      mac := None;
      if ips[hash] == addr { mac := Some(macs[hash]); }
    }

    /** add2arptable */
    method Learn(addr: u32, mac: Mac)
      requires Valid()
      modifies this, ips, macs
      ensures Valid() && learnt == old(learnt) + [Learnt(addr, mac)]
      ensures sbuf == old(sbuf) && outputs == old(outputs) && queued == old(queued) && flushed == old(flushed)
      ensures flushes == old(flushes)
    {
      var hash := IpHash(addr);
      ips[hash] := addr;
      macs[hash] := mac;
      learnt := learnt + [Learnt(addr, mac)];
      assert learnt[..|learnt| - 1] == old(learnt);
      LogKept(flushes, old(learnt), learnt, outputs, outputs);
    }

    /** ether_output */
    method EtherOutput(ifp: Interface, frame: Frame)
      requires Valid()
      modifies this`outputs
      ensures Valid() && outputs == old(outputs) + [Output(ifp, frame)]
    {
      LogKept(flushes, learnt, learnt, outputs, outputs + [Output(ifp, frame)]);
      outputs := outputs + [Output(ifp, frame)];
    }

    /** add2sendbuf: the copy goes to the head of the list. */
    method AddToSendbuf(frame: Frame, nextip: u32)
      requires Valid() && frame.etherType == 0x0800
      modifies this`sbuf, this`queued
      ensures Valid() && sbuf == [Pending(nextip, frame)] + old(sbuf)
      ensures queued == old(queued) + multiset{Pending(nextip, frame)}
    {
      hide SlotOf, LogOK, Items;
      sbuf := [Pending(nextip, frame)] + sbuf;
      queued := queued + multiset{Pending(nextip, frame)};
    }

    /** arp_req: ask on the interface who has the address. */
    method Request(ifp: Interface, addr: u32)
      requires Valid()
      modifies this`outputs
      ensures Valid() && outputs == old(outputs) + [Asked(ifp, addr)]
    {
      hide SlotOf, LogOK, Items;
      var msg := Message(ARPHRD_ETHER, ETHERTYPE_IP, 6, 4, ARPOP_REQUEST, ifp.mac, ifp.addr, BROADCAST, addr);
      EtherOutput(ifp, Frame(BROADCAST, ifp.mac, ETHERTYPE_ARP, ArpBody(msg)));
    }

    /** The end of ipv4_forward: send to a known next hop, else ask for it and queue the frame. */
    method Transmit(ifp: Interface, nextip: u32, frame: Frame)
      requires Valid() && frame.etherType == 0x0800
      modifies this`sbuf, this`queued, this`outputs
      ensures Valid() && (forall x :: x in multiset(old(sbuf)) ==> x in multiset(sbuf))
      ensures match MacOf(learnt, nextip)
        case Some(mac) =>
          sbuf == old(sbuf) && outputs == old(outputs) + [Output(ifp, frame.(dhost := mac))] && queued == old(queued)
        case None =>
          && sbuf == [Pending(nextip, frame)] + old(sbuf) && outputs == old(outputs) + [Asked(ifp, nextip)]
          && queued == old(queued) + multiset{Pending(nextip, frame)}
    {
      var mac := FindMac(nextip);
      if mac == None {
        Request(ifp, nextip);
        AddToSendbuf(frame, nextip);
      } else {
        EtherOutput(ifp, frame.(dhost := mac.value));
      }
    }

    /** arp_req_input: learn the sender, and answer a question for the interface's own address.
        No queued frame is sent. */
    method RequestInput(ifp: Interface, spa: u32, sha: Mac, tpa: u32)
      requires Valid()
      modifies this, ips, macs
      ensures Valid() && learnt == old(learnt) + [Learnt(spa, sha)] && sbuf == old(sbuf)
      ensures queued == old(queued) && flushed == old(flushed) && flushes == old(flushes)
      ensures outputs == old(outputs) + if tpa == ifp.addr then [Answered(ifp, spa, sha)] else []
    {
      hide SlotOf, LogOK, Items, IpHash;
      Learn(spa, sha);
      if tpa != ifp.addr { return; }
      var msg := Message(ARPHRD_ETHER, ETHERTYPE_IP, 6, 4, ARPOP_REPLY, ifp.mac, ifp.addr, sha, spa);
      EtherOutput(ifp, Frame(sha, ifp.mac, ETHERTYPE_ARP, ArpBody(msg)));
    }

    /** Send the frame at np of the queue and unlink it. */
    method SendQueued(ifp: Interface, np: nat, mac: Mac)
      requires Valid() && np < |sbuf| && MacOf(learnt, sbuf[np].nextip) == Some(mac)
      modifies this`sbuf, this`outputs, this`flushed, this`flushes
      ensures Valid() && sbuf == old(sbuf[..np] + sbuf[np + 1..])
      ensures outputs == old(outputs) + [Output(ifp, old(sbuf[np]).frame.(dhost := mac))]
      ensures flushed == old(flushed) + multiset{old(sbuf[np])}
      ensures flushes == old(flushes) + [Flush(old(sbuf[np]), mac, |learnt|, |old(outputs)|)]
    {
      hide MacOf, SlotOf, Items, LogOK, FlushOK, AllIp;
      FlushIs(sbuf[np], mac, learnt, outputs, outputs + [Output(ifp, sbuf[np].frame.(dhost := mac))]);
      ghost var f := Flush(sbuf[np], mac, |learnt|, |outputs|);
      ghost var o := outputs;
      EtherOutput(ifp, sbuf[np].frame.(dhost := mac));
      LogBefore(flushes, learnt, o);
      LogPush(flushes, learnt, outputs, f);
      ItemsPush(flushes, f);
      flushed, flushes := flushed + multiset{sbuf[np]}, flushes + [f];
      TakeOut(sbuf, np);
      sbuf := sbuf[..np] + sbuf[np + 1..];
    }

    /** One round of the flush: pass a frame that must wait, or send and unlink it.  A frame of any
        type but IP would be neither. */
    method FlushOne(ifp: Interface, np: nat, ghost q: seq<Pending>, ghost i: nat, ghost o0: seq<Output>,
            ghost f0: multiset<Pending>)
      returns (np': nat)
      requires Valid() && np < |sbuf| && Flushing(ifp, q, i, learnt, np, sbuf, o0, outputs, f0, flushed)
      modifies this`sbuf, this`outputs, this`flushed, this`flushes
      ensures Valid() && old(flushes) <= flushes && i < |q| && np' <= |sbuf|
      ensures Flushing(ifp, q, i + 1, learnt, np', sbuf, o0, outputs, f0, flushed)
    {
      hide MacOf, Flushing, Waiting, Due, Sent, SlotOf, IpHash;
      FlushStep(ifp, q, i, learnt, np, sbuf, o0, outputs, f0, flushed);
      np' := np;
      if sbuf[np].frame.etherType == ETHERTYPE_IP {
        var mac := FindMac(sbuf[np].nextip);
        if mac == None {
          np' := np + 1;
        } else {
          SendQueued(ifp, np, mac.value);
        }
      }
    }

    /** arp_reply_input: learn the sender and send every queued frame whose next hop is known.  The
        loop ends because only IP frames are queued: any other frame would never be passed. */
    method ReplyInput(ifp: Interface, spa: u32, sha: Mac)
      requires Valid()
      modifies this, ips, macs
      ensures Valid() && learnt == old(learnt) + [Learnt(spa, sha)]
      ensures sbuf == Waiting(old(sbuf), learnt)
      ensures outputs == old(outputs) + Sent(ifp, old(sbuf), learnt)
      ensures queued == old(queued) && flushed == old(flushed) + multiset(Due(old(sbuf), learnt))
      ensures old(flushes) <= flushes
      ensures forall k :: 0 <= k < |sbuf| ==> MacOf(learnt, sbuf[k].nextip).None?
    {
      hide MacOf, Flushing, Waiting, Due, Sent, SlotOf, IpHash;
      Learn(spa, sha);
      ghost var q, o0, f0, i := sbuf, outputs, flushed, 0;
      var np: nat := 0;
      FlushStart(ifp, q, learnt, o0, f0);
      while np < |sbuf|
        invariant np <= |sbuf| && i <= |q| && Valid() && learnt == old(learnt) + [Learnt(spa, sha)]
        invariant queued == old(queued) && old(flushes) <= flushes
        invariant Flushing(ifp, q, i, learnt, np, sbuf, o0, outputs, f0, flushed)
        modifies this`sbuf, this`outputs, this`flushed, this`flushes
        decreases |q| - i
      {
        np := FlushOne(ifp, np, q, i, o0, f0);
        i := i + 1;
      }
      FlushEnd(ifp, q, i, learnt, np, sbuf, o0, outputs, f0, flushed);
      forall k | 0 <= k < |sbuf| ensures MacOf(learnt, sbuf[k].nextip).None? { WaitingUnknown(q, learnt, k); }
    }

    /** arp_input: only requests and replies for IPv4 over Ethernet are looked at. */
    method Input(ifp: Interface, m: Message)
      requires Valid()
      modifies this, ips, macs
      ensures Valid() && queued == old(queued)
      ensures m.hrd == 1 && m.hln == 6 && m.pro == 0x0800 && m.pln == 4 && m.op == 1 ==>
        && learnt == old(learnt) + [Learnt(m.spa, m.sha)] && sbuf == old(sbuf)
        && outputs == old(outputs) + if m.tpa == ifp.addr then [Answered(ifp, m.spa, m.sha)] else []
      ensures m.hrd == 1 && m.hln == 6 && m.pro == 0x0800 && m.pln == 4 && m.op == 2 ==>
        && learnt == old(learnt) + [Learnt(m.spa, m.sha)] && sbuf == Waiting(old(sbuf), learnt)
        && outputs == old(outputs) + Sent(ifp, old(sbuf), learnt)
      ensures m.hrd != 1 || m.hln != 6 || m.pro != 0x0800 || m.pln != 4 || (m.op != 1 && m.op != 2) ==>
        learnt == old(learnt) && sbuf == old(sbuf) && outputs == old(outputs)
    {
      hide SlotOf, LogOK, Items, IpHash, MacOf, Waiting, Sent, Due;
      if m.hrd != ARPHRD_ETHER || m.hln != 6 { return; }
      if m.pro != ETHERTYPE_IP || m.pln != 4 { return; }
      if m.op == ARPOP_REQUEST {
        RequestInput(ifp, m.spa, m.sha, m.tpa);
      } else if m.op == ARPOP_REPLY {
        ReplyInput(ifp, m.spa, m.sha);
      }
    }
  }

  /** The first i frames of the queue q have been dealt with; those of them that wait are the first
      np frames of s. */
  ghost predicate Flushing(ifp: Interface, q: seq<Pending>, i: nat, l: seq<Learnt>, np: nat, s: seq<Pending>,
                           o0: seq<Output>, o: seq<Output>, f0: multiset<Pending>, f: multiset<Pending>) {
    && i <= |q| && s == Waiting(q[..i], l) + q[i..] && np == |Waiting(q[..i], l)|
    && o == o0 + Sent(ifp, q[..i], l) && f == f0 + multiset(Due(q[..i], l))
  }

  lemma FlushStart(ifp: Interface, q: seq<Pending>, l: seq<Learnt>, o: seq<Output>, f: multiset<Pending>)
    ensures Flushing(ifp, q, 0, l, 0, q, o, o, f, f)
  {}

  lemma FlushStep(ifp: Interface, q: seq<Pending>, i: nat, l: seq<Learnt>, np: nat, s: seq<Pending>,
                  o0: seq<Output>, o: seq<Output>, f0: multiset<Pending>, f: multiset<Pending>)
    requires Flushing(ifp, q, i, l, np, s, o0, o, f0, f) && np < |s|
    ensures i < |q|
    ensures match MacOf(l, s[np].nextip)
      case None => Flushing(ifp, q, i + 1, l, np + 1, s, o0, o, f0, f)
      case Some(mac) => Flushing(ifp, q, i + 1, l, np, s[..np] + s[np + 1..], o0, o + [Output(ifp,
          s[np].frame.(dhost := mac))],
                                 f0, f + multiset{s[np]})
  {
    hide MacOf, Waiting, Due, Sent;
    assert s[np] == q[i];
    QueueStep(ifp, q, i, l);
  }

  lemma FlushEnd(ifp: Interface, q: seq<Pending>, i: nat, l: seq<Learnt>, np: nat, s: seq<Pending>,
                 o0: seq<Output>, o: seq<Output>, f0: multiset<Pending>, f: multiset<Pending>)
    requires Flushing(ifp, q, i, l, np, s, o0, o, f0, f) && np >= |s|
    ensures s == Waiting(q, l) && o == o0 + Sent(ifp, q, l) && f == f0 + multiset(Due(q, l))
  {
    assert i == |q| && q[..i] == q;
  }

  /** One more frame of the queue has been dealt with. */
  lemma QueueStep(ifp: Interface, q: seq<Pending>, i: nat, l: seq<Learnt>)
    requires i < |q|
    ensures q[i..] == [q[i]] + q[i + 1..]
    ensures Waiting(q[..i + 1], l) == Waiting(q[..i], l) + (if MacOf(l, q[i].nextip).None? then [q[i]] else [])
    ensures Due(q[..i + 1], l) == Due(q[..i], l) + (if MacOf(l, q[i].nextip).Some? then [q[i]] else [])
    ensures Sent(ifp, q[..i + 1], l) == Sent(ifp, q[..i], l) +
            (match MacOf(l, q[i].nextip) case Some(mac) => [Output(ifp, q[i].frame.(dhost := mac))] case None => [])
  {
    hide MacOf, Waiting, Due, Sent;
    assert q[..i + 1] == q[..i] + [q[i]];
    WaitingAppend(q[..i], q[i], l);
    DueAppend(q[..i], q[i], l);
    SentAppend(ifp, q[..i], q[i], l);
  }

  lemma {:induction false} WaitingAppend(q: seq<Pending>, x: Pending, l: seq<Learnt>)
    ensures Waiting(q + [x], l) == Waiting(q, l) + (if MacOf(l, x.nextip).None? then [x] else [])
  {
    hide MacOf;
    if q != [] {
      assert (q + [x])[1..] == q[1..] + [x];
      WaitingAppend(q[1..], x, l);
    }
  }

  lemma {:induction false} DueAppend(q: seq<Pending>, x: Pending, l: seq<Learnt>)
    ensures Due(q + [x], l) == Due(q, l) + (if MacOf(l, x.nextip).Some? then [x] else [])
  {
    hide MacOf;
    if q != [] {
      assert (q + [x])[1..] == q[1..] + [x];
      DueAppend(q[1..], x, l);
    }
  }

  lemma {:induction false} SentAppend(ifp: Interface, q: seq<Pending>, x: Pending, l: seq<Learnt>)
    ensures Sent(ifp, q + [x], l) == Sent(ifp, q, l) +
            (match MacOf(l, x.nextip) case Some(mac) => [Output(ifp, x.frame.(dhost := mac))] case None => [])
  {
    hide MacOf;
    if q != [] {
      assert (q + [x])[1..] == q[1..] + [x];
      SentAppend(ifp, q[1..], x, l);
    }
  }
}
