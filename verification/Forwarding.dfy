/** ipv4_input, ipv4_output, ipv4_forward and route_add of src/ip.c on top of the routing table, the
    header refresh and the ARP queue. */
module Forwarding {
  import opened Bits
  import opened Arith
  import opened Rib
  import opened Trie
  import opened Radix
  import opened Trace
  import opened Cost
  import opened PoptrieState
  import opened Routes
  import opened Direct
  import opened Subtree
  import opened TableShape
  import opened FastLookup
  import Checksum
  import Arp

  /** struct rtentry. */
  datatype RtEntry = RtEntry(ifp: Arp.Interface, addr: u32)

  /** What becomes of a packet. */
  datatype Fate = Dropped | Delivered | Forwarded(entry: RtEntry)

  /** ntohl(ip_dst) */
  function Destination(s: seq<u8>): (d: u32)
    requires |s| >= 20
    ensures d == (s[16] as nat) * 0x100_0000 + (s[17] as nat) * 0x1_0000 + (s[18] as nat) * 0x100 + s[19]
  {
    var high: nat, low: nat := Checksum.Word(s, 8), Checksum.Word(s, 9);
    high * 0x1_0000 + low
  }

  /** ntohs(ip_len) */
  function TotalLength(s: seq<u8>): (n: nat)
    requires |s| >= 20
    ensures n == (s[2] as nat) * 0x100 + s[3]
  {
    Checksum.Word(s, 1)
  }

  /** A header with room for its fields, inside a buffer that holds the whole packet. */
  predicate WellFormed(s: seq<u8>) {
    |s| >= 20 && 20 <= Checksum.HeaderLength(s) <= |s| && TotalLength(s) <= |s|
  }

  const IPPROTO_TCP: nat := 6
  const IPPROTO_UDP: nat := 17

  /** A packet given to tcp_input (6) or udp_input (17), with the place of its payload. */
  datatype Delivery = Delivery(protocol: nat, packet: seq<u8>, payload: nat)

  /** The greatest multiple of p up to x. */
  function Floor(x: nat, p: nat): (y: nat)
    requires p > 0
    ensures y <= x
  {
    DivParts(x, p);
    x / p * p
  }

  lemma FloorIs(x: nat, p: nat)
    requires p > 0
    ensures Floor(x, p) == x / p * p
  {}

  /** The address without its host bits, as create_if masks it. */
  function Masked(addr: u32, plen: nat): u32
    requires 1 <= plen <= 32
  {
    Floor(addr, Pow2(32 - plen))
  }

  lemma {:induction false} LowZero(y: nat, m: nat, k: nat)
    requires k < m
    ensures !Bit(y * Pow2(m), k)
  {
    Doubling(m - 1);
    Halving(y, Pow2(m - 1));
    if k > 0 { LowZero(y, m - 1, k - 1); }
  }

  lemma Halving(y: nat, p: nat)
    ensures y * (2 * p) % 2 == 0 && y * (2 * p) / 2 == y * p
  {
    assert y * (2 * p) == 2 * (y * p);
  }

  lemma MaskedCanonical(addr: u32, plen: nat)
    requires 1 <= plen <= 32
    ensures Canonical(Masked(addr, plen), plen)
  {
    var m := 32 - plen;
    hide Pow2, Bit, Floor;
    FloorIs(addr, Pow2(m));
    forall k | 0 <= k < m ensures !Bit(Masked(addr, plen), k) { LowZero(addr / Pow2(m), m, k); }
  }

  /** Masking changes no digit of the network. */
  lemma MaskedKey(addr: u32, plen: nat)
    requires 1 <= plen <= 32
    ensures KeyOf(Masked(addr, plen), plen) == Key(addr, plen)
    ensures Masked(addr, plen) == 0 <==> Shr(addr, 32 - plen) == 0
  {
    var m := 32 - plen;
    hide Pow2, Shr, Floor;
    var p, y := Pow2(m), addr / Pow2(m);
    FloorIs(addr, p);
    ShrIsDiv(addr, m);
    ShrIsDiv(y * p, m);
    Remainder(y * p, p, y, 0);
  }

  // ----- what becomes of a packet

  /** The packet has its TTL one lower and its checksum renewed, and is otherwise unchanged. */
  ghost predicate Passed(s: seq<u8>, s': seq<u8>) {
    && WellFormed(s) && |s'| == |s| && (s'[8] as nat + 1) % 0x100 == s[8]
    && (forall i :: 0 <= i < |s| && i != 8 && i != 10 && i != 11 ==> s'[i] == s[i])
    && Checksum.Sum16(s', Checksum.HeaderLength(s)) == 0
    && Checksum.Word(s', 5) == Checksum.Sum16(s'[10 := 0][11 := 0], Checksum.HeaderLength(s))
  }

  /** The ARP state after a frame for nextip was handed over: sent when the address is known, else asked
      for and queued. */
  ghost predicate HandedOver(learnt: seq<Arp.Learnt>, q: seq<Arp.Pending>, q': seq<Arp.Pending>,
                             o: seq<Arp.Output>, o': seq<Arp.Output>, ifp: Arp.Interface, nextip: u32,
                             frame: Arp.Frame) {
    match Arp.MacOf(learnt, nextip)
    case Some(mac) => q' == q && o' == o + [Arp.Output(ifp, frame.(dhost := mac))]
    case None => q' == [Arp.Pending(nextip, frame)] + q && o' == o + [Arp.Asked(ifp, nextip)]
  }

  /** A packet was passed on through the entry: for its gateway, or without one for its destination. */
  ghost predicate SentOn(entry: RtEntry, s: seq<u8>, s': seq<u8>, learnt: seq<Arp.Learnt>, q: seq<Arp.Pending>,
                         q': seq<Arp.Pending>, o: seq<Arp.Output>, o': seq<Arp.Output>) {
    && Passed(s, s') && TotalLength(s) <= |s'|
    && var frame := Arp.Frame(0, entry.ifp.mac, 0x0800, Arp.Ipv4(s'[..TotalLength(s)]));
       && (entry.addr != 0 ==> HandedOver(learnt, q, q', o, o', entry.ifp, entry.addr, frame))
       && (entry.addr == 0 ==> HandedOver(learnt, q, q', o, o', entry.ifp, Destination(s), frame))
  }

  /** What became of a packet: only a forwarded one is changed and handed to ARP, and only a delivered one
      is given to its protocol. */
  ghost predicate Settled(fate: Fate, s: seq<u8>, s': seq<u8>, learnt: seq<Arp.Learnt>, q: seq<Arp.Pending>,
                          q': seq<Arp.Pending>, o: seq<Arp.Output>, o': seq<Arp.Output>,
                          d: seq<Delivery>, d': seq<Delivery>)
    requires WellFormed(s)
  {
    match fate
    case Dropped => s' == s && q' == q && o' == o && d' == d
    case Delivered => s' == s && q' == q && o' == o && d' == d + [Delivery(s[9], s, Checksum.HeaderLength(s))]
    case Forwarded(entry) => d' == d && SentOn(entry, s, s', learnt, q, q', o, o')
  }

  class Ipv4Stack {
    const routes: Poptrie
    const arp: Arp.ArpState
    const l3bridge: bool
    var ifs: seq<Arp.Interface>
    /** The route entries that next-hop pointers refer to; pointer 0 is NULL. */
    var entries: seq<RtEntry>
    /** Packets given to TCP and UDP. */
    var delivered: seq<Delivery>

    constructor (routes: Poptrie, arp: Arp.ArpState, l3bridge: bool)
      requires Hops(routes) == [0]
      ensures this.routes == routes && this.arp == arp && this.l3bridge == l3bridge
      ensures ifs == [] && entries == [] && delivered == [] && Wired()
    {
      this.routes, this.arp, this.l3bridge := routes, arp, l3bridge;
      ifs, entries, delivered := [], [], [];
    }

    ghost predicate ArpApart(iph: array<u8>) {
      iph as object != arp.ips && iph as object != arp.macs
    }

    /** Some interface of the host has the address. */
    ghost predicate Mine(dst: u32)
      reads `ifs
    {
      exists i :: 0 <= i < |ifs| && ifs[i].addr == dst
    }

    /** is_to_me */
    method IsToMe(dst: u32) returns (mine: bool)
      ensures mine <==> exists i :: 0 <= i < |ifs| && ifs[i].addr == dst
    {
      var np := 0;
      while np < |ifs|
        invariant 0 <= np <= |ifs| && forall i :: 0 <= i < np ==> ifs[i].addr != dst
      {
        if ifs[np].addr == dst { return true; }
        np := np + 1;
      }
      mine := false;
    }

    /** A next-hop pointer is NULL or refers to an entry. */
    ghost predicate Refers(hop: Hop)
      reads `entries
    {
      hop <= |entries|
    }

    /** Every route goes through an interface of the host, and every next hop of the routing table is
        NULL or a route entry. */
    ghost predicate Wired()
      reads `ifs, `entries, routes, routes.entries
    {
      (forall e :: e in entries ==> e.ifp in ifs) && (forall h :: h in Hops(routes) ==> Refers(h))
    }

    /** A packet that forwarding hands back to input, because it is for the interface of its route, is for
        the host, so that input does not forward it again. */
    lemma Ends(hop: Hop, dst: u32)
      requires Wired() && 0 < hop <= |entries| && entries[hop - 1].ifp.addr == dst
      ensures exists i :: 0 <= i < |ifs| && ifs[i].addr == dst
    {
      assert entries[hop - 1] in entries;
      var i :| 0 <= i < |ifs| && ifs[i] == entries[hop - 1].ifp;
      assert ifs[i].addr == dst;
    }

    /** The other way round: a packet for no interface of the host is not for the interface of its route. */
    lemma Onward(hop: Hop, dst: u32)
      requires Wired() && hop <= |entries| && forall i :: 0 <= i < |ifs| ==> ifs[i].addr != dst
      ensures hop > 0 ==> entries[hop - 1].ifp.addr != dst
    {
      if hop > 0 && entries[hop - 1].ifp.addr == dst { Ends(hop, dst); }
    }

    /** Every answer of the routing table is NULL or an entry. */
    lemma AnswerRefers(dst: u32)
      requires Wired()
      ensures Refers(Answer(routes, dst))
    {}

    // ----- interfaces and routes

    /** route_add: a new entry, and its pointer as the next hop of the prefix.  The entry is made even if
        the routing table refuses it. */
    method AddRoute(ifp: Arp.Interface, next: u32, dst: u32, plen: nat)
      requires Kept(routes) && Wired() && ifp in ifs
      requires plen <= 32 && (plen < 18 ==> Canonical(dst, plen))
      requires this !in routes.Foot()
      modifies `entries, routes, routes.Foot(), routes.dir, routes.altdir, routes.entries, Objs(routes.shape)
      ensures ifs == old(ifs) && entries == old(entries) + [RtEntry(ifp, next)]
      ensures routes.Fails() == old(routes.Fails()) ==>
        && Kept(routes) && Wired() && (old(Routes.Valid(routes)) ==> Routes.Valid(routes))
        && RouteMap(routes) ==
          var key := KeyOf(dst, plen);
          if key in old(RouteMap(routes)) || |old(Hops(routes))| == FIB_SIZE then old(RouteMap(routes))
          else old(RouteMap(routes))[key := |entries|]
    {
      hide Kept, Routes.Valid, Poptrie.Fails, Poptrie.Foot, Poptrie.Mem, Poptrie.H, Objs, AddOutcome, Hops, Named,
           Spends, KeyOf, Canonical;
      routes.FootHeld();
      Allocated(routes.shape);
      ghost var s, hops := Snap(routes), Hops(routes);
      assert |entries| + 1 !in hops;
      entries := entries + [RtEntry(ifp, next)];
      var ret;
      ghost var sw;
      ret, sw := RouteAdd(routes, dst, plen, |entries|);
      if routes.Fails() == old(routes.Fails()) {
        AddedRoute(s, Snap(routes), sw, ret, dst, plen, |entries|);
      }
    }

    lemma AddedRoute(s: State, s': State, sw: nat, ret: int, prefix: u32, len: nat, h: Hop)
      requires len <= 32 && AddOutcome(s, s', sw, ret, prefix, len, h) && h !in s.hops
      ensures var key := KeyOf(prefix, len);
        RoutesOf(s') ==
          if key in RoutesOf(s) || |s.hops| == FIB_SIZE then RoutesOf(s) else RoutesOf(s)[key := h]
    {
      hide KeyOf, Named, PutStep, HopStep, Publishes, Sound, AnsweredFrom, RangeFresh;
    }

    /** The end of create_if: the interface joins the list, and its own network becomes a route, unless
        that is 0. */
    method AddInterface(ifp: Arp.Interface, plen: nat)
      requires Kept(routes) && Wired() && 1 <= plen <= 32
      requires this !in routes.Foot()
      modifies `ifs, `entries, routes, routes.Foot(), routes.dir, routes.altdir, routes.entries, Objs(routes.shape)
      ensures ifs == [ifp] + old(ifs)
      ensures entries == old(entries) + if Shr(ifp.addr, 32 - plen) == 0 then [] else [RtEntry(ifp, 0)]
      ensures routes.Fails() == old(routes.Fails()) ==>
        && Kept(routes) && Wired() && (old(Routes.Valid(routes)) ==> Routes.Valid(routes))
        && RouteMap(routes) ==
          var key := Key(ifp.addr, plen);
          if Shr(ifp.addr, 32 - plen) == 0 || key in old(RouteMap(routes)) || |old(Hops(routes))| == FIB_SIZE
          then old(RouteMap(routes)) else old(RouteMap(routes))[key := |entries|]
    {
      hide Kept, Routes.Valid, Poptrie.Fails, Poptrie.Foot, Objs, Hops, Named, Masked, Canonical, Shr, Key, KeyOf;
      routes.FootHeld();
      Allocated(routes.shape);
      ifs := [ifp] + ifs;
      var dst := Masked(ifp.addr, plen);
      MaskedCanonical(ifp.addr, plen);
      MaskedKey(ifp.addr, plen);
      if dst != 0 { AddRoute(ifp, 0, dst, plen); }
    }

    // ----- packets

    /** The end of ipv4_forward: refresh the header and hand the frame over for the next hop. */
    method SendOn(iph: array<u8>, entry: RtEntry)
      requires arp.Valid() && WellFormed(iph[..]) && ArpApart(iph)
      modifies iph, arp`sbuf, arp`queued, arp`outputs
      ensures arp.Valid()
      ensures SentOn(entry, old(iph[..]), iph[..], arp.learnt, old(arp.sbuf), arp.sbuf, old(arp.outputs), arp.outputs)
    {
      hide Checksum.Sum16, Checksum.HeaderLength, Checksum.Word, Arp.MacOf, Arp.SlotOf, Arp.LogOK, Arp.Items,
           Arp.ArpState.Valid, Destination, TotalLength, WellFormed, Passed, SentOn;
      ghost var s: seq<u8> := iph[..];
      HeaderFits(s);
      var len := TotalLength(iph[..]);
      Checksum.Refresh(iph);
      ghost var s': seq<u8> := iph[..];
      assert forall i :: 0 <= i < |s| && i != 8 && i != 10 && i != 11 ==> s'[i] == s[i];
      RefreshPassed(s, s');
      var nextip := if entry.addr == 0 then Destination(iph[..]) else entry.addr;
      ghost var q, o := arp.sbuf, arp.outputs;
      arp.Transmit(entry.ifp, nextip, Arp.Frame(0, entry.ifp.mac, Arp.ETHERTYPE_IP, Arp.Ipv4(iph[..len])));
      SentOnIs(entry, s, s', arp.learnt, q, arp.sbuf, o, arp.outputs, nextip);
    }

    lemma RefreshPassed(s: seq<u8>, s': seq<u8>)
      requires WellFormed(s) && |s'| == |s| && s'[8] == Checksum.Decremented(s[8])
      requires forall i :: 0 <= i < |s| && i != 8 && i != 10 && i != 11 ==> s'[i] == s[i]
      requires Checksum.Sum16(s', Checksum.HeaderLength(s)) == 0
      requires Checksum.Word(s', 5) == Checksum.Sum16(s'[10 := 0][11 := 0], Checksum.HeaderLength(s))
      ensures Passed(s, s') && |s'| >= 20 && TotalLength(s) <= |s'| && Destination(s') == Destination(s)
    {
      hide Checksum.Sum16, Checksum.HeaderLength, Checksum.Word;
    }

    lemma SentOnIs(entry: RtEntry, s: seq<u8>, s': seq<u8>, learnt: seq<Arp.Learnt>, q: seq<Arp.Pending>,
                   q': seq<Arp.Pending>, o: seq<Arp.Output>, o': seq<Arp.Output>, nextip: u32)
      requires |s| >= 20 && Passed(s, s') && TotalLength(s) <= |s'|
      requires nextip == if entry.addr == 0 then Destination(s) else entry.addr
      requires HandedOver(learnt, q, q', o, o', entry.ifp, nextip,
                          Arp.Frame(0, entry.ifp.mac, 0x0800, Arp.Ipv4(s'[..TotalLength(s)])))
      ensures SentOn(entry, s, s', learnt, q, q', o, o')
    {
      hide Passed, HandedOver, Destination, TotalLength;
    }

    lemma HeaderFits(s: seq<u8>)
      requires WellFormed(s)
      ensures |s| >= 20 && 20 <= Checksum.HeaderLength(s) <= |s| && TotalLength(s) <= |s|
    {}

    lemma SettledDropped(s: seq<u8>, learnt: seq<Arp.Learnt>, q: seq<Arp.Pending>, o: seq<Arp.Output>, d: seq<Delivery>)
      requires WellFormed(s)
      ensures Settled(Dropped, s, s, learnt, q, q, o, o, d, d)
    {}

    lemma SettledTaken(s: seq<u8>, learnt: seq<Arp.Learnt>, q: seq<Arp.Pending>, o: seq<Arp.Output>, d: seq<Delivery>)
      requires WellFormed(s)
      ensures |s| >= 20 && Settled(Delivered, s, s, learnt, q, q, o, o, d,
                                   d + [Delivery(s[9], s, Checksum.HeaderLength(s))])
    {}

    lemma SettledSent(entry: RtEntry, s: seq<u8>, s': seq<u8>, learnt: seq<Arp.Learnt>, q: seq<Arp.Pending>,
                      q': seq<Arp.Pending>, o: seq<Arp.Output>, o': seq<Arp.Output>, d: seq<Delivery>)
      requires WellFormed(s) && SentOn(entry, s, s', learnt, q, q', o, o')
      ensures Settled(Forwarded(entry), s, s', learnt, q, q', o, o', d, d)
    {}

    /** ipv4_forward.  A packet without a route is dropped; one for the interface of its route is for the host
        and goes to input, the only recursion; any other is passed on through its route. */
    method Forward(iph: array<u8>) returns (ghost fate: Fate, ghost hop: Hop)
      requires Kept(routes) && Wired() && arp.Valid() && WellFormed(iph[..]) && ArpApart(iph)
      modifies this`delivered, iph, arp`sbuf, arp`queued, arp`outputs
      ensures arp.Valid()
      ensures hop == old(Answer(routes, Destination(iph[..]))) && hop <= |entries|
      ensures old(Routes.Valid(routes)) ==> hop == NextHop(old(RouteMap(routes)), Destination(old(iph[..])))
      ensures hop == 0 ==> fate == Dropped
      ensures hop > 0 && entries[hop - 1].ifp.addr == Destination(old(iph[..])) ==>
        fate == if old(iph[9]) == 6 || old(iph[9]) == 17 then Delivered else Dropped
      ensures hop > 0 && entries[hop - 1].ifp.addr != Destination(old(iph[..])) ==> fate == Forwarded(entries[hop - 1])
      ensures Settled(fate, old(iph[..]), iph[..], arp.learnt, old(arp.sbuf), arp.sbuf, old(arp.outputs), arp.outputs,
                      old(delivered), delivered)
      decreases if Mine(Destination(iph[..])) then 1 else 2
    {
      hide Routes.Valid, Kept, NextHop, Answer, Checksum.Sum16, Arp.MacOf, Poptrie.Foot, Arp.SlotOf, Arp.LogOK,
           Arp.Items, Arp.ArpState.Valid, Destination, Settled, RouteMap, WellFormed,
           Wired, Hops, FastIndex, Poptrie.Fails, SentOn;
      routes.FootHeld();
      Allocated(routes.shape);
      ghost var s: seq<u8> := iph[..];
      HeaderFits(s);
      var dst := Destination(iph[..]);
      if Routes.Valid(routes) { AnswerIsLongest(routes, dst); }
      var found;
      ghost var visits;
      found, visits := Lookup(routes, dst);
      hop := found;
      AnswerRefers(dst);
      fate := Dropped;
      if found == 0 {
        SettledDropped(s, arp.learnt, arp.sbuf, arp.outputs, delivered);
        return;
      }
      var entry := entries[found - 1];
      if entry.ifp.addr == dst {
        Ends(hop, dst);
        ghost var i :| 0 <= i < |ifs| && ifs[i].addr == dst;
        ghost var same;
        fate, same := Input(iph);
        assert ifs[i].addr == Destination(s);
        return;
      }
      fate := Forwarded(entry);
      SendOn(iph, entry);
      SettledSent(entry, s, iph[..], arp.learnt, old(arp.sbuf), arp.sbuf, old(arp.outputs), arp.outputs, delivered);
    }

    /** ipv4_input.  A packet with the address of some interface is for the host, which takes up TCP and UDP;
        any other is forwarded if bridging is on and its TTL is above 1. */
    method Input(iph: array<u8>) returns (ghost fate: Fate, ghost hop: Hop)
      requires Kept(routes) && Wired() && arp.Valid() && WellFormed(iph[..]) && ArpApart(iph)
      modifies this`delivered, iph, arp`sbuf, arp`queued, arp`outputs
      ensures arp.Valid()
      ensures hop == old(Answer(routes, Destination(iph[..]))) && hop <= |entries|
      ensures old(Routes.Valid(routes)) ==> hop == NextHop(old(RouteMap(routes)), Destination(old(iph[..])))
      ensures (exists i :: 0 <= i < |ifs| && ifs[i].addr == Destination(old(iph[..]))) ==>
        fate == if old(iph[9]) == 6 || old(iph[9]) == 17 then Delivered else Dropped
      ensures (forall i :: 0 <= i < |ifs| ==> ifs[i].addr != Destination(old(iph[..]))) ==>
        fate == if l3bridge && old(iph[8]) > 1 && hop > 0 then Forwarded(entries[hop - 1]) else Dropped
      ensures Settled(fate, old(iph[..]), iph[..], arp.learnt, old(arp.sbuf), arp.sbuf, old(arp.outputs), arp.outputs,
                      old(delivered), delivered)
      ensures fate.Forwarded? ==> iph[8] == old(iph[8]) - 1 >= 1
      decreases if Mine(Destination(iph[..])) then 0 else 3
    {
      hide Routes.Valid, Kept, NextHop, Answer, Checksum.Sum16, Arp.MacOf, Arp.SlotOf, Arp.LogOK, Arp.Items, Wired,
           Destination, SentOn, Hops, RouteMap, Arp.ArpState.Valid, Poptrie.Foot, Poptrie.Fails, Settled, WellFormed;
      routes.FootHeld();
      Allocated(routes.shape);
      ghost var s: seq<u8> := iph[..];
      HeaderFits(s);
      var dst := Destination(iph[..]);
      fate, hop := Dropped, Answer(routes, dst);
      AnswerRefers(dst);
      if Routes.Valid(routes) { AnswerIsLongest(routes, dst); }
      SettledDropped(s, arp.learnt, arp.sbuf, arp.outputs, delivered);
      var mine := IsToMe(dst);
      if !mine {
        if l3bridge {
          if iph[8] <= 1 { return; }
          Onward(hop, dst);
          fate, hop := Forward(iph);
          assert fate == if hop > 0 then Forwarded(entries[hop - 1]) else Dropped;
          if fate.Forwarded? {
            SettledTtl(fate, s, iph[..], arp.learnt, old(arp.sbuf), arp.sbuf, old(arp.outputs), arp.outputs,
                       old(delivered), delivered);
          }
        }
        return;
      }
      ghost var i :| 0 <= i < |ifs| && ifs[i].addr == dst;
      var proto := iph[9];
      if proto == IPPROTO_TCP || proto == IPPROTO_UDP {
        delivered := delivered + [Delivery(proto, iph[..], Checksum.HeaderLength(iph[..]))];
        fate := Delivered;
        SettledTaken(s, arp.learnt, arp.sbuf, arp.outputs, old(delivered));
      }
      assert ifs[i].addr == Destination(old(iph[..]));
    }

    /** ipv4_output */
    method Output(iph: array<u8>) returns (ghost fate: Fate, ghost hop: Hop)
      requires Kept(routes) && Wired() && arp.Valid() && WellFormed(iph[..]) && ArpApart(iph)
      requires iph !in routes.Foot() && iph as object != routes.dir && iph as object != routes.altdir
      requires iph as object != routes.entries
      modifies this`delivered, iph, arp`sbuf, arp`queued, arp`outputs
      ensures arp.Valid()
      ensures hop == old(Answer(routes, Destination(iph[..]))) && hop <= |entries|
      ensures old(Routes.Valid(routes)) ==> hop == NextHop(old(RouteMap(routes)), Destination(old(iph[..])))
      ensures hop == 0 ==> fate == Dropped
      ensures hop > 0 && entries[hop - 1].ifp.addr == Destination(old(iph[..])) ==>
        fate == if old(iph[9]) == 6 || old(iph[9]) == 17 then Delivered else Dropped
      ensures hop > 0 && entries[hop - 1].ifp.addr != Destination(old(iph[..])) ==> fate == Forwarded(entries[hop - 1])
      ensures var s := old(iph[..])[8 := 32];
        WellFormed(s) && Settled(fate, s, iph[..], arp.learnt, old(arp.sbuf), arp.sbuf, old(arp.outputs), arp.outputs,
                                 old(delivered), delivered)
      ensures fate.Forwarded? ==> iph[8] == 31
    {
      hide NextHop, Checksum.Sum16, Arp.MacOf, Kept, Routes.Valid, Answer, Poptrie.Foot, Settled, Arp.SlotOf, Arp.LogOK,
           Arp.Items, Wired, Hops, RouteMap, Arp.ArpState.Valid, Destination, WellFormed, SentOn, FastIndex;
      ghost var s: seq<u8> := iph[..];
      HeaderFits(s);
      NewTtl(s);
      routes.FootHeld();
      Allocated(routes.shape);
      iph[8] := 32;
      assert iph[..] == s[8 := 32];
      fate, hop := Forward(iph);
      if fate.Forwarded? {
        SettledTtl(fate, s[8 := 32], iph[..], arp.learnt, old(arp.sbuf), arp.sbuf, old(arp.outputs), arp.outputs,
                   old(delivered), delivered);
      }
    }

    lemma NewTtl(s: seq<u8>)
      requires WellFormed(s)
      ensures |s| >= 20 && WellFormed(s[8 := 32]) && Destination(s[8 := 32]) == Destination(s)
    {}

    lemma SettledTtl(fate: Fate, s: seq<u8>, s': seq<u8>, learnt: seq<Arp.Learnt>, q: seq<Arp.Pending>,
                     q': seq<Arp.Pending>, o: seq<Arp.Output>, o': seq<Arp.Output>,
                     d: seq<Delivery>, d': seq<Delivery>)
      requires WellFormed(s) && Settled(fate, s, s', learnt, q, q', o, o', d, d') && fate.Forwarded?
      ensures |s'| == |s| && (s'[8] as nat + 1) % 0x100 == s[8]
    {}
  }
}
