/** The keys listings are sorted by: text fields and zero-padded ports joined
    by '|'. */
module SortKeys {
  import opened Text
  import opened Sorting

  type Proto = n: nat | n < 0x100

  // ----- connections -----

  datatype Conntrack = Conntrack(dip: string, sip: string, dport: Port, sport: Port, proto: string,
                                 ident: string, state: string, act: string, packets: nat, bytes: nat, service: string)
  {
    function Key(): string {
      dip + "|" + sip + "|" + Pad5(dport) + "|" + Pad5(sport) + "|" + proto
    }

    predicate BarlessHosts() { '|' !in dip && '|' !in sip }

    predicate Barless() { BarlessHosts() && '|' !in proto }

    /** The fields a key is made of. */
    predicate Same(ct: Conntrack) {
      dip == ct.dip && sip == ct.sip && dport == ct.dport && sport == ct.sport && proto == ct.proto
    }
  }

  class CtInformationGet {
    var ctInfo: array<Conntrack>

    constructor (info: array<Conntrack>)
      ensures ctInfo == info
    {
      ctInfo := info;
    }

    method Sort()
      modifies ctInfo
      ensures multiset(ctInfo[..]) == multiset(old(ctInfo[..]))
      ensures Ordered(ctInfo[..], (ct: Conntrack) => ct.Key())
    {
      SortByKey(ctInfo, (ct: Conntrack) => ct.Key());
    }
  }

  // ----- firewall rules -----

  datatype FwRuleArg = FwRuleArg(srcIP: string, dstIP: string, srcMin: Port, srcMax: Port, dstMin: Port, dstMax: Port,
                                 proto: Proto, inPort: string, pref: Port)
  {
    function Key(): string {
      srcIP + "|" + dstIP + "|" + Pad5(srcMin) + "|" + Pad5(srcMax) + "|" + Pad5(dstMin) + "|" + Pad5(dstMax)
      + "|" + Dec(proto)
    }

    predicate Barless() { '|' !in srcIP && '|' !in dstIP }

    /** The fields a key is made of. */
    predicate Same(fw: FwRuleArg) {
      && srcIP == fw.srcIP && dstIP == fw.dstIP && srcMin == fw.srcMin && srcMax == fw.srcMax
      && dstMin == fw.dstMin && dstMax == fw.dstMax && proto == fw.proto
    }

    predicate AlikeButProto(fw: FwRuleArg) {
      && srcIP == fw.srcIP && dstIP == fw.dstIP && srcMin == fw.srcMin && srcMax == fw.srcMax
      && dstMin == fw.dstMin && dstMax == fw.dstMax
    }
  }

  class FWInformationGet {
    var fwInfo: array<FwRuleArg>

    constructor (info: array<FwRuleArg>)
      ensures fwInfo == info
    {
      fwInfo := info;
    }

    method Sort()
      modifies fwInfo
      ensures multiset(fwInfo[..]) == multiset(old(fwInfo[..]))
      ensures Ordered(fwInfo[..], (fw: FwRuleArg) => fw.Key())
    {
      SortByKey(fwInfo, (fw: FwRuleArg) => fw.Key());
    }
  }

  // ----- endpoints -----

  datatype EndPoint = EndPoint(hostName: string, name: string, probeType: string, probePort: Port, state: string)
  {
    function Key(): string {
      hostName + "|" + Pad5(probePort) + "|" + probeType + "|" + name
    }

    predicate Barless() { '|' !in hostName && '|' !in probeType && '|' !in name }

    /** The fields a key is made of. */
    predicate Same(ep: EndPoint) {
      hostName == ep.hostName && probePort == ep.probePort && probeType == ep.probeType && name == ep.name
    }
  }

  class EPInformationGet {
    var epInfo: array<EndPoint>

    constructor (info: array<EndPoint>)
      ensures epInfo == info
    {
      epInfo := info;
    }

    method Sort()
      modifies epInfo
      ensures multiset(epInfo[..]) == multiset(old(epInfo[..]))
      ensures Ordered(epInfo[..], (ep: EndPoint) => ep.Key())
    {
      SortByKey(epInfo, (ep: EndPoint) => ep.Key());
    }
  }

  // ----- keys tell entries apart -----

  /** One field at a time: a bar-free field is what stands before the first bar. */
  lemma FieldOf(a: string, x: string, b: string, y: string)
    requires '|' !in a && '|' !in b && a + "|" + x == b + "|" + y
    ensures a == b && x == y
  {
    IndexAt(a, '|', x);
    IndexAt(b, '|', y);
    assert (a + "|" + x)[..|a|] == a && (b + "|" + y)[..|b|] == b;
    assert (a + "|" + x)[|a| + 1..] == x && (b + "|" + y)[|b| + 1..] == y;
  }

  lemma PortField(p: Port, x: string, q: Port, y: string)
    requires Pad5(p) + "|" + x == Pad5(q) + "|" + y
    ensures p == q && x == y
  {
    Pad5OfUint16(p);
    Pad5OfUint16(q);
    FieldOf(Pad5(p), x, Pad5(q), y);
  }

  /** The key read from the front: a field, a bar, the rest. */
  lemma ConntrackKeyShape(ct: Conntrack)
    ensures ct.Key() == ct.dip + "|" + (ct.sip + "|" + (Pad5(ct.dport) + "|" + (Pad5(ct.sport) + "|" + ct.proto)))
  {
    hide Pad5;
    var d, s := Pad5(ct.dport), Pad5(ct.sport);
    Nest5(ct.dip, ct.sip, d, s, ct.proto);
  }

  lemma Nest5(a: string, b: string, c: string, d: string, e: string)
    ensures a + "|" + b + "|" + c + "|" + d + "|" + e == a + "|" + (b + "|" + (c + "|" + (d + "|" + e)))
  {
    ConcatAssociative(a + "|", b + "|", c + "|" + d + "|" + e);
    ConcatAssociative(a + "|" + b + "|", c + "|", d + "|" + e);
  }

  /** Two connections whose texts before the ports are bar-free. */
  lemma ConntrackKeyInjective(a: Conntrack, b: Conntrack)
    requires a.BarlessHosts() && b.BarlessHosts() && a.Key() == b.Key()
    ensures a.Same(b)
  {
    ConntrackKeyShape(a);
    ConntrackKeyShape(b);
    hide Pad5;
    var a3, b3 := Pad5(a.sport) + "|" + a.proto, Pad5(b.sport) + "|" + b.proto;
    var a2, b2 := Pad5(a.dport) + "|" + a3, Pad5(b.dport) + "|" + b3;
    FieldOf(a.dip, a.sip + "|" + a2, b.dip, b.sip + "|" + b2);
    FieldOf(a.sip, a2, b.sip, b2);
    PortField(a.dport, a3, b.dport, b3);
    PortField(a.sport, a.proto, b.sport, b.proto);
  }

  /** The first field of one reading against a bar-free field of another: they
      are equal, or the first reading goes on with what follows. */
  lemma FirstField(x: string, y: string, a: string, z: string) returns (rest: string)
    requires '|' !in a && x + "|" + y == a + "|" + z
    ensures '|' !in x ==> x == a && y == z
    ensures '|' in x ==> x == a + "|" + rest && rest + "|" + y == z
  {
    var s := x + "|" + y;
    IndexAt(a, '|', z);
    if '|' !in x {
      FieldOf(x, y, a, z);
      rest := "";
    } else {
      var i := Index(x, '|');
      IndexOfMember(x, '|');
      IndexAt(x[..i], '|', x[i + 1..] + "|" + y);
      assert x == x[..i] + ['|'] + x[i + 1..];
      assert s == x[..i] + ['|'] + (x[i + 1..] + "|" + y);
      rest := x[i + 1..];
      assert s[..|a|] == a && s[|a| + 1..] == z;
    }
  }

  /** The text behind the ports holds a port, or two ports together further
      back, with a field behind: the key can be read with the ports there. */
  ghost predicate PortsInside(proto: string) {
    || (exists q: Port, rest :: OnePort(proto, q, rest))
    || (exists t, p: Port, q: Port, rest :: TwoPorts(proto, t, p, q, rest))
  }

  predicate OnePort(proto: string, q: Port, rest: string) { proto == Pad5(q) + "|" + rest }

  predicate TwoPorts(proto: string, t: string, p: Port, q: Port, rest: string) {
    "|" + proto == t + "|" + (Pad5(p) + "|" + (Pad5(q) + "|" + rest))
  }

  lemma PadBarless(p: Port)
    ensures '|' !in Pad5(p) && |Pad5(p)| == 5
  {
    Pad5OfUint16(p);
    assert !IsDigit('|');
  }

  /** Another connection with the key of a: the bars in its host fields show
      where its ports lie. */
  lemma OtherReading(a: Conntrack, b: Conntrack)
    requires a.BarlessHosts() && a.Key() == b.Key() && !PortsInside(a.proto)
    ensures a.Same(b)
  {
    ConntrackKeyShape(a);
    ConntrackKeyShape(b);
    PadBarless(a.dport);
    PadBarless(a.sport);
    hide Pad5, PortsInside;
    var p, q := Pad5(b.dport), Pad5(b.sport);
    var d, z := b.dip + "|" + b.sip, p + "|" + (q + "|" + b.proto);
    var a4 := Pad5(a.sport) + "|" + a.proto;
    var a3 := Pad5(a.dport) + "|" + a4;
    assert d + "|" + z == b.dip + "|" + (b.sip + "|" + z);
    var d1 := FirstField(d, z, a.dip, a.sip + "|" + a3);
    assert '|' in d;
    var d2 := FirstField(d1, z, a.sip, a3);
    if '|' !in d1 {
      FieldOf2(b.dip, b.sip, a.dip, d1);
      ConntrackKeyInjective(a, b);
    } else {
      LaterPorts(a, d2, b.dport, b.sport, b.proto);
    }
  }

  /** A bar-free rest behind the first bar leaves both fields bar-free. */
  lemma FieldOf2(x: string, y: string, a: string, rest: string)
    requires x + "|" + y == a + "|" + rest && '|' !in a && '|' !in rest
    ensures '|' !in x && '|' !in y
  {
    var m, n := multiset(x + "|" + y), multiset(a + "|" + rest);
    assert n['|'] == multiset(a)['|'] + 1 + multiset(rest)['|'] == 1;
    assert m['|'] == multiset(x)['|'] + 1 + multiset(y)['|'];
    assert '|' in x <==> '|' in multiset(x);
    assert '|' in y <==> '|' in multiset(y);
  }

  lemma LaterPorts(a: Conntrack, d: string, p: Port, q: Port, proto: string)
    requires d + "|" + (Pad5(p) + "|" + (Pad5(q) + "|" + proto))
          == Pad5(a.dport) + "|" + (Pad5(a.sport) + "|" + a.proto)
    ensures PortsInside(a.proto)
  {
    PadBarless(a.dport);
    PadBarless(a.sport);
    PadBarless(p);
    hide Pad5;
    var z := Pad5(p) + "|" + (Pad5(q) + "|" + proto);
    var d1 := FirstField(d, z, Pad5(a.dport), Pad5(a.sport) + "|" + a.proto);
    if '|' !in d {
      FieldOf(Pad5(p), Pad5(q) + "|" + proto, Pad5(a.sport), a.proto);
      assert OnePort(a.proto, q, proto);
    } else {
      var d2 := FirstField(d1, z, Pad5(a.sport), a.proto);
      if '|' !in d1 {
        assert TwoPorts(a.proto, "", p, q, proto) by {
          assert "|" + z == "" + "|" + z;
        }
      } else {
        assert TwoPorts(a.proto, "|" + d2, p, q, proto) by {
          ConcatAssociative("|", d2 + "|", z);
          ConcatAssociative("|", d2, "|");
        }
      }
    }
  }

  /** With a bar before the ports, or ports behind them, there is another
      connection of the same key. */
  lemma ConntrackKeyCollides(a: Conntrack) returns (b: Conntrack)
    requires !a.BarlessHosts() || PortsInside(a.proto)
    ensures b.Key() == a.Key() && !a.Same(b)
  {
    if '|' in a.dip {
      b := CollideFirst(a);
    } else if '|' in a.sip {
      b := CollideSecond(a);
    } else if q: Port, rest :| OnePort(a.proto, q, rest) {
      b := a.(dip := a.dip + "|" + a.sip, sip := Pad5(a.dport), dport := a.sport, sport := q, proto := rest);
      ConntrackKeyShape(a);
      ConntrackKeyShape(b);
      hide Pad5;
      Nest5(a.dip, a.sip, Pad5(a.dport), Pad5(a.sport), Pad5(q) + "|" + rest);
      Nest4(a.dip, a.sip, Pad5(a.dport), Pad5(a.sport) + "|" + (Pad5(q) + "|" + rest));
      assert |b.dip| > |a.dip|;
    } else {
      var t, p: Port, q: Port, rest :| TwoPorts(a.proto, t, p, q, rest);
      b := CollideLater(a, t, p, q, rest);
    }
  }

  lemma Nest4(a: string, b: string, c: string, z: string)
    ensures (a + "|" + b) + "|" + (c + "|" + z) == a + "|" + (b + "|" + (c + "|" + z))
  {
    ConcatAssociative(a + "|", b, "|" + (c + "|" + z));
    ConcatAssociative(a, "|", b + "|" + (c + "|" + z));
  }

  lemma CollideFirst(a: Conntrack) returns (b: Conntrack)
    requires '|' in a.dip
    ensures b.Key() == a.Key() && !a.Same(b)
  {
    var i := Index(a.dip, '|');
    IndexOfMember(a.dip, '|');
    var x, y := a.dip[..i], a.dip[i + 1..];
    b := a.(dip := x, sip := y + "|" + a.sip);
    hide Pad5;
    assert a.dip == x + "|" + y;
    assert a.dip + "|" + a.sip == b.dip + "|" + b.sip;
    assert |b.dip| < |a.dip|;
  }

  lemma CollideSecond(a: Conntrack) returns (b: Conntrack)
    requires '|' in a.sip
    ensures b.Key() == a.Key() && !a.Same(b)
  {
    var i := Index(a.sip, '|');
    IndexOfMember(a.sip, '|');
    var x, y := a.sip[..i], a.sip[i + 1..];
    b := a.(dip := a.dip + "|" + x, sip := y);
    hide Pad5;
    assert a.sip == x + "|" + y;
    ConcatAssociative(a.dip + "|", x, "|" + y);
    ConcatAssociative(a.dip + "|" + x, "|", y);
    ConcatAssociative(x, "|", y);
    assert a.dip + "|" + a.sip == b.dip + "|" + b.sip;
    assert |b.dip| > |a.dip|;
  }

  lemma CollideLater(a: Conntrack, t: string, p: Port, q: Port, rest: string) returns (b: Conntrack)
    requires TwoPorts(a.proto, t, p, q, rest)
    ensures b.Key() == a.Key() && !a.Same(b)
  {
    var u, v := Pad5(a.dport), Pad5(a.sport);
    var y := u + "|" + v;
    b := a.(dip := a.dip + "|" + a.sip, sip := y + t, dport := p, sport := q, proto := rest);
    ConntrackKeyShape(a);
    ConntrackKeyShape(b);
    hide Pad5;
    var z := Pad5(p) + "|" + (Pad5(q) + "|" + rest);
    Nest4(a.dip, a.sip, u, v + "|" + a.proto);
    Regroup(u, v, a.proto, t, z);
    assert |b.dip| > |a.dip|;
  }

  lemma Regroup(u: string, v: string, proto: string, t: string, z: string)
    requires "|" + proto == t + "|" + z
    ensures u + "|" + (v + "|" + proto) == (u + "|" + v + t) + "|" + z
  {
    var y := u + "|" + v;
    ConcatAssociative(u + "|", v, "|" + proto);
    assert v + "|" + proto == v + ("|" + proto);
    ConcatAssociative(y, t, "|" + z);
    assert t + "|" + z == t + ("|" + z) && (y + t) + "|" + z == (y + t) + ("|" + z);
  }

  /** The key of a connection is that of no other if and only if its host fields
      are free of bars and no ports can be read behind its own. */
  lemma ConntrackKeyIdentifiesExactly(a: Conntrack)
    ensures (forall b: Conntrack :: b.Key() == a.Key() ==> a.Same(b)) <==> a.BarlessHosts() && !PortsInside(a.proto)
  {
    hide PortsInside, Pad5;
    if a.BarlessHosts() && !PortsInside(a.proto) {
      forall b: Conntrack | b.Key() == a.Key() ensures a.Same(b) {
        OtherReading(a, b);
      }
    } else {
      var b := ConntrackKeyCollides(a);
    }
  }

  /** So is that of every connection without a bar. */
  lemma BarlessIdentifies(a: Conntrack, b: Conntrack)
    requires a.Barless() && a.Key() == b.Key()
    ensures a.Same(b)
  {
    if PortsInside(a.proto) {
      BarInside(a.proto);
    }
    OtherReading(a, b);
  }

  lemma BarInside(proto: string)
    requires PortsInside(proto)
    ensures '|' in proto
  {
    if q: Port, rest :| OnePort(proto, q, rest) {
      assert proto[|Pad5(q)|] == '|';
    } else {
      var t, p: Port, q: Port, rest :| TwoPorts(proto, t, p, q, rest);
      PadBarless(p);
      hide Pad5;
      var s := t + "|" + (Pad5(p) + "|" + (Pad5(q) + "|" + rest));
      assert multiset(s)['|'] >= 3 && multiset("|" + proto)['|'] == 1 + multiset(proto)['|'];
      assert '|' in multiset(proto);
    }
  }

  lemma FwKeyShape(fw: FwRuleArg)
    ensures fw.Key() == fw.srcIP + "|" + (fw.dstIP + "|" + (Pad5(fw.srcMin) + "|" + (Pad5(fw.srcMax) + "|"
      + (Pad5(fw.dstMin) + "|" + (Pad5(fw.dstMax) + "|" + Dec(fw.proto))))))
  {
    hide Pad5, Dec;
    var p1, p2, p3, p4, n := Pad5(fw.srcMin), Pad5(fw.srcMax), Pad5(fw.dstMin), Pad5(fw.dstMax), Dec(fw.proto);
    var tail := p3 + "|" + (p4 + "|" + n);
    var front := fw.srcIP + "|" + fw.dstIP + "|" + p1 + "|" + p2 + "|";
    assert fw.Key() == front + tail by {
      ConcatAssociative(front, p3 + "|", p4 + "|" + n);
    }
    Nest5(fw.srcIP, fw.dstIP, p1, p2, tail);
  }

  lemma DecBarless(n: nat)
    ensures '|' !in Dec(n)
  {
    assert IsDigits(Dec(n)) && !IsDigit('|');
  }

  /** A rule without a bar leaves none to a rule with its key. */
  lemma FwBarless(a: FwRuleArg, b: FwRuleArg)
    requires a.Barless() && a.Key() == b.Key()
    ensures b.Barless()
  {
    FwBars(a);
    FwBars(b);
    hide Pad5, Dec, FwRuleArg.Key;
    assert '|' in b.srcIP <==> '|' in multiset(b.srcIP);
    assert '|' in b.dstIP <==> '|' in multiset(b.dstIP);
  }

  lemma FwBars(fw: FwRuleArg)
    ensures multiset(fw.Key())['|'] == 6 + multiset(fw.srcIP)['|'] + multiset(fw.dstIP)['|']
  {
    PadBarless(fw.srcMin);
    PadBarless(fw.srcMax);
    PadBarless(fw.dstMin);
    PadBarless(fw.dstMax);
    DecBarless(fw.proto);
    hide Pad5, Dec;
  }

  lemma FwKeyInjective(a: FwRuleArg, b: FwRuleArg)
    requires a.Barless() && a.Key() == b.Key()
    ensures a.Same(b)
  {
    FwBarless(a, b);
    FwKeyShape(a);
    FwKeyShape(b);
    hide Pad5, Dec;
    var a5, b5 := Pad5(a.dstMax) + "|" + Dec(a.proto), Pad5(b.dstMax) + "|" + Dec(b.proto);
    var a4, b4 := Pad5(a.dstMin) + "|" + a5, Pad5(b.dstMin) + "|" + b5;
    var a3, b3 := Pad5(a.srcMax) + "|" + a4, Pad5(b.srcMax) + "|" + b4;
    var a2, b2 := Pad5(a.srcMin) + "|" + a3, Pad5(b.srcMin) + "|" + b3;
    FieldOf(a.srcIP, a.dstIP + "|" + a2, b.srcIP, b.dstIP + "|" + b2);
    FieldOf(a.dstIP, a2, b.dstIP, b2);
    PortField(a.srcMin, a3, b.srcMin, b3);
    PortField(a.srcMax, a4, b.srcMax, b4);
    PortField(a.dstMin, a5, b.dstMin, b5);
    PortField(a.dstMax, Dec(a.proto), b.dstMax, Dec(b.proto));
    assert Val(Dec(a.proto)) == Val(Dec(b.proto));
  }

  lemma FwKeyCollides(a: FwRuleArg) returns (b: FwRuleArg)
    requires !a.Barless()
    ensures b.Key() == a.Key() && !a.Same(b)
  {
    hide Pad5, Dec;
    if '|' in a.srcIP {
      var i := Index(a.srcIP, '|');
      IndexOfMember(a.srcIP, '|');
      var x, y := a.srcIP[..i], a.srcIP[i + 1..];
      b := a.(srcIP := x, dstIP := y + "|" + a.dstIP);
      assert a.srcIP == x + "|" + y;
      TwoReadings(x, y, a.dstIP);
      assert |b.srcIP| < |a.srcIP|;
    } else {
      var i := Index(a.dstIP, '|');
      IndexOfMember(a.dstIP, '|');
      var x, y := a.dstIP[..i], a.dstIP[i + 1..];
      b := a.(srcIP := a.srcIP + "|" + x, dstIP := y);
      assert a.dstIP == x + "|" + y;
      TwoReadings(a.srcIP, x, y);
      assert |b.srcIP| > |a.srcIP|;
    }
  }

  /** Three fields read as two in both ways. */
  lemma TwoReadings(x: string, y: string, z: string)
    ensures (x + "|" + y) + "|" + z == x + "|" + (y + "|" + z)
  {
    ConcatAssociative(x + "|", y, "|" + z);
    assert (x + "|" + y) + "|" + z == (x + "|" + y) + ("|" + z) && y + "|" + z == y + ("|" + z);
  }

  /** The key of a rule is that of no other if and only if its prefixes are free
      of bars. */
  lemma FwKeyIdentifiesExactly(a: FwRuleArg)
    ensures (forall b: FwRuleArg :: b.Key() == a.Key() ==> a.Same(b)) <==> a.Barless()
  {
    hide Pad5, Dec;
    if a.Barless() {
      forall b: FwRuleArg | b.Key() == a.Key() ensures a.Same(b) {
        FwKeyInjective(a, b);
      }
    } else {
      var b := FwKeyCollides(a);
    }
  }

  lemma EndPointKeyShape(ep: EndPoint)
    ensures ep.Key() == ep.hostName + "|" + (Pad5(ep.probePort) + "|" + (ep.probeType + "|" + ep.name))
  {
    hide Pad5;
    var p := Pad5(ep.probePort);
    ConcatAssociative(ep.hostName + "|", p + "|", ep.probeType + "|" + ep.name);
  }

  lemma EndPointKeyInjective(a: EndPoint, b: EndPoint)
    requires '|' !in a.hostName && '|' !in a.probeType && '|' !in b.hostName && '|' !in b.probeType
    requires a.Key() == b.Key()
    ensures a.Same(b)
  {
    EndPointKeyShape(a);
    EndPointKeyShape(b);
    hide Pad5;
    var a2, b2 := a.probeType + "|" + a.name, b.probeType + "|" + b.name;
    FieldOf(a.hostName, Pad5(a.probePort) + "|" + a2, b.hostName, Pad5(b.probePort) + "|" + b2);
    PortField(a.probePort, a2, b.probePort, b2);
    FieldOf(a.probeType, a.name, b.probeType, b.name);
  }

  /** The host name holds a port: the key can be read with the port there. */
  ghost predicate PortInHost(host: string) {
    exists t, p: Port, rest :: HostPort(host, t, p, rest)
  }

  predicate HostPort(host: string, t: string, p: Port, rest: string) {
    host + "|" == t + "|" + Pad5(p) + "|" + rest
  }

  lemma EndPointKeyCollides(a: EndPoint) returns (b: EndPoint)
    requires '|' in a.probeType || '|' in a.name || PortInHost(a.hostName)
    ensures b.Key() == a.Key() && !a.Same(b)
  {
    hide Pad5;
    if '|' in a.probeType {
      var i := Index(a.probeType, '|');
      IndexOfMember(a.probeType, '|');
      var x, y := a.probeType[..i], a.probeType[i + 1..];
      b := a.(probeType := x, name := y + "|" + a.name);
      assert a.probeType == x + "|" + y;
      TwoReadings(x, y, a.name);
      EndPointKeyShape(a);
      EndPointKeyShape(b);
      assert |b.probeType| < |a.probeType|;
    } else if '|' in a.name {
      var i := Index(a.name, '|');
      IndexOfMember(a.name, '|');
      var x, y := a.name[..i], a.name[i + 1..];
      b := a.(probeType := a.probeType + "|" + x, name := y);
      assert a.name == x + "|" + y;
      TwoReadings(a.probeType, x, y);
      EndPointKeyShape(a);
      EndPointKeyShape(b);
      assert |b.probeType| > |a.probeType|;
    } else {
      var t, p: Port, rest :| HostPort(a.hostName, t, p, rest);
      b := CollideInHost(a, t, p, rest);
    }
  }

  lemma CollideInHost(a: EndPoint, t: string, p: Port, rest: string) returns (b: EndPoint)
    requires HostPort(a.hostName, t, p, rest)
    ensures b.Key() == a.Key() && !a.Same(b)
  {
    hide Pad5;
    var tail := Pad5(a.probePort) + "|" + (a.probeType + "|" + a.name);
    var s := rest + tail;
    var i := Index(s, '|');
    assert '|' in s by {
      assert multiset(s)['|'] >= 1;
      assert '|' in multiset(s);
    }
    IndexOfMember(s, '|');
    b := a.(hostName := t, probePort := p, probeType := s[..i], name := s[i + 1..]);
    assert s == b.probeType + "|" + b.name;
    EndPointKeyShape(a);
    EndPointKeyShape(b);
    HostFirst(a.hostName, tail, t, Pad5(p), rest);
    PadBarless(p);
    assert |t + "|" + Pad5(p) + "|" + rest| == |t| + 7 + |rest|;
  }

  lemma HostFirst(host: string, tail: string, t: string, p: string, rest: string)
    requires host + "|" == t + "|" + p + "|" + rest
    ensures host + "|" + tail == t + "|" + (p + "|" + (rest + tail))
  {
    ConcatAssociative(t + "|" + p + "|", rest, tail);
    ConcatAssociative(t + "|", p + "|", rest + tail);
  }

  /** The part of the key before the port of one reading, and that of another. */
  lemma OtherHost(a: EndPoint, b: EndPoint)
    requires a.Key() == b.Key() && '|' !in a.probeType && '|' !in a.name && !PortInHost(a.hostName)
    ensures a.Same(b)
  {
    EndPointKeyShape(a);
    EndPointKeyShape(b);
    PadBarless(a.probePort);
    PadBarless(b.probePort);
    hide Pad5, PortInHost;
    var p, q, u, v := Pad5(a.probePort), Pad5(b.probePort), a.probeType + "|" + a.name, b.probeType + "|" + b.name;
    if |a.hostName| == |b.hostName| {
      SameHost(a, b);
    } else if |b.hostName| < |a.hostName| {
      LongerHost(a, b);
    } else {
      ShorterHost(b.hostName, q + "|" + v, a.hostName, p, u);
      TooFewBars(b.hostName, q, v, a.hostName, p, u);
    }
  }

  lemma LongerHost(a: EndPoint, b: EndPoint)
    requires a.Key() == b.Key() && |b.hostName| < |a.hostName|
    ensures PortInHost(a.hostName)
  {
    EndPointKeyShape(a);
    EndPointKeyShape(b);
    PadBarless(b.probePort);
    hide Pad5;
    var q, u, v := Pad5(b.probePort), a.probeType + "|" + a.name, b.probeType + "|" + b.name;
    ShorterHost(a.hostName, Pad5(a.probePort) + "|" + u, b.hostName, q, v);
    assert HostPort(a.hostName, b.hostName, b.probePort, (a.hostName + "|")[|b.hostName| + 7..]);
  }

  lemma SameHost(a: EndPoint, b: EndPoint)
    requires a.Key() == b.Key() && |a.hostName| == |b.hostName| && '|' !in a.probeType && '|' !in a.name
    ensures a.Same(b)
  {
    EndPointKeyShape(a);
    EndPointKeyShape(b);
    hide Pad5;
    var u, v := a.probeType + "|" + a.name, b.probeType + "|" + b.name;
    var x, y := Pad5(a.probePort) + "|" + u, Pad5(b.probePort) + "|" + v;
    assert a.Key()[..|a.hostName|] == a.hostName && b.Key()[..|b.hostName|] == b.hostName;
    assert a.Key()[|a.hostName| + 1..] == x && b.Key()[|b.hostName| + 1..] == y;
    PortField(a.probePort, u, b.probePort, v);
    FieldOf2(b.probeType, b.name, a.probeType, a.name);
    FieldOf(a.probeType, a.name, b.probeType, b.name);
  }

  /** A shorter host: the longer one goes on with the port behind it. */
  lemma ShorterHost(host: string, tail: string, t: string, p: string, rest: string)
    requires host + "|" + tail == t + "|" + (p + "|" + rest) && |t| < |host| && '|' !in p && |p| == 5
    ensures |host| >= |t| + 6 && host + "|" == t + "|" + p + "|" + (host + "|")[|t| + 7..]
  {
    var s, k := host + "|" + tail, |t|;
    assert s == t + "|" + p + "|" + rest;
    assert s[k + 1..k + 6] == p;
    assert s[|host|] == '|';
    forall j | k < j < k + 6 ensures s[j] != '|' {
      assert s[j] == p[j - k - 1];
    }
    assert (t + "|" + p + "|") == s[..k + 7];
    assert (host + "|")[..k + 7] == s[..k + 7];
  }

  /** Behind the port of a there is one bar left, too few for another port and its fields. */
  lemma TooFewBars(host: string, q: string, v: string, t: string, p: string, u: string)
    requires host + "|" + (q + "|" + v) == t + "|" + (p + "|" + u) && |host| >= |t| + 6 && |p| == 5
    requires multiset(v)['|'] >= 1
    ensures multiset(u)['|'] >= 2
  {
    var s, k := host + "|" + (q + "|" + v), |t| + 7;
    assert s[k..] == u;
    if |host| == |t| + 6 {
      assert s[k..] == q + "|" + v;
    } else {
      assert s[k..] == host[k..] + "|" + (q + "|" + v);
    }
  }

  /** The key of an endpoint is that of no other if and only if its type and its
      name are free of bars and no port can be read in its host name. */
  lemma EndPointKeyIdentifiesExactly(a: EndPoint)
    ensures (forall b: EndPoint :: b.Key() == a.Key() ==> a.Same(b)) <==>
      '|' !in a.probeType && '|' !in a.name && !PortInHost(a.hostName)
  {
    hide PortInHost, Pad5;
    if '|' !in a.probeType && '|' !in a.name && !PortInHost(a.hostName) {
      forall b: EndPoint | b.Key() == a.Key() ensures a.Same(b) {
        OtherHost(a, b);
      }
    } else {
      var b := EndPointKeyCollides(a);
    }
  }

  // ----- the order of keys is the order of ports -----

  lemma LessFront(x: string, s: string, t: string)
    ensures Less(x + s, x + t) <==> Less(s, t)
  {
    LessConcat(x, x, s, t);
    LessTotal(x, x);
  }

  lemma LessPort(p: Port, x: string, q: Port, y: string)
    ensures Less(Pad5(p) + "|" + x, Pad5(q) + "|" + y) <==> p < q || (p == q && Less(x, y))
  {
    LessPad5(p, q, "|" + x, "|" + y);
    LessFront("|", x, y);
    hide Pad5;
    ConcatAssociative(Pad5(p), "|", x);
    ConcatAssociative(Pad5(q), "|", y);
  }

  /** Between the same two hosts connections sort by their ports as numbers. */
  lemma ConntrackKeyOrder(a: Conntrack, b: Conntrack)
    requires a.dip == b.dip && a.sip == b.sip
    ensures Less(a.Key(), b.Key()) <==>
      a.dport < b.dport || (a.dport == b.dport && (a.sport < b.sport || (a.sport == b.sport && Less(a.proto, b.proto))))
  {
    ConntrackKeyShape(a);
    ConntrackKeyShape(b);
    hide Pad5, Less;
    var a3, b3 := Pad5(a.sport) + "|" + a.proto, Pad5(b.sport) + "|" + b.proto;
    LessFront(a.dip + "|", a.sip + "|" + (Pad5(a.dport) + "|" + a3), b.sip + "|" + (Pad5(b.dport) + "|" + b3));
    LessFront(a.sip + "|", Pad5(a.dport) + "|" + a3, Pad5(b.dport) + "|" + b3);
    LessPort(a.dport, a3, b.dport, b3);
    LessPort(a.sport, a.proto, b.sport, b.proto);
  }

  lemma FwKeyOrder(a: FwRuleArg, b: FwRuleArg)
    requires a.srcIP == b.srcIP && a.dstIP == b.dstIP
    ensures Less(a.Key(), b.Key()) <==>
      a.srcMin < b.srcMin || (a.srcMin == b.srcMin &&
        (a.srcMax < b.srcMax || (a.srcMax == b.srcMax &&
          (a.dstMin < b.dstMin || (a.dstMin == b.dstMin &&
            (a.dstMax < b.dstMax || (a.dstMax == b.dstMax && Less(Dec(a.proto), Dec(b.proto)))))))))
  {
    FwKeyShape(a);
    FwKeyShape(b);
    hide Pad5, Less, Dec;
    var a5, b5 := Pad5(a.dstMax) + "|" + Dec(a.proto), Pad5(b.dstMax) + "|" + Dec(b.proto);
    var a4, b4 := Pad5(a.dstMin) + "|" + a5, Pad5(b.dstMin) + "|" + b5;
    var a3, b3 := Pad5(a.srcMax) + "|" + a4, Pad5(b.srcMax) + "|" + b4;
    var a2, b2 := Pad5(a.srcMin) + "|" + a3, Pad5(b.srcMin) + "|" + b3;
    LessFront(a.srcIP + "|", a.dstIP + "|" + a2, b.dstIP + "|" + b2);
    LessFront(a.dstIP + "|", a2, b2);
    LessPort(a.srcMin, a3, b.srcMin, b3);
    LessPort(a.srcMax, a4, b.srcMax, b4);
    LessPort(a.dstMin, a5, b.dstMin, b5);
    LessPort(a.dstMax, Dec(a.proto), b.dstMax, Dec(b.proto));
  }

  /** The protocol of a firewall key is not padded. Two rules alike but for it
      sort by its digits: the longer number is cut to the length of the shorter
      one, and comes after it when these are equal. */
  lemma FwProtoOrder(a: FwRuleArg, b: FwRuleArg)
    requires a.AlikeButProto(b)
    ensures var m, n := |Dec(a.proto)|, |Dec(b.proto)|;
      Less(a.Key(), b.Key()) <==>
        if m == n then a.proto < b.proto
        else if m < n then a.proto <= Cut(b.proto, n - m)
        else Cut(a.proto, m - n) < b.proto
  {
    FwKeyOrder(a, b);
    DecOrder(a.proto, b.proto);
    hide Dec, Less, Cut;
  }

  /** The smaller protocol sorts first exactly when it is no larger than the
      front digits of the larger one, as many as it has itself. */
  lemma FwProtoOrderNumericExactly(a: FwRuleArg, b: FwRuleArg)
    requires a.AlikeButProto(b) && a.proto < b.proto
    ensures |Dec(a.proto)| <= |Dec(b.proto)|
    ensures Less(a.Key(), b.Key()) <==> a.proto <= Cut(b.proto, |Dec(b.proto)| - |Dec(a.proto)|)
  {
    FwProtoOrder(a, b);
    MoreDigits(a.proto, b.proto);
    hide Dec, Less;
  }

  /** 17 sorts before 6, in every rule. */
  lemma FwProtoOrderIsTextual(fw: FwRuleArg)
    ensures Less(fw.(proto := 17).Key(), fw.(proto := 6).Key())
  {
    FwProtoOrderNumericExactly(fw.(proto := 6), fw.(proto := 17));
    FwProtoOrder(fw.(proto := 17), fw.(proto := 6));
    assert |Dec(17)| == 2 && |Dec(6)| == 1 && Cut(17, 1) == 1;
  }

  lemma EndPointKeyOrder(a: EndPoint, b: EndPoint)
    requires a.hostName == b.hostName
    ensures Less(a.Key(), b.Key()) <==>
      a.probePort < b.probePort ||
      (a.probePort == b.probePort && Less(a.probeType + "|" + a.name, b.probeType + "|" + b.name))
  {
    EndPointKeyShape(a);
    EndPointKeyShape(b);
    hide Pad5, Less;
    var a2, b2 := a.probeType + "|" + a.name, b.probeType + "|" + b.name;
    LessFront(a.hostName + "|", Pad5(a.probePort) + "|" + a2, Pad5(b.probePort) + "|" + b2);
    LessPort(a.probePort, a2, b.probePort, b2);
  }

  /** In a sorted listing the connections between two hosts are in the order of
      their destination ports, and of their source ports where those are equal. */
  lemma SortedByPorts(s: seq<Conntrack>, i: nat, j: nat)
    requires Ordered(s, (ct: Conntrack) => ct.Key()) && i < j < |s|
    requires s[i].dip == s[j].dip && s[i].sip == s[j].sip
    ensures s[i].dport < s[j].dport || (s[i].dport == s[j].dport && s[i].sport <= s[j].sport)
  {
    var key := (ct: Conntrack) => ct.Key();
    assert LessEq(key(s[i]), key(s[j]));
    ConntrackKeyOrder(s[j], s[i]);
  }
}
