/** The two forms of a dump over whole runs: every event pairs its line with
    its record, so only a missing directory can make them differ. */
module DumpTheorems {
  import opened Text
  import opened HwTexts
  import opened IntfDump
  import opened IntfReplay
  import opened DumpReplay

  // ----- sub-interfaces -----

  function SubRecord(name: string): string
    requires '.' in name
  {
    name + "|" + Parent(name) + "|" + VlanId(name)
  }

  lemma {:induction false} SplitParts(s: string, c: char)
    ensures forall p :: p in Split(s, c) ==> |p| <= |s| && forall x :: x in p ==> x in s
    decreases |s|
  {
    var i := Index(s, c);
    if i < |s| {
      SplitParts(s[i + 1..], c);
      forall p | p in Split(s, c) ensures |p| <= |s| && forall x :: x in p ==> x in s {
        if p == s[..i] {
        } else {
          assert p in Split(s[i + 1..], c);
        }
      }
    }
  }

  /** The parent and the VLAN id of a name are pieces of it. */
  lemma Pieces(name: string)
    requires '.' in name
    ensures forall x :: x in Parent(name) ==> x in name
    ensures forall x :: x in VlanId(name) ==> x in name
    ensures NameOK(name) ==> NameOK(Parent(name)) && NameOK(VlanId(name))
  {
    SplitParts(name, '.');
    DottedHasTwoParts(name);
    assert Parent(name) in Split(name, '.') && VlanId(name) in Split(name, '.');
  }

  /** Splitting a saved sub-interface record gives the three fields back. */
  lemma SubRecordSplits(name: string)
    requires '.' in name && '|' !in name
    ensures Split(SubRecord(name), '|') == [name, Parent(name), VlanId(name)]
  {
    Pieces(name);
    var p, v := Parent(name), VlanId(name);
    hide Parent, VlanId, Split;
    SplitCons(name, '|', p + "|" + v);
    SplitCons(p, '|', v);
    SplitOne(v, '|');
    assert SubRecord(name) == name + "|" + (p + "|" + v);
    assert p + "|" + v == p + ['|'] + v;
    assert [name] + ([p] + [v]) == [name, p, v];
  }

  /** The command rebuilt from a sub-interface record is the line of the flat
      script exactly when the name is free of the record separator. */
  lemma SubRecordReplays(name: string, intf: string)
    requires '.' in name
    ensures Command(SubIntfs, intf, SubRecord(name)) == VlanLine(name) <==> '|' !in name
  {
    if '|' !in name {
      SubRecordSplits(name);
    } else {
      var i := Index(name, '|');
      FirstToken(name, i, Parent(name), VlanId(name));
      BrokenCommand(name, i, SubRecord(name), intf);
    }
  }

  lemma FirstToken(name: string, i: nat, p: string, v: string)
    requires i < |name| && name[i] == '|' && '|' !in name[..i]
    ensures Split(name + "|" + p + "|" + v, '|')[0] == name[..i]
  {
    var head, rest := name[..i], name[i + 1..];
    hide Split;
    assert name == head + "|" + rest;
    ConcatAssociative(head + "|", rest, "|" + p + "|" + v);
    var tail := rest + ("|" + p + "|" + v);
    assert name + "|" + p + "|" + v == name + ("|" + p + "|" + v);
    SplitCons(head, '|', tail);
  }

  lemma BrokenCommand(name: string, i: nat, record: string, intf: string)
    requires '.' in name && i < |name| && name[i] == '|'
    requires Split(record, '|')[0] == name[..i]
    ensures Command(SubIntfs, intf, record) != VlanLine(name)
  {
    var built, wanted, token := Command(SubIntfs, intf, record), VlanLine(name), Split(record, '|');
    VlanStart(name);
    hide Split, VlanLine, VlanRest;
    assert wanted[12 + i] == '|';
    if |token| >= 3 {
      var head := "ip link add " + token[0];
      assert built[|head|] == ' ' by {
        assert built == head + (" link " + token[1] + " type vlan id " + token[2]);
      }
      assert |head| == 12 + i;
    }
  }

  lemma VlanLineIsLineOf(k: Kind, intf: string, name: string)
    requires '.' in name && NameOK(name)
    ensures IsLineOf(k, intf, VlanLine(name)) <==> k == SubIntfs && Parent(name) == intf
  {
    VlanStart(name);
    if k.SubIntfs? {
      assert VlanLineOf(name, VlanLine(name));
      forall other | VlanLineOf(other, VlanLine(name)) ensures other == name {
        VlanStart(other);
        SameTail(Before(SubIntfs), name + " " + VlanRest(name), other + " " + VlanRest(other));
        FirstWord(name, VlanRest(name), other, VlanRest(other));
      }
    } else if Before(k) <= VlanLine(name) {
      BeforesDiffer(k, SubIntfs, VlanLine(name));
    }
  }

  lemma VlanLineTidy(name: string)
    requires '.' in name && NameOK(name)
    ensures GoodLine(VlanLine(name)) && GoodLine(SubRecord(name))
  {
    Pieces(name);
    var p, v := Parent(name), VlanId(name);
    hide Parent, VlanId, Index;
    PlainConcat("ip link add ", name);
    PlainConcat("ip link add " + name, " link ");
    PlainConcat("ip link add " + name + " link ", p);
    PlainConcat("ip link add " + name + " link " + p, " type vlan id ");
    PlainConcat("ip link add " + name + " link " + p + " type vlan id ", v);
    PlainConcat(name, "|");
    PlainConcat(name + "|", p);
    PlainConcat(name + "|" + p, "|");
    PlainConcat(name + "|" + p + "|", v);
    PlainGood(VlanLine(name));
    PlainGood(SubRecord(name));
  }

  lemma SubRecordText(name: string)
    requires '.' in name
    ensures SubRecord(name) == name + "|" + Parent(name) + "|" + VlanId(name)
  {
  }

  lemma BetweenHarmless(link: Link, dir: string, under: string)
    requires NameOK(link.name) && '.' in link.name
    ensures Harmless(UpIf(link.up, Parent(link.name))
      + [Mkdir(dir), Put(dir, TypeFile, "subintf"), Put(dir, RealFile, under)])
  {
    Pieces(link.name);
    UpHarmless(link.up, Parent(link.name));
    hide Parent, NameOK, UpIf;
    var files := [Mkdir(dir), Put(dir, TypeFile, "subintf"), Put(dir, RealFile, under)];
    assert Harmless(files);
    HarmlessConcat(UpIf(link.up, Parent(link.name)), files);
  }

  lemma TaggedAgrees(k: Kind, intf: string, path: string, link: Link)
    requires NameOK(link.name) && '.' in link.name
    ensures var es := TaggedEffects(path, link);
      && Paired(k, intf, path, es) && AllTidy(es)
      && (Agree(k, intf, path, es) <==> (k.SubIntfs? && Parent(link.name) == intf ==> '|' !in link.name))
  {
    hide IsLineOf, Selected, Said, Logged, Agree, Paired, Harmless, VlanLine, Command, Parent, VlanId, UpIf, GoodLine,
      NameOK, SubRecord;
    var name, dir := link.name, path + link.name;
    var lower, vid := Parent(name), VlanId(name);
    var files := [Mkdir(dir), Put(dir, TypeFile, "subintf"), Put(dir, RealFile, lower + " type vlan id " + vid)];
    var between := UpIf(link.up, lower) + files;
    BetweenHarmless(link, dir, lower + " type vlan id " + vid);
    HarmlessAgrees(k, intf, path, between);
    VlanLineIsLineOf(k, intf, name);
    VlanLineTidy(name);
    if k.SubIntfs? {
      SubRecordReplays(name, intf);
    }
    SameInDir(path, lower, intf);
    AgreeAround(k, intf, path, VlanLine(name), between, path + lower, SubIntfFile, SubRecord(name));
    SubRecordText(name);
    var es := TaggedEffects(path, link);
    assert es == [Say(VlanLine(name))] + between + [Log(path + lower, SubIntfFile, SubRecord(name))];
  }

  lemma SameInDir(path: string, a: string, b: string)
    ensures path + a == path + b <==> a == b
  {
    if path + a == path + b {
      SameTail(path, a, b);
    }
  }

  // ----- addresses, neighbours, forwarding entries and routes -----

  lemma NothingAgrees(k: Kind, intf: string, path: string)
    ensures Selected(k, intf, Said([])) == [] && Logged([], path + intf, FileOf(k)) == []
  {
  }

  lemma CommandTidy(k: Kind, m: string, record: string)
    requires !k.SubIntfs? && NameOK(m) && Plain(record) && |record| < 1000
    ensures GoodLine(Command(k, m, record)) && GoodLine(record)
  {
    PlainConcat(" dev ", m);
    PlainConcat(" dev " + m, " permanent");
    assert Plain(After(k, m)) && |After(k, m)| < 1000;
    assert Plain(Before(k)) && |Before(k)| < 1000;
    hide After, Before, NameOK, Plain;
    PlainConcat(Before(k), record);
    PlainConcat(Before(k) + record, After(k, m));
    PlainGood(Command(k, m, record));
    PlainGood(record);
  }

  lemma RecordPairAgrees(k: Kind, intf: string, path: string, k2: Kind, m: string, record: string)
    requires !k2.SubIntfs? && NameOK(m) && NameOK(intf) && Plain(record) && |record| < 1000
    ensures var es := [Say(Command(k2, m, record)), Log(path + m, FileOf(k2), record)];
      Agree(k, intf, path, es) && AllTidy(es)
  {
    hide Command, IsLineOf, Agree, GoodLine, NameOK, Plain, Selected, Said, Logged;
    var line, none: seq<Effect> := Command(k2, m, record), [];
    CommandIsLineOf(k, intf, k2, m, record);
    CommandTidy(k2, m, record);
    SameInDir(path, m, intf);
    NothingAgrees(k, intf, path);
    assert FileOf(k) == FileOf(k2) <==> k == k2;
    assert LogFile(FileOf(k2));
    hide FileOf, LogFile;
    AgreeAround(k, intf, path, line, none, path + m, FileOf(k2), record);
    assert [Say(line)] + none + [Log(path + m, FileOf(k2), record)] == [Say(line), Log(path + m, FileOf(k2), record)];
  }

  lemma AddrAgrees(k: Kind, intf: string, path: string, ip: string, name: string)
    requires NameOK(intf) && NameOK(name) && TextOK(ip)
    ensures Agree(k, intf, path, AddrEffects(path, ip, name)) && AllTidy(AddrEffects(path, ip, name))
  {
    assert Plain(ip);
    hide Agree, AllTidy;
    RecordPairAgrees(k, intf, path, Addrs, name, ip);
    ConcatAssociative("ip addr add " + ip, " dev ", name);
    assert AddrEffects(path, ip, name) == [Say(Command(Addrs, name, ip)), Log(path + name, FileOf(Addrs), ip)];
  }

  lemma {:induction false} HwTextPlain(mac: seq<Byte>)
    ensures Plain(HwText(mac)) && |HwText(mac)| <= 3 * |mac|
  {
    if mac != [] {
      var pair := [HexDigit(mac[0] / 16), HexDigit(mac[0] % 16)];
      assert Plain(pair);
      if |mac| > 1 {
        HwTextPlain(mac[1..]);
        PlainConcat(pair, ":");
        PlainConcat(pair + ":", HwText(mac[1..]));
      }
    }
  }

  lemma NeighAgrees(k: Kind, intf: string, path: string, table: LinkTable, n: Neigh, link: Link)
    requires NameOK(intf) && NameOK(link.name) && (n.ip.Some? ==> TextOK(n.ip.value))
    ensures var es := NeighEffects(path, table, n, link); Agree(k, intf, path, es) && AllTidy(es)
  {
    var name, mac, ip := link.name, HwText(n.hw.Front()), IpText(n.ip);
    HwTextPlain(n.hw.Front());
    assert Plain(ip) && |ip| <= 256;
    hide Agree, HwText, HwAddr.Front, SavedFdb, AllTidy, Plain, NameOK, TextOK, IpText;
    if !HasMac(n) || (n.family != AF_INET && (n.family != AF_BRIDGE || !SavedFdb(table, n))) {
      NoneAgree(k, intf, path);
    } else if n.family == AF_INET {
      TwoFieldsAgree(k, intf, path, Neighs, name, ip, " lladdr ", mac);
    } else if !link.kind.Vxlan? {
      RecordPairAgrees(k, intf, path, L2FdbEntries, name, mac);
      DevText("bridge fdb add " + mac, name);
    } else if n.ip.None? {
      NoneAgree(k, intf, path);
    } else {
      IpTextOf(n.ip);
      TwoFieldsAgree(k, intf, path, VxFdbEntries, name, mac, " dst ", ip);
    }
  }

  lemma IpTextOf(ip: Option<string>)
    ensures ip.Some? ==> IpText(ip) == ip.value
  {
  }

  lemma NoneAgree(k: Kind, intf: string, path: string)
    ensures Agree(k, intf, path, []) && AllTidy([])
  {
    AgreeQuiet(k, intf, path, []);
  }

  lemma TwoFieldsAgree(k: Kind, intf: string, path: string, k2: Kind, m: string, a: string, sep: string, b: string)
    requires k2 in {Neighs, VxFdbEntries} && NameOK(m) && NameOK(intf)
    requires Plain(a) && Plain(b) && Plain(sep) && |a| <= 256 && |b| <= 256 && |sep| < 10
    ensures var es := [Say(Before(k2) + a + sep + b + " dev " + m + " permanent"), Log(path + m, FileOf(k2), a + sep + b)];
      Agree(k, intf, path, es) && AllTidy(es)
  {
    hide Agree, AllTidy, Plain, NameOK;
    PlainConcat(a, sep);
    PlainConcat(a + sep, b);
    RecordPairAgrees(k, intf, path, k2, m, a + sep + b);
    NeighText(Before(k2), a, sep, b, m);
  }

  lemma DevText(head: string, name: string)
    ensures head + " dev " + name + " permanent" == head + (" dev " + name + " permanent")
  {
  }

  lemma NeighText(before: string, a: string, sep: string, b: string, name: string)
    ensures before + a + sep + b + " dev " + name + " permanent"
         == before + (a + sep + b) + (" dev " + name + " permanent")
  {
    DevText(before + a + sep + b, name);
    ConcatAssociative(before, a, sep);
    ConcatAssociative(before, a + sep, b);
  }

  lemma RouteAgrees(k: Kind, intf: string, path: string, table: LinkTable, r: Route)
    requires EventOK(table, RouteEvent(r))
    ensures var es := RouteEffects(path, table, r); Agree(k, intf, path, es) && AllTidy(es)
  {
    var es, dst, gw := RouteEffects(path, table, r), DstText(r), IpText(r.gw);
    assert Plain(dst) && Plain(gw) && |dst| <= 256 && |gw| <= 256;
    RouteTidy(dst, gw);
    RouteNotLine(k, intf, dst, gw);
    hide IsLineOf, Agree, GoodLine, Plain, DstText, IpText;
    var say, log := Say(RouteLine(dst, gw)), Log(path + if r.link in table then table[r.link].name else "", Ipv4Route, dst + " via " + gw);
    assert es == [] || es == [say, log];
    assert Quiet(k, intf, say) && Tidy(say) && Quiet(k, intf, log) && Tidy(log);
    hide RouteEffects, Quiet, Tidy;
    AgreeQuiet(k, intf, path, es);
  }

  lemma RouteNotLine(k: Kind, intf: string, dst: string, gw: string)
    ensures !IsLineOf(k, intf, RouteLine(dst, gw))
  {
    var line := RouteLine(dst, gw);
    ConcatAssociative("ip route add ", dst, " via ");
    assert line[0] == 'i' && line[3] == 'r';
    assert Before(k)[0] != 'i' || Before(k)[3] != 'r';
    if IsLineOf(k, intf, line) {
      StartsBefore(k, intf, line);
    }
  }

  function RouteLine(dst: string, gw: string): string {
    "ip route add " + dst + " via " + gw + " proto static"
  }

  lemma RouteTidy(dst: string, gw: string)
    requires Plain(dst) && Plain(gw) && |dst| <= 256 && |gw| <= 256
    ensures GoodLine(RouteLine(dst, gw)) && GoodLine(dst + " via " + gw)
  {
    assert Plain("ip route add ") && Plain(" via ") && Plain(" proto static");
    hide Plain;
    PlainConcat("ip route add ", dst);
    PlainConcat("ip route add " + dst, " via ");
    PlainConcat("ip route add " + dst + " via ", gw);
    PlainConcat("ip route add " + dst + " via " + gw, " proto static");
    PlainConcat(dst, " via ");
    PlainConcat(dst + " via ", gw);
    PlainGood(RouteLine(dst, gw));
    PlainGood(dst + " via " + gw);
  }

  lemma StartsBefore(k: Kind, intf: string, line: string)
    requires IsLineOf(k, intf, line)
    ensures Before(k) <= line
  {
    if k.SubIntfs? {
      var name :| VlanLineOf(name, line);
      VlanStart(name);
    }
  }

  // ----- whole runs -----

  /** A tagged link on intf. */
  predicate Tagged(e: Event, intf: string) {
    e.LinkEvent? && !e.link.kind.Bridge? && '.' in e.link.name && Parent(e.link.name) == intf
  }

  /** A sub-interface of intf whose name is free of the record separator, or
      anything else. */
  predicate Unbarred(k: Kind, intf: string, e: Event) {
    k.SubIntfs? && Tagged(e, intf) ==> '|' !in e.link.name
  }

  /** Every event leaves as many lines as records of each kind and interface, and
      they say the same exactly when no sub-interface's name holds a bar. */
  lemma EventAgrees(k: Kind, intf: string, path: string, table: LinkTable, e: Event)
    requires NameOK(intf) && EventOK(table, e)
    ensures var es := EffectsOf(path, table, e);
      && Paired(k, intf, path, es) && AllTidy(es)
      && (Agree(k, intf, path, es) <==> Unbarred(k, intf, e))
  {
    if !e.LinkEvent? {
      OtherAgrees(k, intf, path, table, e);
      AgreePaired(k, intf, path, EffectsOf(path, table, e));
    } else {
      hide Agree, Paired, AllTidy, LinkEffects;
      LinkAgrees(k, intf, path, table, e.link);
    }
  }

  lemma OtherAgrees(k: Kind, intf: string, path: string, table: LinkTable, e: Event)
    requires NameOK(intf) && EventOK(table, e) && !e.LinkEvent?
    ensures var es := EffectsOf(path, table, e); Agree(k, intf, path, es) && AllTidy(es)
  {
    hide Agree, AllTidy, LinkEffects, AddrEffects, NeighEffects, RouteEffects, NameOK;
    match e {
      case AddrEvent(ip, name) => AddrAgrees(k, intf, path, ip, name);
      case NeighEvent(n, link) => NeighAgrees(k, intf, path, table, n, link);
      case RouteEvent(r) => RouteAgrees(k, intf, path, table, r);
    }
  }

  lemma LinkAgrees(k: Kind, intf: string, path: string, table: LinkTable, link: Link)
    requires EventOK(table, LinkEvent(link))
    ensures var es := LinkEffects(path, table, link);
      && Paired(k, intf, path, es) && AllTidy(es)
      && (Agree(k, intf, path, es) <==> Unbarred(k, intf, LinkEvent(link)))
  {
    hide Paired, Agree;
    if link.kind.Bridge? || '.' !in link.name {
      UntaggedHarmless(path, table, link);
      HarmlessAgrees(k, intf, path, LinkEffects(path, table, link));
      AgreePaired(k, intf, path, LinkEffects(path, table, link));
    } else {
      var tagged, up, master := TaggedEffects(path, link), UpIf(link.up, link.name), MasterEffects(path, table, link);
      TaggedAgrees(k, intf, path, link);
      UpHarmless(link.up, link.name);
      MasterHarmless(path, table, link);
      HarmlessAgrees(k, intf, path, up);
      HarmlessAgrees(k, intf, path, master);
      AgreePaired(k, intf, path, up);
      AgreePaired(k, intf, path, master);
      assert LinkEffects(path, table, link) == tagged + up + master;
      hide TaggedEffects, UpIf, MasterEffects;
      AgreeConcat(k, intf, path, tagged, up);
      AgreeConcat(k, intf, path, tagged + up, master);
    }
  }

  predicate HistoryOK(table: LinkTable, h: seq<Event>) {
    forall e :: e in h ==> EventOK(table, e)
  }

  predicate AllUnbarred(k: Kind, intf: string, h: seq<Event>) {
    forall e :: e in h ==> Unbarred(k, intf, e)
  }

  lemma {:induction false} HistoryAgrees(k: Kind, intf: string, path: string, table: LinkTable, h: seq<Event>)
    requires NameOK(intf) && HistoryOK(table, h)
    ensures var es := Effects(path, table, h);
      && Paired(k, intf, path, es) && AllTidy(es)
      && (Agree(k, intf, path, es) <==> AllUnbarred(k, intf, h))
  {
    hide EffectsOf, Agree, Paired, EventOK, NameOK, Unbarred;
    if h == [] {
      AgreeQuiet(k, intf, path, []);
      AgreePaired(k, intf, path, []);
    } else {
      var init, last := h[..|h| - 1], h[|h| - 1];
      assert h == init + [last];
      HistoryAgrees(k, intf, path, table, init);
      EventAgrees(k, intf, path, table, last);
      AgreeConcat(k, intf, path, Effects(path, table, init), EffectsOf(path, table, last));
    }
  }

  /** What the commands of one reader and the lines of the flat script are
      after a run of the Add functions. */
  function Rebuilt(k: Kind, path: string, intf: string, d: Dump): seq<string> {
    Commands(k, intf, ScanLines(TextAt(d.files, PathOf(path + intf, FileOf(k)))))
  }

  ghost function InScript(k: Kind, intf: string, d: Dump): seq<string> {
    Selected(k, intf, ScanLines(d.script))
  }

  /** For every run: each record whose interface had no directory yet is one
      command fewer, and the readers rebuild exactly the lines of the flat
      script, in order, if and only if there is no such record and no
      sub-interface of intf has a bar in its name. */
  lemma ReplayAgrees(k: Kind, intf: string, path: string, table: LinkTable, h: seq<Event>)
    requires NameOK(intf) && HistoryOK(table, h)
    ensures var es := Effects(path, table, h);
      var d, lost := Run(Fresh(path), es), Orphans({path}, es, path + intf, FileOf(k));
      && |InScript(k, intf, d)| == |Rebuilt(k, path, intf, d)| + lost
      && (Rebuilt(k, path, intf, d) == InScript(k, intf, d) <==> lost == 0 && AllUnbarred(k, intf, h))
  {
    hide Effects, Run, Selected, Said, Logged, Kept, Orphans, Commands, ScanLines, NameOK, HistoryOK, AllUnbarred, Clean;
    var es, dir, base := Effects(path, table, h), path + intf, FileOf(k);
    HistoryAgrees(k, intf, path, table, h);
    ScriptLines(path, es);
    FileLines(path, es, dir, base);
    KeptOrLost({path}, es, dir, base);
    CommandsLength(k, intf, Logged(es, dir, base));
    CommandsLength(k, intf, Kept({path}, es, dir, base));
  }

  // ----- no record of a dump is lost -----

  lemma {:induction false} MadeConcat(dirs: set<string>, a: seq<Effect>, b: seq<Effect>)
    ensures Made(dirs, a + b) == Made(Made(dirs, a), b)
  {
    if b == [] {
      assert a + b == a;
    } else {
      assert (a + b)[..|a + b| - 1] == a + b[..|b| - 1];
      MadeConcat(dirs, a, b[..|b| - 1]);
    }
  }

  lemma {:induction false} OrphansConcat(dirs: set<string>, a: seq<Effect>, b: seq<Effect>, dir: string, base: File)
    ensures Orphans(dirs, a + b, dir, base) == Orphans(dirs, a, dir, base) + Orphans(Made(dirs, a), b, dir, base)
  {
    if b == [] {
      assert a + b == a;
    } else {
      var c := b[..|b| - 1];
      assert (a + b)[..|a + b| - 1] == a + c;
      OrphansConcat(dirs, a, c, dir, base);
      MadeConcat(dirs, a, c);
    }
  }

  lemma {:induction false} MadeGrows(dirs: set<string>, es: seq<Effect>)
    ensures dirs <= Made(dirs, es)
    ensures forall dir :: Mkdir(dir) in es ==> dir in Made(dirs, es)
  {
    if es != [] {
      MadeGrows(dirs, es[..|es| - 1]);
    }
  }

  lemma {:induction false} HousedKept(dirs: set<string>, es: seq<Effect>, dir: string, base: File)
    requires forall e :: e in es && e.Log? && e.base == base ==> e.dir in dirs
    ensures Orphans(dirs, es, dir, base) == 0
  {
    if es != [] {
      var init := es[..|es| - 1];
      HousedKept(dirs, init, dir, base);
      MadeGrows(dirs, init);
      assert es[|es| - 1] in es;
    }
  }

  /** The directory an address or neighbour record needs is among dirs. */
  predicate AtHome(path: string, dirs: set<string>, e: Event) {
    match e
    case AddrEvent(_, name) => path + name in dirs
    case NeighEvent(_, link) => path + link.name in dirs
    case _ => true
  }

  predicate Settled(path: string, table: LinkTable, dirs: set<string>, h: seq<Event>) {
    h == [] ||
    (var init := h[..|h| - 1];
     Settled(path, table, dirs, init) && AtHome(path, Made(dirs, Effects(path, table, init)), h[|h| - 1]))
  }

  lemma {:induction false} SettledConcat(path: string, table: LinkTable, dirs: set<string>, a: seq<Event>, b: seq<Event>)
    requires Settled(path, table, dirs, a) && Settled(path, table, Made(dirs, Effects(path, table, a)), b)
    ensures Settled(path, table, dirs, a + b)
    ensures Made(dirs, Effects(path, table, a + b)) == Made(Made(dirs, Effects(path, table, a)), Effects(path, table, b))
  {
    hide Effects, AtHome, Made;
    EffectsConcat(path, table, a, b);
    MadeConcat(dirs, Effects(path, table, a), Effects(path, table, b));
    if b == [] {
      assert a + b == a;
    } else {
      var c := b[..|b| - 1];
      assert (a + b)[..|a + b| - 1] == a + c && (a + b)[|a + b| - 1] == b[|b| - 1];
      SettledConcat(path, table, dirs, a, c);
    }
  }

  lemma {:induction false} SettledAtOnce(path: string, table: LinkTable, dirs: set<string>, h: seq<Event>)
    requires forall e :: e in h ==> AtHome(path, dirs, e)
    ensures Settled(path, table, dirs, h)
  {
    if h != [] {
      var init := h[..|h| - 1];
      assert h[|h| - 1] in h;
      SettledAtOnce(path, table, dirs, init);
      MadeGrows(dirs, Effects(path, table, init));
    }
  }

  /** No record of a file the four entry readers scan. */
  predicate NoEntries(es: seq<Effect>) {
    forall e :: e in es && e.Log? ==> e.base == MembersFile || e.base == SubIntfFile
  }

  lemma NoEntriesConcat(a: seq<Effect>, b: seq<Effect>)
    requires NoEntries(a) && NoEntries(b)
    ensures NoEntries(a + b)
  {
  }

  lemma CreateMakes(path: string, table: LinkTable, link: Link)
    requires !link.kind.Bridge? && !CreateFails(table, link)
    ensures NoEntries(CreateEffects(path, table, link))
    ensures Mkdir(path + link.name) in CreateEffects(path, table, link)
  {
    hide VlanLine, VxlanLine, MtuLine, UpLine, Parent, VlanId, Dec;
    if '.' !in link.name && !link.kind.Vxlan? {
      var es := CreateEffects(path, table, link);
      assert es[if link.kind.Bond? then 2 else 0] == Mkdir(path + link.name);
    } else if '.' !in link.name {
      var es := CreateEffects(path, table, link);
      assert es[2] == Mkdir(path + link.name);
    } else {
      var es := TaggedEffects(path, link);
      assert es[|es| - 4] == Mkdir(path + link.name);
    }
  }

  lemma LinkRecords(path: string, table: LinkTable, link: Link)
    ensures NoEntries(LinkEffects(path, table, link))
    ensures !CreateFails(table, link) || link.kind.Bridge? ==> Mkdir(path + link.name) in LinkEffects(path, table, link)
  {
    hide CreateEffects, CreateFails, MtuLine, UpLine;
    if link.kind.Bridge? {
      var es := BridgeEffects(path, link);
      assert es[|es| - 2] == Mkdir(path + link.name);
    } else if !CreateFails(table, link) {
      CreateMakes(path, table, link);
      var made, up, master := CreateEffects(path, table, link), UpIf(link.up, link.name), MasterEffects(path, table, link);
      assert NoEntries(up) && NoEntries(master);
      NoEntriesConcat(made, up);
      NoEntriesConcat(made + up, master);
      assert Mkdir(path + link.name) in made + up;
    }
  }

  lemma EventHoused(k: Kind, path: string, table: LinkTable, dirs: set<string>, e: Event, dir: string)
    requires !k.SubIntfs? && AtHome(path, dirs, e)
    ensures Orphans(dirs, EffectsOf(path, table, e), dir, FileOf(k)) == 0
  {
    if e.LinkEvent? {
      LinkRecords(path, table, e.link);
      hide LinkEffects;
      HousedKept(dirs, EffectsOf(path, table, e), dir, FileOf(k));
    } else {
      hide HwText, HwAddr.Front, SavedFdb;
      HousedKept(dirs, EffectsOf(path, table, e), dir, FileOf(k));
    }
  }

  lemma {:induction false} SettledKept(k: Kind, path: string, table: LinkTable, dirs: set<string>, h: seq<Event>, dir: string)
    requires !k.SubIntfs? && Settled(path, table, dirs, h)
    ensures Orphans(dirs, Effects(path, table, h), dir, FileOf(k)) == 0
  {
    hide EffectsOf, AtHome, FileOf;
    if h != [] {
      var init, last := h[..|h| - 1], h[|h| - 1];
      var before := Effects(path, table, init);
      SettledKept(k, path, table, dirs, init, dir);
      EventHoused(k, path, table, Made(dirs, before), last, dir);
      OrphansConcat(dirs, before, EffectsOf(path, table, last), dir, FileOf(k));
    }
  }

  lemma LinkSettles(path: string, table: LinkTable, dirs: set<string>, link: Link)
    ensures Settled(path, table, dirs, [LinkEvent(link)])
    ensures var now := Made(dirs, Effects(path, table, [LinkEvent(link)]));
      dirs <= now && (!CreateFails(table, link) || link.kind.Bridge? ==> path + link.name in now)
  {
    AddedOne(path, table, link);
    SettledAtOnce(path, table, dirs, [LinkEvent(link)]);
    LinkRecords(path, table, link);
    MadeGrows(dirs, LinkEffects(path, table, link));
  }

  lemma WalkOfSettled(pass: Pass, path: string, table: LinkTable, dirs: set<string>, i: Iface)
    requires pass.Main? && (i.link.kind.Bridge? || i.link.kind.Bond?) ==> path + i.link.name in dirs
    ensures Settled(path, table, dirs, WalkOf(pass, table, i))
    ensures var now := Made(dirs, Effects(path, table, WalkOf(pass, table, i)));
      && dirs <= now
      && ((pass.Bridges? && i.link.kind.Bridge?) || (pass.Bonds? && i.link.kind.Bond?) ==> path + i.link.name in now)
  {
    hide EffectsOf;
    var h, added := WalkOf(pass, table, i), [LinkEvent(i.link)];
    MadeGrows(dirs, Effects(path, table, h));
    hide Effects, Made;
    if h == [] || h[0] != LinkEvent(i.link) {
      SettledAtOnce(path, table, dirs, h);
    } else {
      var rest := h[1..];
      assert h == added + rest;
      LinkSettles(path, table, dirs, i.link);
      var now := Made(dirs, Effects(path, table, added));
      assert forall e :: e in rest ==> AtHome(path, now, e);
      hide WalkOf, AtHome;
      SettledAtOnce(path, table, now, rest);
      SettledConcat(path, table, dirs, added, rest);
      MadeGrows(now, Effects(path, table, rest));
    }
  }

  lemma {:induction false} WalkSettled(pass: Pass, path: string, table: LinkTable, dirs: set<string>, ifaces: seq<Iface>)
    requires pass.Main? ==>
      forall i :: i in ifaces && (i.link.kind.Bridge? || i.link.kind.Bond?) ==> path + i.link.name in dirs
    ensures Settled(path, table, dirs, Walk(pass, table, ifaces))
    ensures var now := Made(dirs, Effects(path, table, Walk(pass, table, ifaces)));
      && dirs <= now
      && forall i :: i in ifaces && ((pass.Bridges? && i.link.kind.Bridge?) || (pass.Bonds? && i.link.kind.Bond?))
           ==> path + i.link.name in now
  {
    hide EffectsOf, WalkOf, AtHome;
    if ifaces != [] {
      var rest, i := ifaces[..|ifaces| - 1], ifaces[|ifaces| - 1];
      WalkSettled(pass, path, table, dirs, rest);
      var now := Made(dirs, Effects(path, table, Walk(pass, table, rest)));
      WalkOfSettled(pass, path, table, now, i);
      SettledConcat(path, table, dirs, Walk(pass, table, rest), WalkOf(pass, table, i));
    }
  }

  lemma DumpSettled(path: string, table: LinkTable, ifaces: seq<Iface>, routes: seq<Route>)
    ensures Settled(path, table, {path}, DumpEvents(table, ifaces, routes))
  {
    hide Settled, Made, Effects, Walk;
    var bridges, bonds, main := Walk(Bridges, table, ifaces), Walk(Bonds, table, ifaces), Walk(Main, table, ifaces);
    var d1 := Made({path}, Effects(path, table, bridges));
    WalkSettled(Bridges, path, table, {path}, ifaces);
    WalkSettled(Bonds, path, table, d1, ifaces);
    SettledConcat(path, table, {path}, bridges, bonds);
    var d2 := Made({path}, Effects(path, table, bridges + bonds));
    WalkSettled(Main, path, table, d2, ifaces);
    SettledConcat(path, table, {path}, bridges + bonds, main);
    var d3 := Made({path}, Effects(path, table, bridges + bonds + main));
    SettledAtOnce(path, table, d3, RouteEvents(routes));
    SettledConcat(path, table, {path}, bridges + bonds + main, RouteEvents(routes));
  }

  /** For every state of the host: what the readers rebuild from the saved
      addresses, neighbours and forwarding entries of an interface is exactly,
      in order, what the flat script says about it. */
  lemma SaveReplays(k: Kind, intf: string, path: string, table: LinkTable, ifaces: seq<Iface>, routes: seq<Route>)
    requires !k.SubIntfs? && NameOK(intf) && HistoryOK(table, DumpEvents(table, ifaces, routes))
    ensures var d := Run(Fresh(path), Effects(path, table, DumpEvents(table, ifaces, routes)));
      Rebuilt(k, path, intf, d) == InScript(k, intf, d)
  {
    var h := DumpEvents(table, ifaces, routes);
    DumpSettled(path, table, ifaces, routes);
    SettledKept(k, path, table, {path}, h, path + intf);
    ReplayAgrees(k, intf, path, table, h);
  }

  lemma {:induction false} MadeWithin(dirs: set<string>, es: seq<Effect>, made: set<string>)
    requires forall dir :: Mkdir(dir) in es ==> dir in made
    ensures Made(dirs, es) <= dirs + made
  {
    if es != [] {
      var last := es[|es| - 1];
      assert last in es;
      MadeWithin(dirs, es[..|es| - 1], made);
    }
  }

  lemma OneOrphan(dirs: set<string>, e: Effect, dir: string, base: File)
    requires IsLog(e, dir, base)
    ensures Orphans(dirs, [e], dir, base) == if dir in dirs then 0 else 1
  {
    assert [e][..0] == [];
  }

  /** A sub-interface record is lost exactly when its parent was not dumped before it. */
  lemma TaggedOrphan(path: string, dirs: set<string>, link: Link)
    requires '.' in link.name
    ensures Orphans(dirs, TaggedEffects(path, link), path + Parent(link.name), SubIntfFile)
         == if path + Parent(link.name) in dirs then 0 else 1
  {
    var name, es := link.name, TaggedEffects(path, link);
    var dir, front, record := path + Parent(name), es[..|es| - 1], es[|es| - 1];
    assert es == front + [record];
    assert path + Parent(name) != path + name by {
      SameInDir(path, Parent(name), name);
      assert '.' in name && '.' !in Parent(name);
    }
    hide VlanLine, Parent, VlanId, UpLine;
    assert forall e :: e in front ==> !e.Log? && (e.Mkdir? ==> e.dir == path + name);
    HousedKept(dirs, front, dir, SubIntfFile);
    MadeWithin(dirs, front, {path + name});
    MadeGrows(dirs, front);
    OrphansConcat(dirs, front, [record], dir, SubIntfFile);
    OneOrphan(Made(dirs, front), record, dir, SubIntfFile);
  }
}
