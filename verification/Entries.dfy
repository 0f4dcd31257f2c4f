/** Which events of a run the flat script has a line about. */
module Entries {
  import opened Text
  import opened HwTexts
  import opened IntfDump
  import opened IntfReplay
  import opened DumpReplay
  import opened DumpTheorems

  /** A neighbour or forwarding entry that is saved as this kind. */
  predicate SavedAs(k: Kind, table: LinkTable, n: Neigh, link: Link) {
    HasMac(n) &&
    match k
    case Neighs => n.family == AF_INET
    case VxFdbEntries => n.family == AF_BRIDGE && SavedFdb(table, n) && link.kind.Vxlan? && n.ip.Some?
    case L2FdbEntries => n.family == AF_BRIDGE && SavedFdb(table, n) && !link.kind.Vxlan?
    case _ => false
  }

  /** The event gives intf an entry of this kind. */
  predicate Entry(k: Kind, table: LinkTable, intf: string, e: Event) {
    match e
    case AddrEvent(_, name) => k.Addrs? && name == intf
    case NeighEvent(n, link) => link.name == intf && SavedAs(k, table, n, link)
    case LinkEvent(_) => k.SubIntfs? && Tagged(e, intf)
    case RouteEvent(_) => false
  }

  lemma LoggedTwo(line: string, dir: string, base: File, record: string, d: string, b: File)
    ensures Logged([Say(line), Log(dir, base, record)], d, b) == if dir == d && base == b then [record] else []
  {
    EffectOne(Say(line), d, b);
    EffectOne(Log(dir, base, record), d, b);
    hide Logged;
    LoggedConcat([Say(line)], [Log(dir, base, record)], d, b);
    assert [Say(line)] + [Log(dir, base, record)] == [Say(line), Log(dir, base, record)];
  }

  lemma NoneLogged(d: string, b: File)
    ensures Logged([], d, b) == []
  {
  }

  lemma NeighLogs(k: Kind, path: string, table: LinkTable, n: Neigh, link: Link, intf: string)
    ensures Logged(NeighEffects(path, table, n, link), path + intf, FileOf(k)) != [] <==>
      link.name == intf && SavedAs(k, table, n, link)
  {
    var d, b := path + intf, FileOf(k);
    SameInDir(path, link.name, intf);
    NoneLogged(d, b);
    hide HwText, HwAddr.Front, SavedFdb, Logged, IpText;
    var es, dir, mac := NeighEffects(path, table, n, link), path + link.name, HwText(n.hw.Front());
    if es != [] {
      var line, record, base := es[0].line, es[1].line, es[1].base;
      LoggedTwo(line, dir, base, record, d, b);
      assert es == [Say(line), Log(dir, base, record)];
    }
  }

  lemma LinkLogsEntry(k: Kind, path: string, table: LinkTable, link: Link, intf: string)
    requires EventOK(table, LinkEvent(link))
    ensures Logged(LinkEffects(path, table, link), path + intf, FileOf(k)) != [] <==>
      Entry(k, table, intf, LinkEvent(link))
  {
    var d, b := path + intf, FileOf(k);
    if link.kind.Bridge? || '.' !in link.name {
      UntaggedHarmless(path, table, link);
      HarmlessAgrees(k, intf, path, LinkEffects(path, table, link));
    } else {
      var tagged, up, master := TaggedEffects(path, link), UpIf(link.up, link.name), MasterEffects(path, table, link);
      UpHarmless(link.up, link.name);
      MasterHarmless(path, table, link);
      HarmlessAgrees(k, intf, path, up);
      HarmlessAgrees(k, intf, path, master);
      TaggedLogsEntry(k, path, link, intf);
      assert LinkEffects(path, table, link) == tagged + up + master;
      hide TaggedEffects, UpIf, MasterEffects, Logged, Parent, LinkEffects;
      LoggedConcat(tagged, up, d, b);
      LoggedConcat(tagged + up, master, d, b);
    }
  }

  lemma TaggedLogsEntry(k: Kind, path: string, link: Link, intf: string)
    requires NameOK(link.name) && '.' in link.name
    ensures Logged(TaggedEffects(path, link), path + intf, FileOf(k)) != [] <==> k.SubIntfs? && Parent(link.name) == intf
  {
    SameInDir(path, Parent(link.name), intf);
    hide VlanLine, Parent, VlanId, UpLine, NameOK, Logged;
    var d, b, dir, lower, vid := path + intf, FileOf(k), path + link.name, Parent(link.name), VlanId(link.name);
    var front := [Say(VlanLine(link.name))] + UpIf(link.up, lower)
      + [Mkdir(dir), Put(dir, TypeFile, "subintf"), Put(dir, RealFile, lower + " type vlan id " + vid)];
    var last := Log(path + lower, SubIntfFile, link.name + "|" + lower + "|" + vid);
    assert TaggedEffects(path, link) == front + [last];
    assert forall e :: e in front ==> !e.Log?;
    LoggedNone(front, d, b);
    LoggedConcat(front, [last], d, b);
    EffectOne(last, d, b);
  }

  lemma {:induction false} LoggedNone(es: seq<Effect>, d: string, b: File)
    requires forall e :: e in es ==> !IsLog(e, d, b)
    ensures Logged(es, d, b) == []
  {
    if es != [] {
      assert es[|es| - 1] in es;
      LoggedNone(es[..|es| - 1], d, b);
    }
  }

  lemma EventLogsEntry(k: Kind, path: string, table: LinkTable, e: Event, intf: string)
    requires EventOK(table, e)
    ensures Logged(EffectsOf(path, table, e), path + intf, FileOf(k)) != [] <==> Entry(k, table, intf, e)
  {
    var d, b := path + intf, FileOf(k);
    match e {
      case LinkEvent(link) => LinkLogsEntry(k, path, table, link, intf);
      case NeighEvent(n, link) => NeighLogs(k, path, table, n, link, intf);
      case AddrEvent(ip, name) =>
        SameInDir(path, name, intf);
        LoggedTwo("ip addr add " + ip + " dev " + name, path + name, Ipv4Addr, ip, d, b);
      case RouteEvent(r) =>
        hide DstText, IpText;
        LoggedNone(RouteEffects(path, table, r), d, b);
    }
  }

  predicate AnyEntry(k: Kind, table: LinkTable, intf: string, h: seq<Event>) {
    exists e :: e in h && Entry(k, table, intf, e)
  }

  lemma {:induction false} RunLogsEntries(k: Kind, path: string, table: LinkTable, h: seq<Event>, intf: string)
    requires HistoryOK(table, h)
    ensures Logged(Effects(path, table, h), path + intf, FileOf(k)) != [] <==> AnyEntry(k, table, intf, h)
  {
    var d, b := path + intf, FileOf(k);
    hide EffectsOf, Entry, EventOK, Logged;
    NoneLogged(d, b);
    if h != [] {
      var init, last := h[..|h| - 1], h[|h| - 1];
      assert h == init + [last];
      RunLogsEntries(k, path, table, init, intf);
      EventLogsEntry(k, path, table, last, intf);
      LoggedConcat(Effects(path, table, init), EffectsOf(path, table, last), d, b);
    }
  }

  /** The flat script says something of a kind about an interface exactly when an
      event of the run gave it such an entry. */
  lemma InScriptExactly(k: Kind, intf: string, path: string, table: LinkTable, h: seq<Event>)
    requires NameOK(intf) && HistoryOK(table, h)
    ensures InScript(k, intf, Run(Fresh(path), Effects(path, table, h))) != [] <==> AnyEntry(k, table, intf, h)
  {
    var es := Effects(path, table, h);
    HistoryAgrees(k, intf, path, table, h);
    ScriptLines(path, es);
    RunLogsEntries(k, path, table, h, intf);
    hide Effects, Run, Selected, Said, Logged, AnyEntry, HistoryOK, NameOK;
  }
}
