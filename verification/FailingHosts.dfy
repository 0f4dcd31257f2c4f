/** Hosts whose configuration is saved and not read again. */
module FailingHosts {
  import opened Text
  import opened IntfDump
  import opened IntfReplay
  import opened IntfApply
  import opened DumpReplay
  import opened DumpTheorems
  import opened SubInterfaces
  import opened Entries
  import opened SavedReplay
  import opened HostLists
  import opened SavedHosts

  // ----- hosts as the kernel reports them -----

  predicate NeighOK(n: Neigh) { n.ip.Some? ==> TextOK(n.ip.value) }

  predicate IfaceOK(table: LinkTable, i: Iface) {
    && LinkOK(table, i.link)
    && (forall a :: a in i.addrs ==> TextOK(a))
    && (forall n :: n in i.fdbs ==> NeighOK(n)) && (forall n :: n in i.neighs ==> NeighOK(n))
  }

  lemma NeighsOK(table: LinkTable, ns: seq<Neigh>, link: Link)
    requires NameOK(link.name) && forall n :: n in ns ==> NeighOK(n)
    ensures HistoryOK(table, NeighEvents(ns, link))
  {
    hide NameOK, TextOK;
    forall e | e in NeighEvents(ns, link) ensures EventOK(table, e) {
      var j :| 0 <= j < |ns| && e == NeighEvent(ns[j], link);
      assert ns[j] in ns;
    }
  }

  lemma WalkOfOK(pass: Pass, table: LinkTable, i: Iface)
    requires IfaceOK(table, i)
    ensures HistoryOK(table, WalkOf(pass, table, i))
  {
    hide NameOK, TextOK, LinkFails;
    NeighsOK(table, i.fdbs, i.link);
    NeighsOK(table, i.neighs, i.link);
    assert HistoryOK(table, [LinkEvent(i.link)]);
    assert HistoryOK(table, AddrEvents(i));
    hide LinkOK, NeighEvents, AddrEvents;
  }

  lemma {:induction false} WalkOK(pass: Pass, table: LinkTable, ifaces: seq<Iface>)
    requires forall i :: i in ifaces ==> IfaceOK(table, i)
    ensures HistoryOK(table, Walk(pass, table, ifaces))
  {
    hide IfaceOK, EventOK, WalkOf;
    if ifaces != [] {
      assert ifaces[|ifaces| - 1] in ifaces;
      WalkOK(pass, table, ifaces[..|ifaces| - 1]);
      WalkOfOK(pass, table, ifaces[|ifaces| - 1]);
    }
  }

  lemma HostOK(table: LinkTable, ifaces: seq<Iface>)
    requires forall i :: i in ifaces ==> IfaceOK(table, i)
    ensures HistoryOK(table, DumpEvents(table, ifaces, []))
  {
    WalkOK(Bridges, table, ifaces);
    WalkOK(Bonds, table, ifaces);
    WalkOK(Main, table, ifaces);
    hide IfaceOK, EventOK, Walk;
  }

  // ----- entries that are not read again -----

  /** The host has entries of this kind for intf, and the flat script says them,
      but apply of the interface runs none of them. */
  ghost predicate Lost(k: Kind, intf: string, path: string, cpath: string, table: LinkTable, ifaces: seq<Iface>) {
    var h := DumpEvents(table, ifaces, []);
    var files, d := SavedFiles(path, cpath, table, h), Run(Fresh(path), Effects(path, table, h));
    && HistoryOK(table, h) && InScript(k, intf, d) != []
    && Tokened(files, cpath, intf) && Selected(k, intf, PerInterface(files, cpath, intf)) == []
  }

  lemma EntriesLost(k: Kind, intf: string, path: string, cpath: string, table: LinkTable, ifaces: seq<Iface>)
    requires !k.SubIntfs? && NameOK(intf) && forall i :: i in ifaces ==> IfaceOK(table, i)
    requires HostHas(k, table, ifaces, intf) && !ReadAgain(k, table, LinkOrder(ifaces), intf)
    ensures Lost(k, intf, path, cpath, table, ifaces)
  {
    HostOK(table, ifaces);
    EntriesOnce(k, intf, path, cpath, table, ifaces, []);
    InScriptExactly(k, intf, path, table, DumpEvents(table, ifaces, []));
    HostHasExactly(k, table, ifaces, [], intf);
    hide HistoryOK, Tokened, PerInterface, Selected, InScript, SavedFiles, Run, Effects, DumpEvents, HostHas, AnyEntry,
      ReadAgain, LinkOrder, IfaceOK, NameOK;
  }

  function Hw(last: Byte): HwAddr { HwAddr([2, 0, 0, 0, 0, last], []) }

  /** A permanent forwarding entry of VLAN 5. */
  function Fdb(ip: Option<string>): Neigh { Neigh(true, AF_BRIDGE, Hw(9), ip, 5, 0) }

  lemma FdbSaved(table: LinkTable, ip: Option<string>)
    ensures HasMac(Fdb(ip)) && SavedFdb(table, Fdb(ip))
  {
    var all := Hw(9).bytes + Hw(9).behind;
    assert |all| == 6 && all[0] == 2;
  }

  function Bare(link: Link, fdbs: seq<Neigh>): Iface { Iface(link, [], fdbs, []) }

  function SubLink(): Link { Link("eth0.5", Device, 1500, true, 0, Hw(1)) }

  lemma SubOK(table: LinkTable, fdbs: seq<Neigh>)
    requires 0 !in table && forall n :: n in fdbs ==> NeighOK(n)
    ensures IfaceOK(table, Bare(SubLink(), fdbs)) && IfaceOK(table, Bare(Uplink(), fdbs))
  {
  }

  /** One sub-interface with one forwarding entry. */
  lemma SubInterfaceFdbLost(path: string, cpath: string)
    ensures Lost(L2FdbEntries, "eth0.5", path, cpath, map[], [Bare(SubLink(), [Fdb(None)])])
  {
    var table: LinkTable, i := map[], Bare(SubLink(), [Fdb(None)]);
    var ifaces := [i];
    SubOK(table, [Fdb(None)]);
    FdbSaved(table, None);
    assert Fdb(None) in Neighbours(i) && i in ifaces;
    assert Has(L2FdbEntries, table, i, "eth0.5");
    hide IfaceOK, SavedAs, HasMac, SavedFdb, Lost, LinkOrder, TypeAfter;
    assert HousesAt(table, ifaces, 0, "eth0.5");
    LastListedDecides(table, ifaces, "eth0.5", 0);
    hide Has, Houses;
    EntriesLost(L2FdbEntries, "eth0.5", path, cpath, table, ifaces);
  }

  function Lower(): Link { Link("vx1", Vxlan(1, "10.0.0.1", 1), 1500, true, 0, Hw(2)) }

  function Upper(): Link { Link("vx2", Vxlan(2, "10.0.0.1", 2), 1500, true, 0, Hw(3)) }

  function Uplink(): Link { Link("eth0", Device, 1500, true, 0, Hw(4)) }

  function Links(): LinkTable { map[1 := Uplink(), 2 := Lower()] }

  lemma VxlansOK(fdbs: seq<Neigh>)
    requires forall n :: n in fdbs ==> NeighOK(n)
    ensures IfaceOK(Links(), Bare(Lower(), fdbs)) && IfaceOK(Links(), Bare(Upper(), fdbs))
  {
  }

  /** What the upper link makes of the lower one. */
  lemma UpperRetypes()
    ensures Houses(Links(), LinkEvent(Upper()), "vx1")
    ensures TypeFrom(Links(), LinkEvent(Upper()), "vx1") == Some("phy")
    ensures !CreateFails(Links(), Lower()) && !LinkFails(Links(), Lower())
  {
    assert '.' !in "vx1" && '.' !in "vx2";
    assert OnLower(Links(), Upper());
  }

  /** A VxLAN link with one forwarding entry, and another VxLAN link on it. */
  lemma VxlanFdbLost(path: string, cpath: string)
    ensures Lost(VxFdbEntries, "vx1", path, cpath, Links(),
                 [Bare(Lower(), [Fdb(Some("10.0.0.2"))]), Bare(Upper(), [])])
  {
    var fdb := Fdb(Some("10.0.0.2"));
    var i, j := Bare(Lower(), [fdb]), Bare(Upper(), []);
    var ifaces := [i, j];
    VxlansOK([fdb]);
    VxlansOK([]);
    FdbSaved(Links(), Some("10.0.0.2"));
    UpperRetypes();
    hide Links, IfaceOK, SavedFdb, HasMac, Houses, TypeFrom, LinkFails, Lost, LinkOrder, TypeAfter;
    assert SavedAs(VxFdbEntries, Links(), fdb, i.link);
    assert fdb in Neighbours(i) && i in ifaces;
    hide SavedAs;
    assert Has(VxFdbEntries, Links(), i, "vx1");
    assert HousesAt(Links(), ifaces, 1, "vx1");
    LastListedDecides(Links(), ifaces, "vx1", 1);
    hide Has;
    EntriesLost(VxFdbEntries, "vx1", path, cpath, Links(), ifaces);
  }

  // ----- a sub-interface that is lost -----

  lemma SubLinkParent()
    ensures Parent("eth0.5") == "eth0"
  {
    assert "eth0.5" == "eth0" + ['.'] + "5";
    SplitCons("eth0", '.', "5");
  }

  function ChildFirst(): seq<Iface> { [Bare(SubLink(), []), Bare(Uplink(), [])] }

  lemma ChildIsFirst()
    ensures !ListedParentsFirst(map[], ChildFirst(), "eth0")
  {
    SubLinkParent();
    assert TaggedAt(ChildFirst(), 0, "eth0");
    assert !HousesAt(map[], ChildFirst(), 0, "eth0");
    hide HousesAt, TaggedAt;
  }

  /** A sub-interface listed before its parent is in the flat script and is not
      rebuilt. */
  lemma ChildBeforeParentLost(path: string)
    ensures var d := Run(Fresh(path), Effects(path, map[], DumpEvents(map[], ChildFirst(), [])));
      Rebuilt(SubIntfs, path, "eth0", d) != InScript(SubIntfs, "eth0", d)
  {
    var table: LinkTable := map[];
    SubOK(table, []);
    ChildIsFirst();
    HostOK(table, ChildFirst());
    hide Rebuilt, InScript, HistoryOK, DumpEvents, LinkOrder, ParentsFirst, ListedParentsFirst, Run, Effects, ChildFirst,
      IfaceOK;
    ParentsFirstExactly(table, ChildFirst(), "eth0");
    ReadAgainByLinks(SubIntfs, table, ChildFirst(), [], "eth0");
    SubInterfacesReplayExactly("eth0", path, table, DumpEvents(table, ChildFirst(), []));
  }
}
