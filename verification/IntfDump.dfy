/** `save`: the walk over the host's links that writes every address,
    neighbour, forwarding entry and sub-interface twice, as a command line of
    one flat script and as a record of a per-interface file. */
module IntfDump {
  import opened Text
  import opened HwTexts

  // ----- what the kernel reports -----

  datatype LinkKind =
    | Bridge
    | Bond(modeName: string, mode: nat)
    | Vxlan(id: nat, src: string, vtep: int)
    | Device

  /** A hardware address, and the bytes that stand behind it in the message it
      was cut out of: a Go slice reaches into them. */
  datatype HwAddr = HwAddr(bytes: seq<Byte>, behind: seq<Byte>)
  {
    /** What [:6] takes; shorter than six bytes only when the process stops on it. */
    function Front(): (mac: seq<Byte>)
      ensures |mac| <= 6
    {
      var all := bytes + behind;
      if |all| < 6 then all else all[..6]
    }
  }

  datatype Link = Link(name: string, kind: LinkKind, mtu: nat, up: bool, master: int, hw: HwAddr)

  datatype Neigh = Neigh(permanent: bool, family: int, hw: HwAddr, ip: Option<string>, vlan: int, master: int)

  datatype Route = Route(dst: Option<string>, gw: Option<string>, link: int)

  /** What LinkByIndex answers; an index outside the map is its error. */
  type LinkTable = map<int, Link>

  /** One listed link with what AddrList and the two NeighList calls give for it. */
  datatype Iface = Iface(link: Link, addrs: seq<string>, fdbs: seq<Neigh>, neighs: seq<Neigh>)

  const AF_INET := 2
  const AF_BRIDGE := 7

  // ----- the texts written -----

  /** net.IP.String; an absent address prints as <nil>. */
  function IpText(ip: Option<string>): string {
    match ip case Some(text) => text case None => "<nil>"
  }

  function Parent(name: string): string { Split(name, '.')[0] }

  function VlanId(name: string): string
    requires '.' in name
  {
    DottedHasTwoParts(name);
    Split(name, '.')[1]
  }

  lemma DottedHasTwoParts(name: string)
    requires '.' in name
    ensures |Split(name, '.')| >= 2
  {
    JoinSplit(name, '.');
  }

  function VlanLine(name: string): string
    requires '.' in name
  {
    "ip link add " + name + " link " + Parent(name) + " type vlan id " + VlanId(name)
  }

  function UpLine(name: string): string { "ip link set " + name + " up" }

  function MtuLine(name: string, mtu: nat): string { "ip link set " + name + " mtu " + Dec(mtu) }

  function DstText(route: Route): string {
    match route.dst case Some(text) => text case None => "0.0.0.0/0"
  }

  // ----- effects and the state they build -----

  /** The files of an interface directory. */
  datatype File =
    | TypeFile | RealFile | InfoFile | MasterFile | MtuFile | ModeFile | MembersFile | SubIntfFile
    | Ipv4Addr | Ipv4Neigh | Ipv4Route | VxFdbs | L2Fdbs

  function FileName(base: File): string {
    match base
    case TypeFile => "type"
    case RealFile => "real"
    case InfoFile => "info"
    case MasterFile => "master"
    case MtuFile => "mtu"
    case ModeFile => "mode"
    case MembersFile => "members"
    case SubIntfFile => "subintf"
    case Ipv4Addr => "ipv4addr"
    case Ipv4Neigh => "ipv4neigh"
    case Ipv4Route => "ipv4route"
    case VxFdbs => "vxfdbs"
    case L2Fdbs => "l2fdbs"
  }

  datatype Effect =
    | Say(line: string)                              // one line of the flat script
    | Mkdir(dir: string)                             // an interface directory
    | Put(dir: string, base: File, text: string)   // a file written afresh
    | Log(dir: string, base: File, line: string)   // a line behind a file

  datatype Dump = Dump(script: string, files: map<string, string>, dirs: set<string>)

  function Fresh(path: string): Dump { Dump("", map[], {path}) }

  function PathOf(dir: string, base: File): string { dir + "/" + FileName(base) }

  function TextAt(files: map<string, string>, f: string): string {
    if f in files then files[f] else ""
  }

  /** A file opens only when its directory exists; otherwise nothing is written. */
  function Apply(d: Dump, e: Effect): Dump {
    match e
    case Say(line) => d.(script := d.script + line + "\n")
    case Mkdir(dir) => d.(dirs := d.dirs + {dir})
    case Put(dir, base, text) =>
      if dir !in d.dirs then d else d.(files := d.files[PathOf(dir, base) := text])
    case Log(dir, base, line) =>
      if dir !in d.dirs then d
      else
        var f := PathOf(dir, base);
        d.(files := d.files[f := TextAt(d.files, f) + line + "\n"])
  }

  function Run(d: Dump, es: seq<Effect>): Dump {
    if es == [] then d else Apply(Run(d, es[..|es| - 1]), es[|es| - 1])
  }

  lemma RunSnoc(d: Dump, es: seq<Effect>, e: Effect)
    ensures Run(d, es + [e]) == Apply(Run(d, es), e)
  {
    assert (es + [e])[..|es|] == es;
  }

  // ----- what each Add function does -----

  function UpIf(up: bool, name: string): seq<Effect> {
    if up then [Say(UpLine(name))] else []
  }

  function MtuEffects(dir: string, link: Link): seq<Effect> {
    if link.mtu == 1500 then []
    else [Say(MtuLine(link.name, link.mtu)), Put(dir, MtuFile, Dec(link.mtu))]
  }

  function BridgeEffects(path: string, link: Link): seq<Effect> {
    var dir := path + link.name;
    [Say("ip link add " + link.name + " type bridge")] + UpIf(link.up, link.name)
    + [Mkdir(dir), Put(dir, TypeFile, "bridge")]
  }

  function TaggedEffects(path: string, link: Link): seq<Effect>
    requires '.' in link.name
  {
    var dir, lower, vid := path + link.name, Parent(link.name), VlanId(link.name);
    [Say(VlanLine(link.name))] + UpIf(link.up, lower)
    + [Mkdir(dir), Put(dir, TypeFile, "subintf"), Put(dir, RealFile, lower + " type vlan id " + vid),
       Log(path + lower, SubIntfFile, link.name + "|" + lower + "|" + vid)]
  }

  function VxlanLine(link: Link, lower: Link): string
    requires link.kind.Vxlan?
  {
    "ip link add " + link.name + " type vxlan id " + Dec(link.kind.id) + " local " + link.kind.src
    + " dev " + lower.name + " dstport 4789"
  }

  function VxlanEffects(path: string, link: Link, lower: Link): seq<Effect>
    requires link.kind.Vxlan?
  {
    var dir := path + link.name;
    [Say(VxlanLine(link, lower)), Say(UpLine(link.name)), Mkdir(dir), Put(dir, TypeFile, "vxlan"),
     Put(dir, InfoFile, Dec(link.kind.id) + "|" + link.kind.src + "|" + lower.name)]
    + LowerEffects(path, link, lower)
  }

  function LowerEffects(path: string, link: Link, lower: Link): seq<Effect> {
    var dir := path + lower.name;
    [Mkdir(dir), Put(dir, TypeFile, if lower.kind.Bridge? then "bridge" else "phy"),
     Put(dir, MasterFile, link.name + "|vxlan")]
  }

  function BondEffects(path: string, link: Link): seq<Effect>
    requires link.kind.Bond?
  {
    var dir := path + link.name;
    [Say("ip link add " + link.name + " type bond"),
     Say("ip link set " + link.name + " type bond mode " + link.kind.modeName),
     Mkdir(dir), Put(dir, TypeFile, "bond"), Put(dir, ModeFile, Dec(link.kind.mode))]
    + MtuEffects(dir, link)
  }

  function DeviceEffects(path: string, link: Link): seq<Effect> {
    var dir := path + link.name;
    [Mkdir(dir), Put(dir, TypeFile, "phy")] + MtuEffects(dir, link)
  }

  function EnslaveEffects(path: string, link: Link, master: Link): seq<Effect> {
    var dir := path + link.name;
    match master.kind
    case Bridge =>
      [Put(dir, MasterFile, master.name + "|bridge"), Log(path + master.name, MembersFile, link.name)]
    case Bond(_, _) =>
      [Put(dir, MasterFile, master.name + "|bond"), Log(path + master.name, MembersFile, link.name),
       Say("ip link set " + link.name + " down")]
    case _ => []
  }

  function MasterEffects(path: string, table: LinkTable, link: Link): seq<Effect> {
    if link.master <= 0 || link.master !in table then []
    else
      var master := table[link.master];
      EnslaveEffects(path, link, master)
      + [Say("ip link set " + link.name + " master " + master.name), Say(UpLine(link.name))]
  }

  /** A VxLAN link whose lower device cannot be looked up is given up at once. */
  predicate CreateFails(table: LinkTable, link: Link) {
    '.' !in link.name && link.kind.Vxlan? && link.kind.vtep !in table
  }

  function CreateEffects(path: string, table: LinkTable, link: Link): seq<Effect>
    requires !link.kind.Bridge? && !CreateFails(table, link)
  {
    if '.' in link.name then TaggedEffects(path, link)
    else match link.kind
      case Vxlan(_, _, vtep) => VxlanEffects(path, link, table[vtep])
      case Bond(_, _) => BondEffects(path, link)
      case _ => DeviceEffects(path, link)
  }

  function LinkEffects(path: string, table: LinkTable, link: Link): seq<Effect> {
    if link.kind.Bridge? then BridgeEffects(path, link)
    else if CreateFails(table, link) then []
    else CreateEffects(path, table, link) + UpIf(link.up, link.name) + MasterEffects(path, table, link)
  }

  predicate LinkFails(table: LinkTable, link: Link) {
    !link.kind.Bridge? && (CreateFails(table, link) || (link.master > 0 && link.master !in table))
  }

  function AddrEffects(path: string, ip: string, name: string): seq<Effect> {
    [Say("ip addr add " + ip + " dev " + name), Log(path + name, Ipv4Addr, ip)]
  }

  /** A neighbour that AddNeigh looks at, and whose address it can slice. */
  predicate HasMac(n: Neigh) { n.permanent && n.hw.bytes != [] && |n.hw.Front()| == 6 }

  /** What AddNeigh slices out of a hardware address; the process stops when
      there is less. */
  predicate Sliceable(table: LinkTable, n: Neigh) {
    n.permanent && n.hw.bytes != [] ==>
      && |n.hw.Front()| == 6
      && (n.family == AF_BRIDGE && n.vlan != 1 && n.hw.Front()[0] % 2 != 1 && n.master > 0 && n.master in table ==>
            |table[n.master].hw.Front()| == 6)
  }

  /** Forwarding entries of the default VLAN, of a group address or of the
      bridge's own address are not saved. */
  predicate SavedFdb(table: LinkTable, n: Neigh)
    requires HasMac(n)
  {
    n.vlan != 1 && n.hw.Front()[0] % 2 != 1
    && (n.master > 0 ==> n.master in table && n.hw.Front() != table[n.master].hw.Front())
  }

  function NeighEffects(path: string, table: LinkTable, n: Neigh, link: Link): seq<Effect>
  {
    var dir := path + link.name;
    if !HasMac(n) then []
    else
      var mac := HwText(n.hw.Front());
      if n.family == AF_INET then
        [Say("ip neigh add " + IpText(n.ip) + " lladdr " + mac + " dev " + link.name + " permanent"),
         Log(dir, Ipv4Neigh, IpText(n.ip) + " lladdr " + mac)]
      else if n.family != AF_BRIDGE || !SavedFdb(table, n) then []
      else if link.kind.Vxlan? then
        if n.ip.None? then []
        else
          [Say("bridge fdb append " + mac + " dst " + n.ip.value + " dev " + link.name + " permanent"),
           Log(dir, VxFdbs, mac + " dst " + n.ip.value)]
      else
        [Say("bridge fdb add " + mac + " dev " + link.name + " permanent"), Log(dir, L2Fdbs, mac)]
  }

  // ----- what is saved of a neighbour -----

  /** The six bytes AddNeigh takes. */
  function Six(hw: HwAddr): seq<Byte>
    requires |hw.bytes + hw.behind| >= 6
  {
    (hw.bytes + hw.behind)[..6]
  }

  /** Nothing is saved of what is not permanent or has no address; of the bridge
      family, nothing of the default VLAN, of a group address, of the master's own
      address, under a master that is gone, or of a VxLAN link without an IP. */
  predicate PassedOver(table: LinkTable, n: Neigh, link: Link)
    requires Sliceable(table, n)
  {
    || !n.permanent || n.hw.bytes == [] || n.family !in {AF_INET, AF_BRIDGE}
    || (n.family == AF_BRIDGE &&
        (|| n.vlan == 1 || Six(n.hw)[0] % 2 == 1
         || (n.master > 0 && (n.master !in table || Six(n.hw) == Six(table[n.master].hw)))
         || (link.kind.Vxlan? && n.ip.None?)))
  }

  /** The 17 characters from a position. */
  function Cut17(text: string, from: int): string {
    if 0 <= from && from + 17 <= |text| then text[from..from + 17] else ""
  }

  /** Where the address stands in the line, from its end or from its start. */
  function MacInLine(n: Neigh, link: Link, line: string): string {
    if n.family == AF_INET then Cut17(line, |line| - |" dev " + link.name + " permanent"| - 17)
    else if link.kind.Vxlan? then Cut17(line, |"bridge fdb append "|)
    else Cut17(line, |"bridge fdb add "|)
  }

  function MacInRecord(n: Neigh, record: string): string {
    Cut17(record, if n.family == AF_INET then |record| - 17 else 0)
  }

  /** A line and a record; the address read back from either is the six bytes. */
  predicate SavedTwice(path: string, n: Neigh, link: Link, es: seq<Effect>)
    requires |n.hw.bytes + n.hw.behind| >= 6
  {
    && |es| == 2 && es[0].Say? && es[1].Log?
    && es[1].dir == path + link.name
    && es[1].base == (if n.family == AF_INET then Ipv4Neigh else if link.kind.Vxlan? then VxFdbs else L2Fdbs)
    && ReadHw(MacInLine(n, link, es[0].line)) == Some(Six(n.hw))
    && ReadHw(MacInRecord(n, es[1].line)) == Some(Six(n.hw))
  }

  lemma NeighSaved(path: string, table: LinkTable, n: Neigh, link: Link)
    requires Sliceable(table, n)
    ensures var es := NeighEffects(path, table, n, link);
      if PassedOver(table, n, link) then es == [] else SavedTwice(path, n, link, es)
  {
    if !PassedOver(table, n, link) {
      var mac := HwText(Six(n.hw));
      assert Six(n.hw) == n.hw.Front();
      ReadHwText(Six(n.hw));
      HwTextAt(Six(n.hw), 0);
      hide HwText, ReadHw;
      assert |mac| == 17;
      MacStands(n, link, mac);
    }
  }

  lemma MacStands(n: Neigh, link: Link, mac: string)
    requires |mac| == 17
    ensures n.family == AF_INET ==>
      && MacInLine(n, link, "ip neigh add " + IpText(n.ip) + " lladdr " + mac + " dev " + link.name + " permanent") == mac
      && MacInRecord(n, IpText(n.ip) + " lladdr " + mac) == mac
    ensures n.family != AF_INET && link.kind.Vxlan? && n.ip.Some? ==>
      && MacInLine(n, link, "bridge fdb append " + mac + " dst " + n.ip.value + " dev " + link.name + " permanent") == mac
      && MacInRecord(n, mac + " dst " + n.ip.value) == mac
    ensures n.family != AF_INET && !link.kind.Vxlan? ==>
      && MacInLine(n, link, "bridge fdb add " + mac + " dev " + link.name + " permanent") == mac
      && MacInRecord(n, mac) == mac
  {
    hide IpText;
    var tail := " dev " + link.name + " permanent";
    if n.family == AF_INET {
      var head := "ip neigh add " + IpText(n.ip) + " lladdr ";
      assert head + mac + " dev " + link.name + " permanent" == head + mac + tail;
      Cut17At(head, mac, tail);
      Cut17At(IpText(n.ip) + " lladdr ", mac, "");
      assert IpText(n.ip) + " lladdr " + mac + "" == IpText(n.ip) + " lladdr " + mac;
    } else if link.kind.Vxlan? {
      if n.ip.Some? {
        var rest := " dst " + n.ip.value + tail;
        assert "bridge fdb append " + mac + " dst " + n.ip.value + " dev " + link.name + " permanent"
          == "bridge fdb append " + mac + rest;
        Cut17At("bridge fdb append ", mac, rest);
        Cut17At("", mac, " dst " + n.ip.value);
        assert "" + mac + (" dst " + n.ip.value) == mac + " dst " + n.ip.value;
      }
    } else {
      assert "bridge fdb add " + mac + " dev " + link.name + " permanent" == "bridge fdb add " + mac + tail;
      Cut17At("bridge fdb add ", mac, tail);
    }
  }

  lemma Cut17At(head: string, mac: string, tail: string)
    requires |mac| == 17
    ensures Cut17(head + mac + tail, |head|) == mac
  {
  }

  function RouteEffects(path: string, table: LinkTable, r: Route): seq<Effect> {
    if r.link !in table then []
    else
      [Say("ip route add " + DstText(r) + " via " + IpText(r.gw) + " proto static"),
       Log(path + table[r.link].name, Ipv4Route, DstText(r) + " via " + IpText(r.gw))]
  }

  // ----- a run of the Add functions -----

  datatype Event =
    | LinkEvent(link: Link)
    | AddrEvent(ip: string, name: string)
    | NeighEvent(neigh: Neigh, link: Link)
    | RouteEvent(route: Route)

  function EffectsOf(path: string, table: LinkTable, e: Event): seq<Effect>
  {
    match e
    case LinkEvent(link) => LinkEffects(path, table, link)
    case AddrEvent(ip, name) => AddrEffects(path, ip, name)
    case NeighEvent(n, link) => NeighEffects(path, table, n, link)
    case RouteEvent(r) => RouteEffects(path, table, r)
  }

  function Effects(path: string, table: LinkTable, h: seq<Event>): seq<Effect>
  {
    if h == [] then []
    else Effects(path, table, h[..|h| - 1]) + EffectsOf(path, table, h[|h| - 1])
  }

  lemma EffectsNone(path: string, table: LinkTable, was: seq<Effect>)
    ensures was + Effects(path, table, []) == was
  {
  }

  lemma EffectsSnoc(path: string, table: LinkTable, h: seq<Event>, e: Event)
    ensures Effects(path, table, h + [e]) == Effects(path, table, h) + EffectsOf(path, table, e)
  {
    assert (h + [e])[..|h|] == h;
  }

  lemma LinkStep(path: string, table: LinkTable, h: seq<Event>, link: Link)
    ensures Effects(path, table, h + [LinkEvent(link)]) == Effects(path, table, h) + LinkEffects(path, table, link)
  {
    hide LinkEffects;
    EffectsSnoc(path, table, h, LinkEvent(link));
  }

  lemma AddedOne(path: string, table: LinkTable, link: Link)
    ensures Effects(path, table, [LinkEvent(link)]) == LinkEffects(path, table, link)
  {
    hide LinkEffects;
    LinkStep(path, table, [], link);
    assert [] + [LinkEvent(link)] == [LinkEvent(link)];
  }

  lemma AddrStep(path: string, table: LinkTable, h: seq<Event>, ip: string, name: string)
    ensures Effects(path, table, h + [AddrEvent(ip, name)]) == Effects(path, table, h) + AddrEffects(path, ip, name)
  {
    hide AddrEffects;
    EffectsSnoc(path, table, h, AddrEvent(ip, name));
  }

  lemma NeighStep(path: string, table: LinkTable, h: seq<Event>, n: Neigh, link: Link)
    ensures Effects(path, table, h + [NeighEvent(n, link)])
         == Effects(path, table, h) + NeighEffects(path, table, n, link)
  {
    hide NeighEffects;
    EffectsSnoc(path, table, h, NeighEvent(n, link));
  }

  lemma RouteStep(path: string, table: LinkTable, h: seq<Event>, r: Route)
    ensures Effects(path, table, h + [RouteEvent(r)]) == Effects(path, table, h) + RouteEffects(path, table, r)
  {
    hide RouteEffects;
    EffectsSnoc(path, table, h, RouteEvent(r));
  }

  lemma {:induction false} EffectsConcat(path: string, table: LinkTable, a: seq<Event>, b: seq<Event>)
    ensures Effects(path, table, a + b) == Effects(path, table, a) + Effects(path, table, b)
  {
    if b == [] {
      assert a + b == a;
    } else {
      var c, last := b[..|b| - 1], b[|b| - 1];
      assert (a + b)[..|a + b| - 1] == a + c && (a + b)[|a + b| - 1] == last;
      EffectsConcat(path, table, a, c);
      ConcatAssociative(Effects(path, table, a), Effects(path, table, c), EffectsOf(path, table, last));
    }
  }

  lemma EffectsGrow(path: string, table: LinkTable, was: seq<Effect>, a: seq<Event>, b: seq<Event>)
    ensures was + Effects(path, table, a) + Effects(path, table, b) == was + Effects(path, table, a + b)
  {
    hide Effects;
    EffectsConcat(path, table, a, b);
    ConcatAssociative(was, Effects(path, table, a), Effects(path, table, b));
  }

  // ----- the order of the walk -----

  function AddrEvents(i: Iface): seq<Event> {
    seq(|i.addrs|, j requires 0 <= j < |i.addrs| => AddrEvent(i.addrs[j], i.link.name))
  }

  function NeighEvents(ns: seq<Neigh>, link: Link): seq<Event> {
    seq(|ns|, j requires 0 <= j < |ns| => NeighEvent(ns[j], link))
  }

  function BridgeWalk(i: Iface): seq<Event> {
    if i.link.kind.Bridge? then [LinkEvent(i.link)] + AddrEvents(i) else []
  }

  function BondWalk(i: Iface): seq<Event> {
    if i.link.kind.Bond? then [LinkEvent(i.link)] + AddrEvents(i) else []
  }

  function MainWalk(table: LinkTable, i: Iface): seq<Event> {
    if i.link.kind.Bridge? then NeighEvents(i.neighs, i.link)
    else if i.link.kind.Bond? then NeighEvents(i.fdbs, i.link) + NeighEvents(i.neighs, i.link)
    else if LinkFails(table, i.link) then [LinkEvent(i.link)]
    else [LinkEvent(i.link)] + AddrEvents(i) + NeighEvents(i.fdbs, i.link) + NeighEvents(i.neighs, i.link)
  }

  datatype Pass = Bridges | Bonds | Main

  function WalkOf(pass: Pass, table: LinkTable, i: Iface): seq<Event> {
    match pass
    case Bridges => BridgeWalk(i)
    case Bonds => BondWalk(i)
    case Main => MainWalk(table, i)
  }

  function Walk(pass: Pass, table: LinkTable, ifaces: seq<Iface>): seq<Event> {
    if ifaces == [] then []
    else Walk(pass, table, ifaces[..|ifaces| - 1]) + WalkOf(pass, table, ifaces[|ifaces| - 1])
  }

  function RouteEvents(routes: seq<Route>): seq<Event> {
    seq(|routes|, j requires 0 <= j < |routes| => RouteEvent(routes[j]))
  }

  /** Bridges first, then bonds, then everything, then the static routes. */
  function DumpEvents(table: LinkTable, ifaces: seq<Iface>, routes: seq<Route>): seq<Event> {
    Walk(Bridges, table, ifaces) + Walk(Bonds, table, ifaces) + Walk(Main, table, ifaces) + RouteEvents(routes)
  }

  /** The link's neighbours are listed: it is not one that could not be added. */
  predicate Listed(table: LinkTable, link: Link) {
    link.kind.Bridge? || link.kind.Bond? || !LinkFails(table, link)
  }

  predicate SoundIfaces(table: LinkTable, ifaces: seq<Iface>) {
    forall i :: i in ifaces && Listed(table, i.link) ==>
      && (!i.link.kind.Bridge? ==> forall n :: n in i.fdbs ==> Sliceable(table, n))
      && (forall n :: n in i.neighs ==> Sliceable(table, n))
  }

  // ----- the configuration directory -----

  /** The shell's * passes over what starts with a dot. */
  predicate Globbed(path: string, f: string) {
    path <= f && (f[|path|..] != "" ==> f[|path|] != '.')
  }

  /** cp -R of everything the glob names into cpath. */
  function CopyOf(files: map<string, string>, path: string, cpath: string): map<string, string> {
    map g | g in CopiedFiles(files, path, cpath) :: TextAt(files, path + g[|cpath| + 1..])
  }

  function CopiedFiles(files: map<string, string>, path: string, cpath: string): set<string> {
    set f | f in files && Globbed(path, f) :: cpath + "/" + f[|path|..]
  }

  predicate Hidden(name: string) { name != "" && name[0] == '.' }

  /** What the copy holds of an interface: its files, unless its name starts with a dot. */
  lemma CopyAt(files: map<string, string>, path: string, cpath: string, intf: string, base: File)
    ensures var f, g := PathOf(path + intf, base), PathOf(cpath + "/" + intf, base);
      && (g in CopyOf(files, path, cpath) <==> f in files && !Hidden(intf))
      && (g in CopyOf(files, path, cpath) ==> CopyOf(files, path, cpath)[g] == files[f])
  {
    hide FileName;
    var rest, f, g := intf + "/" + FileName(base), PathOf(path + intf, base), PathOf(cpath + "/" + intf, base);
    assert f == path + rest && g == cpath + "/" + rest;
    assert intf != "" ==> rest[0] == intf[0];
    assert f[|path|..] == rest && g[|cpath| + 1..] == rest;
    forall f2 | f2 in files && Globbed(path, f2) && cpath + "/" + f2[|path|..] == g ensures f2 == f {
      assert f2[|path|..] == (cpath + "/" + f2[|path|..])[|cpath| + 1..];
      assert f2 == path + f2[|path|..];
    }
  }

  lemma WalkSnoc(path: string, pass: Pass, table: LinkTable, ifaces: seq<Iface>, j: nat)
    requires j < |ifaces|
    ensures Effects(path, table, Walk(pass, table, ifaces[..j + 1]))
         == Effects(path, table, Walk(pass, table, ifaces[..j])) + Effects(path, table, WalkOf(pass, table, ifaces[j]))
  {
    var now := ifaces[..j + 1];
    assert now[..j] == ifaces[..j];
    EffectsConcat(path, table, Walk(pass, table, ifaces[..j]), WalkOf(pass, table, ifaces[j]));
  }

  /** The package globals of the dump: the script file, the directory of the
      per-interface files, and everything written to them since the start. */
  class Dumper {
    const path: string
    const table: LinkTable
    const scriptName: string
    var temp: map<string, string>      // the files beside the directory, the script among them
    var files: map<string, string>
    var dirs: set<string>
    var config: map<string, string>    // the files of the configuration directory
    ghost var trace: seq<Effect>

    ghost predicate Valid()
      reads this
    {
      scriptName in temp && Dump(temp[scriptName], files, dirs) == Run(Fresh(path), trace)
    }

    /** The script is created empty, and the directory with it. */
    constructor (path: string, scriptName: string, table: LinkTable)
      ensures Valid() && trace == []
      ensures this.path == path && this.scriptName == scriptName && this.table == table
    {
      this.path, this.scriptName, this.table := path, scriptName, table;
      temp, files, dirs, config, trace := map[scriptName := ""], map[], {path}, map[], [];
    }

    method Emit(line: string)
      requires Valid()
      modifies this
      ensures Valid() && trace == old(trace) + [Say(line)]
    {
      hide Run;
      RunSnoc(Fresh(path), trace, Say(line));
      temp := temp[scriptName := temp[scriptName] + line + "\n"];
      trace := trace + [Say(line)];
    }

    method CreateDir(dir: string)
      requires Valid()
      modifies this
      ensures Valid() && trace == old(trace) + [Mkdir(dir)]
    {
      hide Run;
      RunSnoc(Fresh(path), trace, Mkdir(dir));
      dirs := dirs + {dir};
      trace := trace + [Mkdir(dir)];
    }

    method WriteFile(dir: string, base: File, text: string)
      requires Valid()
      modifies this
      ensures Valid() && trace == old(trace) + [Put(dir, base, text)]
    {
      hide Run;
      RunSnoc(Fresh(path), trace, Put(dir, base, text));
      if dir in dirs {
        files := files[PathOf(dir, base) := text];
      }
      trace := trace + [Put(dir, base, text)];
    }

    method AppendFile(dir: string, base: File, line: string)
      requires Valid()
      modifies this
      ensures Valid() && trace == old(trace) + [Log(dir, base, line)]
    {
      hide Run;
      RunSnoc(Fresh(path), trace, Log(dir, base, line));
      if dir in dirs {
        var f := PathOf(dir, base);
        files := files[f := TextAt(files, f) + line + "\n"];
      }
      trace := trace + [Log(dir, base, line)];
    }

    method EmitUpIf(up: bool, name: string)
      requires Valid()
      modifies this
      ensures Valid() && trace == old(trace) + UpIf(up, name)
    {
      hide Run;
      if up {
        Emit(UpLine(name));
      }
    }

    method AddMtu(dir: string, link: Link)
      requires Valid()
      modifies this
      ensures Valid() && trace == old(trace) + MtuEffects(dir, link)
    {
      hide Run;
      if link.mtu != 1500 {
        Emit(MtuLine(link.name, link.mtu));
        WriteFile(dir, MtuFile, Dec(link.mtu));
      }
    }

    method Enslave(link: Link, master: Link)
      requires Valid()
      modifies this
      ensures Valid() && trace == old(trace) + EnslaveEffects(path, link, master)
    {
      hide Run, Valid;
      var dir := path + link.name;
      if master.kind.Bridge? {
        WriteFile(dir, MasterFile, master.name + "|bridge");
        AppendFile(path + master.name, MembersFile, link.name);
      } else if master.kind.Bond? {
        WriteFile(dir, MasterFile, master.name + "|bond");
        AppendFile(path + master.name, MembersFile, link.name);
        Emit("ip link set " + link.name + " down");
      }
    }

    method AddMaster(link: Link) returns (ret: int)
      requires Valid()
      modifies this
      ensures Valid() && trace == old(trace) + MasterEffects(path, table, link)
      ensures ret == if link.master > 0 && link.master !in table then -1 else 0
    {
      hide Run;
      ret := 0;
      if link.master > 0 {
        if link.master !in table {
          return -1;
        }
        var master := table[link.master];
        Enslave(link, master);
        Emit("ip link set " + link.name + " master " + master.name);
        Emit(UpLine(link.name));
      }
    }

    method AddTagged(link: Link)
      requires Valid() && '.' in link.name
      modifies this
      ensures Valid() && trace == old(trace) + TaggedEffects(path, link)
    {
      hide Run, Valid;
      var dir, lower, vid := path + link.name, Parent(link.name), VlanId(link.name);
      Emit(VlanLine(link.name));
      EmitUpIf(link.up, lower);
      CreateDir(dir);
      WriteFile(dir, TypeFile, "subintf");
      WriteFile(dir, RealFile, lower + " type vlan id " + vid);
      AppendFile(path + lower, SubIntfFile, link.name + "|" + lower + "|" + vid);
    }

    method AddVxlan(link: Link, lower: Link)
      requires Valid() && link.kind.Vxlan?
      modifies this
      ensures Valid() && trace == old(trace) + VxlanEffects(path, link, lower)
    {
      hide Run, Valid;
      var dir := path + link.name;
      Emit(VxlanLine(link, lower));
      Emit(UpLine(link.name));
      CreateDir(dir);
      WriteFile(dir, TypeFile, "vxlan");
      WriteFile(dir, InfoFile, Dec(link.kind.id) + "|" + link.kind.src + "|" + lower.name);
      AddLower(link, lower);
    }

    method AddLower(link: Link, lower: Link)
      requires Valid()
      modifies this
      ensures Valid() && trace == old(trace) + LowerEffects(path, link, lower)
    {
      hide Run, Valid;
      var dir := path + lower.name;
      CreateDir(dir);
      WriteFile(dir, TypeFile, if lower.kind.Bridge? then "bridge" else "phy");
      WriteFile(dir, MasterFile, link.name + "|vxlan");
    }

    method AddBond(link: Link)
      requires Valid() && link.kind.Bond?
      modifies this
      ensures Valid() && trace == old(trace) + BondEffects(path, link)
    {
      hide Run, Valid;
      var dir := path + link.name;
      Emit("ip link add " + link.name + " type bond");
      Emit("ip link set " + link.name + " type bond mode " + link.kind.modeName);
      CreateDir(dir);
      WriteFile(dir, TypeFile, "bond");
      WriteFile(dir, ModeFile, Dec(link.kind.mode));
      AddMtu(dir, link);
    }

    method AddDevice(link: Link)
      requires Valid()
      modifies this
      ensures Valid() && trace == old(trace) + DeviceEffects(path, link)
    {
      hide Run, Valid;
      var dir := path + link.name;
      CreateDir(dir);
      WriteFile(dir, TypeFile, "phy");
      AddMtu(dir, link);
    }

    method AddBridge(link: Link)
      requires Valid()
      modifies this
      ensures Valid() && trace == old(trace) + BridgeEffects(path, link)
    {
      hide Run, Valid;
      Emit("ip link add " + link.name + " type bridge");
      EmitUpIf(link.up, link.name);
      CreateDir(path + link.name);
      WriteFile(path + link.name, TypeFile, "bridge");
    }

    method AddLink(link: Link) returns (ret: int)
      requires Valid()
      modifies this
      ensures Valid() && trace == old(trace) + LinkEffects(path, table, link)
      ensures ret == if LinkFails(table, link) then -1 else 0
    {
      hide Run;
      if link.kind.Bridge? {
        AddBridge(link);
        return 0;
      }
      if '.' in link.name {
        AddTagged(link);
      } else if link.kind.Vxlan? {
        if link.kind.vtep !in table {
          return -1;
        }
        AddVxlan(link, table[link.kind.vtep]);
      } else if link.kind.Bond? {
        AddBond(link);
      } else {
        AddDevice(link);
      }
      ghost var made := CreateEffects(path, table, link);
      assert trace == old(trace) + made;
      EmitUpIf(link.up, link.name);
      ret := AddMaster(link);
      ConcatAssociative(old(trace), made, UpIf(link.up, link.name));
      ConcatAssociative(old(trace), made + UpIf(link.up, link.name), MasterEffects(path, table, link));
    }

    method AddAddr(ip: string, name: string)
      requires Valid()
      modifies this
      ensures Valid() && trace == old(trace) + AddrEffects(path, ip, name)
    {
      hide Run;
      Emit("ip addr add " + ip + " dev " + name);
      AppendFile(path + name, Ipv4Addr, ip);
    }

    method AddNeigh(n: Neigh, link: Link)
      requires Valid() && Sliceable(table, n)
      modifies this
      ensures Valid() && trace == old(trace) + NeighEffects(path, table, n, link)
      ensures if PassedOver(table, n, link) then trace == old(trace)
              else SavedTwice(path, n, link, trace[|old(trace)|..])
    {
      hide Run;
      NeighSaved(path, table, n, link);
      hide PassedOver, SavedTwice, HwText, IpText, Valid;
      if !n.permanent || n.hw.bytes == [] {
        return;
      }
      var mac := (n.hw.bytes + n.hw.behind)[..6];
      var dir := path + link.name;
      if n.family == AF_INET {
        Emit("ip neigh add " + IpText(n.ip) + " lladdr " + HwText(mac) + " dev " + link.name + " permanent");
        AppendFile(dir, Ipv4Neigh, IpText(n.ip) + " lladdr " + HwText(mac));
      } else if n.family == AF_BRIDGE {
        if n.vlan == 1 || mac[0] % 2 == 1 {
          return;
        }
        if n.master > 0 {
          if n.master !in table {
            return;
          }
          var master := table[n.master].hw;
          if mac == (master.bytes + master.behind)[..6] {
            return;
          }
        }
        if link.kind.Vxlan? {
          if n.ip.None? {
            return;
          }
          Emit("bridge fdb append " + HwText(mac) + " dst " + n.ip.value + " dev " + link.name + " permanent");
          AppendFile(dir, VxFdbs, HwText(mac) + " dst " + n.ip.value);
        } else {
          Emit("bridge fdb add " + HwText(mac) + " dev " + link.name + " permanent");
          AppendFile(dir, L2Fdbs, HwText(mac));
        }
      }
    }

    method AddRoute(r: Route)
      requires Valid()
      modifies this
      ensures Valid() && trace == old(trace) + RouteEffects(path, table, r)
    {
      hide Run;
      if r.link in table {
        Emit("ip route add " + DstText(r) + " via " + IpText(r.gw) + " proto static");
        AppendFile(path + table[r.link].name, Ipv4Route, DstText(r) + " via " + IpText(r.gw));
      }
    }

    method GetIpAddrs(i: Iface)
      requires Valid()
      modifies this
      ensures Valid() && trace == old(trace) + Effects(path, table, AddrEvents(i))
    {
      hide Run, Effects, LinkEffects, AddrEffects, NeighEffects, RouteEffects;
      ghost var events, done := AddrEvents(i), [];
      EffectsNone(path, table, trace);
      for j := 0 to |i.addrs|
        invariant done == events[..j]
        invariant Valid() && trace == old(trace) + Effects(path, table, done)
      {
        AddAddr(i.addrs[j], i.link.name);
        AddrStep(path, table, done, i.addrs[j], i.link.name);
        done := done + [events[j]];
      }
      assert done == events;
    }

    /** GetIpNeigh and GetFdbs: the same loop over the two kinds of listing. */
    method GetNeighs(ns: seq<Neigh>, link: Link)
      requires Valid() && forall n :: n in ns ==> Sliceable(table, n)
      modifies this
      ensures Valid() && trace == old(trace) + Effects(path, table, NeighEvents(ns, link))
    {
      hide Run, Effects, LinkEffects, AddrEffects, NeighEffects, RouteEffects;
      ghost var events, done := NeighEvents(ns, link), [];
      EffectsNone(path, table, trace);
      for j := 0 to |ns|
        invariant done == events[..j]
        invariant Valid() && trace == old(trace) + Effects(path, table, done)
      {
        AddNeigh(ns[j], link);
        NeighStep(path, table, done, ns[j], link);
        done := done + [events[j]];
      }
      assert done == events;
    }

    method AddLinkAndAddrs(i: Iface)
      requires Valid()
      modifies this
      ensures Valid() && trace == old(trace) + Effects(path, table, [LinkEvent(i.link)] + AddrEvents(i))
    {
      hide Run, Effects, LinkEffects, AddrEffects, NeighEffects, RouteEffects;
      var _ := AddLink(i.link);
      AddedOne(path, table, i.link);
      GetIpAddrs(i);
      EffectsConcat(path, table, [LinkEvent(i.link)], AddrEvents(i));
    }

    method GetBridges(ifaces: seq<Iface>)
      requires Valid() && SoundIfaces(table, ifaces)
      modifies this
      ensures Valid()
      ensures trace == old(trace) + Effects(path, table, Walk(Bridges, table, ifaces))
    {
      hide Run, EffectsOf, AddrEvents, NeighEvents, RouteEvents, SoundIfaces;
      for j := 0 to |ifaces|
        invariant Valid() && trace == old(trace) + Effects(path, table, Walk(Bridges, table, ifaces[..j]))
      {
        WalkSnoc(path, Bridges, table, ifaces, j);
        if ifaces[j].link.kind.Bridge? {
          AddLinkAndAddrs(ifaces[j]);
        }
        ConcatAssociative(old(trace), Effects(path, table, Walk(Bridges, table, ifaces[..j])),
          Effects(path, table, WalkOf(Bridges, table, ifaces[j])));
      }
      assert ifaces[..|ifaces|] == ifaces;
    }

    method GetBonds(ifaces: seq<Iface>)
      requires Valid() && SoundIfaces(table, ifaces)
      modifies this
      ensures Valid()
      ensures trace == old(trace) + Effects(path, table, Walk(Bonds, table, ifaces))
    {
      hide Run, EffectsOf, AddrEvents, NeighEvents, RouteEvents, SoundIfaces;
      for j := 0 to |ifaces|
        invariant Valid() && trace == old(trace) + Effects(path, table, Walk(Bonds, table, ifaces[..j]))
      {
        WalkSnoc(path, Bonds, table, ifaces, j);
        if ifaces[j].link.kind.Bond? {
          AddLinkAndAddrs(ifaces[j]);
        }
        ConcatAssociative(old(trace), Effects(path, table, Walk(Bonds, table, ifaces[..j])),
          Effects(path, table, WalkOf(Bonds, table, ifaces[j])));
      }
      assert ifaces[..|ifaces|] == ifaces;
    }

    /** One turn of the last loop: a link that could not be added is skipped. */
    method GetLink(i: Iface)
      requires Valid() && SoundIfaces(table, [i])
      modifies this
      ensures Valid()
      ensures trace == old(trace) + Effects(path, table, MainWalk(table, i))
    {
      hide Run, EffectsOf, LinkEffects, AddrEvents, NeighEvents, SoundIfaces, LinkFails;
      var added := [LinkEvent(i.link)];
      if i.link.kind.Bridge? || i.link.kind.Bond? {
        assert trace + [] == trace;
        GetFdbsAndNeighs(i, [], trace);
        ghost var fdbs, neighs := NeighEvents(i.fdbs, i.link), NeighEvents(i.neighs, i.link);
        assert [] + [] + neighs == neighs && [] + fdbs + neighs == fdbs + neighs;
      } else {
        var ret := AddLink(i.link);
        AddedOne(path, table, i.link);
        if ret == 0 {
          GetIpAddrs(i);
          EffectsGrow(path, table, old(trace), added, AddrEvents(i));
          GetFdbsAndNeighs(i, added + AddrEvents(i), old(trace));
        }
      }
    }

    method GetFdbsAndNeighs(i: Iface, ghost done: seq<Event>, ghost was: seq<Effect>)
      requires Valid() && SoundIfaces(table, [i]) && Listed(table, i.link)
      requires trace == was + Effects(path, table, done)
      modifies this
      ensures Valid()
      ensures trace == was + Effects(path, table, done
        + (if i.link.kind.Bridge? then [] else NeighEvents(i.fdbs, i.link)) + NeighEvents(i.neighs, i.link))
    {
      assert i in [i];
      hide Run, Effects, NeighEvents;
      ghost var events := done;
      if !i.link.kind.Bridge? {
        GetNeighs(i.fdbs, i.link);
        EffectsGrow(path, table, was, done, NeighEvents(i.fdbs, i.link));
        events := events + NeighEvents(i.fdbs, i.link);
      } else {
        assert done + [] == done;
      }
      GetNeighs(i.neighs, i.link);
      EffectsGrow(path, table, was, events, NeighEvents(i.neighs, i.link));
    }

    /** The whole dump: what was written is copied to cpath, and then both the
        script and the directory under /tmp are removed. */
    method Nlpdump(ifaces: seq<Iface>, routes: seq<Route>, cpath: string) returns (file: string)
      requires Valid() && trace == [] && SoundIfaces(table, ifaces)
      modifies this
      ensures config == CopyOf(Run(Fresh(path), Effects(path, table, DumpEvents(table, ifaces, routes))).files, path, cpath)
      ensures file == scriptName && file !in temp && forall f :: f in files ==> !(path <= f)
    {
      DumpLinks(ifaces, routes);
      config := CopyOf(files, path, cpath);
      file := scriptName;
      Remove(scriptName);
      RemoveAll(path);
    }

    /** The two deferred removals. */
    method Remove(file: string)
      modifies this`temp
      ensures temp == old(temp) - {file}
    {
      temp := temp - {file};
    }

    method RemoveAll(dir: string)
      modifies this`files, this`dirs
      ensures forall f :: f in files <==> f in old(files) && !(dir <= f)
      ensures forall f :: f in files ==> files[f] == old(files)[f]
      ensures dirs == set d | d in old(dirs) && !(dir <= d)
    {
      files := map f | f in files && !(dir <= f) :: files[f];
      dirs := set d | d in dirs && !(dir <= d);
    }

    method DumpLinks(ifaces: seq<Iface>, routes: seq<Route>)
      requires Valid() && trace == [] && SoundIfaces(table, ifaces)
      modifies this
      ensures Valid() && trace == Effects(path, table, DumpEvents(table, ifaces, routes))
      ensures Dump(temp[scriptName], files, dirs)
           == Run(Fresh(path), Effects(path, table, DumpEvents(table, ifaces, routes)))
    {
      hide Run, EffectsOf, WalkOf, RouteEvents;
      ghost var bridges, bonds := Walk(Bridges, table, ifaces), Walk(Bonds, table, ifaces);
      GetBridges(ifaces);
      GetBonds(ifaces);
      EffectsGrow(path, table, [], bridges, bonds);
      ghost var before := trace;
      for j := 0 to |ifaces|
        invariant Valid() && trace == before + Effects(path, table, Walk(Main, table, ifaces[..j]))
      {
        MainStep(ifaces, j, before);
      }
      assert ifaces[..|ifaces|] == ifaces;
      EffectsGrow(path, table, [], bridges + bonds, Walk(Main, table, ifaces));
      GetRoutes(routes);
      EffectsGrow(path, table, [], bridges + bonds + Walk(Main, table, ifaces), RouteEvents(routes));
      ghost var all := Effects(path, table, DumpEvents(table, ifaces, routes));
      assert [] + all == all;
    }

    method MainStep(ifaces: seq<Iface>, j: nat, ghost before: seq<Effect>)
      requires Valid() && SoundIfaces(table, ifaces) && j < |ifaces|
      requires trace == before + Effects(path, table, Walk(Main, table, ifaces[..j]))
      modifies this
      ensures Valid()
      ensures trace == before + Effects(path, table, Walk(Main, table, ifaces[..j + 1]))
    {
      assert SoundIfaces(table, [ifaces[j]]);
      hide Run, Effects, MainWalk, SoundIfaces;
      WalkSnoc(path, Main, table, ifaces, j);
      ConcatAssociative(before, Effects(path, table, Walk(Main, table, ifaces[..j])),
        Effects(path, table, WalkOf(Main, table, ifaces[j])));
      GetLink(ifaces[j]);
    }

    method GetRoutes(routes: seq<Route>)
      requires Valid()
      modifies this
      ensures Valid() && trace == old(trace) + Effects(path, table, RouteEvents(routes))
    {
      hide Run, Effects, LinkEffects, AddrEffects, NeighEffects, RouteEffects;
      ghost var events, done := RouteEvents(routes), [];
      EffectsNone(path, table, trace);
      for j := 0 to |routes|
        invariant done == events[..j]
        invariant Valid() && trace == old(trace) + Effects(path, table, done)
      {
        AddRoute(routes[j]);
        RouteStep(path, table, done, routes[j]);
        done := done + [events[j]];
      }
      assert done == events;
    }
  }
}
