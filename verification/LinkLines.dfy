/** The lines of the flat script about a link, from what the kernel reports of it. */
module LinkLines {
  import opened Text
  import opened IntfDump
  import opened DumpReplay

  function If(c: bool, line: string): seq<string> { if c then [line] else [] }

  function MtuLines(link: Link): seq<string> {
    If(link.mtu != 1500, "ip link set " + link.name + " mtu " + Dec(link.mtu))
  }

  function BondLines(name: string, mode: string): seq<string> {
    ["ip link add " + name + " type bond", "ip link set " + name + " type bond mode " + mode]
  }

  /** What makes the link, by its kind. */
  function CreateLines(table: LinkTable, link: Link): seq<string>
    requires !link.kind.Bridge? && !CreateFails(table, link)
  {
    if '.' in link.name then
      ["ip link add " + link.name + " link " + Parent(link.name) + " type vlan id " + VlanId(link.name)]
      + If(link.up, "ip link set " + Parent(link.name) + " up")
    else match link.kind
      case Vxlan(id, src, vtep) =>
        ["ip link add " + link.name + " type vxlan id " + Dec(id) + " local " + src + " dev " + table[vtep].name
           + " dstport 4789",
         "ip link set " + link.name + " up"]
      case Bond(mode, _) =>
        BondLines(link.name, mode) + MtuLines(link)
      case _ => MtuLines(link)
  }

  /** What enslaves it: a link that goes under a bond is taken down first. */
  function MasterLines(table: LinkTable, link: Link): seq<string> {
    if link.master <= 0 || link.master !in table then []
    else
      If(table[link.master].kind.Bond?, "ip link set " + link.name + " down")
      + ["ip link set " + link.name + " master " + table[link.master].name, "ip link set " + link.name + " up"]
  }

  lemma SaidTwo(a: seq<Effect>, b: seq<Effect>, x: seq<string>, y: seq<string>)
    requires Said(a) == x && Said(b) == y
    ensures Said(a + b) == x + y
  {
    SaidConcat(a, b);
  }

  lemma {:induction false} SaidNone(es: seq<Effect>)
    requires forall e :: e in es ==> !e.Say?
    ensures Said(es) == []
  {
    if es != [] {
      assert es[|es| - 1] in es;
      SaidNone(es[..|es| - 1]);
    }
  }

  lemma {:induction false} SaidAll(lines: seq<string>, es: seq<Effect>)
    requires |es| == |lines| && forall i :: 0 <= i < |es| ==> es[i] == Say(lines[i])
    ensures Said(es) == lines
  {
    if es != [] {
      SaidAll(lines[..|lines| - 1], es[..|es| - 1]);
    }
  }

  lemma UpSaid(up: bool, name: string)
    ensures Said(UpIf(up, name)) == If(up, "ip link set " + name + " up")
  {
    SaidAll(If(up, "ip link set " + name + " up"), UpIf(up, name));
  }

  lemma MtuSaid(dir: string, link: Link)
    ensures Said(MtuEffects(dir, link)) == MtuLines(link)
  {
    hide Dec;
    var es := MtuEffects(dir, link);
    if es == [] {
      SaidNone(es);
    } else {
      SaidAll(MtuLines(link), es[..1]);
      SaidNone(es[1..]);
      SaidTwo(es[..1], es[1..], MtuLines(link), []);
      assert es[..1] + es[1..] == es;
    }
  }

  lemma CreateSaid(path: string, table: LinkTable, link: Link)
    requires !link.kind.Bridge? && !CreateFails(table, link)
    ensures Said(CreateEffects(path, table, link)) == CreateLines(table, link)
  {
    if '.' in link.name {
      TaggedSaid(path, link);
    } else if link.kind.Vxlan? {
      VxlanSaid(path, link, table[link.kind.vtep]);
    } else {
      BondOrDeviceSaid(path, link);
    }
    hide Said, TaggedEffects, VxlanEffects, BondEffects, DeviceEffects, Dec;
  }

  lemma TaggedSaid(path: string, link: Link)
    requires '.' in link.name
    ensures Said(TaggedEffects(path, link))
         == ["ip link add " + link.name + " link " + Parent(link.name) + " type vlan id " + VlanId(link.name)]
            + If(link.up, "ip link set " + Parent(link.name) + " up")
  {
    var es, up := TaggedEffects(path, link), UpIf(link.up, Parent(link.name));
    UpSaid(link.up, Parent(link.name));
    hide Parent, VlanId, Said;
    var line := "ip link add " + link.name + " link " + Parent(link.name) + " type vlan id " + VlanId(link.name);
    SaidAll([line], es[..1]);
    var files := es[1 + |up|..];
    assert es == es[..1] + up + files;
    SaidNone(files);
    SaidTwo(es[..1], up, [line], Said(up));
    SaidTwo(es[..1] + up, files, [line] + Said(up), []);
  }

  lemma VxlanSaid(path: string, link: Link, lower: Link)
    requires link.kind.Vxlan?
    ensures Said(VxlanEffects(path, link, lower))
         == ["ip link add " + link.name + " type vxlan id " + Dec(link.kind.id) + " local " + link.kind.src + " dev "
               + lower.name + " dstport 4789",
             "ip link set " + link.name + " up"]
  {
    hide Dec, Said;
    var es := VxlanEffects(path, link, lower);
    var lines := ["ip link add " + link.name + " type vxlan id " + Dec(link.kind.id) + " local " + link.kind.src + " dev "
      + lower.name + " dstport 4789", "ip link set " + link.name + " up"];
    SaidAll(lines, es[..2]);
    SaidNone(es[2..]);
    SaidTwo(es[..2], es[2..], lines, []);
    assert es == es[..2] + es[2..];
  }

  lemma BondOrDeviceSaid(path: string, link: Link)
    ensures link.kind.Bond? ==>
      Said(BondEffects(path, link)) == BondLines(link.name, link.kind.modeName) + MtuLines(link)
    ensures Said(DeviceEffects(path, link)) == MtuLines(link)
  {
    var dir := path + link.name;
    var mtu := MtuEffects(dir, link);
    MtuSaid(dir, link);
    hide Said, Dec, MtuEffects, MtuLines;
    var files := [Mkdir(dir), Put(dir, TypeFile, "phy")];
    SaidNone(files);
    SaidTwo(files, mtu, [], MtuLines(link));
    assert files + mtu == DeviceEffects(path, link);
    if link.kind.Bond? {
      var lines := BondLines(link.name, link.kind.modeName);
      var says := [Say(lines[0]), Say(lines[1])];
      var made := [Mkdir(dir), Put(dir, TypeFile, "bond"), Put(dir, ModeFile, Dec(link.kind.mode))];
      SaidAll(lines, says);
      SaidNone(made);
      SaidTwo(says, made, lines, []);
      SaidTwo(says + made, mtu, lines + [], MtuLines(link));
      assert says + made + mtu == BondEffects(path, link);
      assert lines + [] == lines;
    }
  }

  lemma MasterSaid(path: string, table: LinkTable, link: Link)
    ensures Said(MasterEffects(path, table, link)) == MasterLines(table, link)
  {
    hide Said;
    var es := MasterEffects(path, table, link);
    if link.master <= 0 || link.master !in table {
      SaidNone(es);
    } else {
      var lines := MasterLines(table, link);
      var n := |es| - |lines|;
      assert forall e :: e in es[..n] ==> !e.Say?;
      SaidNone(es[..n]);
      SaidAll(lines, es[n..]);
      SaidTwo(es[..n], es[n..], [], lines);
      assert es == es[..n] + es[n..];
    }
  }

  /** Every line the flat script has about a link, in order. */
  lemma LinkSaidExactly(path: string, table: LinkTable, link: Link)
    ensures Said(LinkEffects(path, table, link))
         == if link.kind.Bridge? then
              ["ip link add " + link.name + " type bridge"] + If(link.up, "ip link set " + link.name + " up")
            else if CreateFails(table, link) then []
            else CreateLines(table, link) + If(link.up, "ip link set " + link.name + " up") + MasterLines(table, link)
  {
    var up := UpIf(link.up, link.name);
    UpSaid(link.up, link.name);
    if link.kind.Bridge? {
      BridgeSaid(path, link);
    } else if CreateFails(table, link) {
      SaidNone([]);
    } else {
      var made, master := CreateEffects(path, table, link), MasterEffects(path, table, link);
      CreateSaid(path, table, link);
      MasterSaid(path, table, link);
      hide Said, CreateEffects, MasterEffects, CreateLines, MasterLines, UpIf, If;
      SaidTwo(made, up, Said(made), Said(up));
      SaidTwo(made + up, master, Said(made) + Said(up), Said(master));
    }
  }

  lemma BridgeSaid(path: string, link: Link)
    ensures Said(BridgeEffects(path, link))
         == ["ip link add " + link.name + " type bridge"] + If(link.up, "ip link set " + link.name + " up")
  {
    var es, up := BridgeEffects(path, link), UpIf(link.up, link.name);
    UpSaid(link.up, link.name);
    hide Said, UpLine;
    var line := "ip link add " + link.name + " type bridge";
    SaidAll([line], es[..1]);
    var files := es[1 + |up|..];
    assert es == es[..1] + up + files;
    SaidNone(files);
    SaidTwo(es[..1], up, [line], Said(up));
    SaidTwo(es[..1] + up, files, [line] + Said(up), []);
  }
}
