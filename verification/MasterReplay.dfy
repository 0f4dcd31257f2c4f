/** What apply rebuilds of an interface besides its entries: the master it is put
    under or the VxLAN link on it, its bond mode and its MTU. */
module MasterReplay {
  import opened Text
  import opened HwTexts
  import opened IntfDump
  import opened IntfReplay
  import opened IntfApply
  import opened DumpReplay
  import opened DumpTheorems
  import opened SubInterfaces
  import opened SavedReplay

  // ----- what an event leaves in a file that is written afresh -----

  /** Under a bridge, under a bond, or below a VxLAN link. */
  datatype Relation = UnderBridge(name: string) | UnderBond(name: string) | Below(name: string)

  predicate Added(table: LinkTable, e: Event) {
    e.LinkEvent? && !e.link.kind.Bridge? && !CreateFails(table, e.link)
  }

  /** The master an added link is enslaved to. */
  function Enslaved(table: LinkTable, link: Link): Option<Relation> {
    if link.master <= 0 || link.master !in table then None
    else match table[link.master].kind
      case Bridge => Some(UnderBridge(table[link.master].name))
      case Bond(_, _) => Some(UnderBond(table[link.master].name))
      case _ => None
  }

  function RelationFrom(table: LinkTable, e: Event, intf: string): Option<Relation> {
    if !Added(table, e) then None
    else if e.link.name == intf && Enslaved(table, e.link).Some? then Enslaved(table, e.link)
    else if OnLower(table, e.link) && table[e.link.kind.vtep].name == intf then Some(Below(e.link.name))
    else None
  }

  /** What the last event on it says of an interface. */
  function RelationAfter(table: LinkTable, h: seq<Event>, intf: string): Option<Relation> {
    if h == [] then None
    else
      var last := RelationFrom(table, h[|h| - 1], intf);
      if last.Some? then last else RelationAfter(table, h[..|h| - 1], intf)
  }

  function TextOf(r: Option<Relation>): Option<string> {
    match r
    case None => None
    case Some(UnderBridge(name)) => Some(name + "|" + "bridge")
    case Some(UnderBond(name)) => Some(name + "|" + "bond")
    case Some(Below(name)) => Some(name + "|" + "vxlan")
  }

  datatype Info = Info(id: nat, src: string, lower: string)

  function InfoFrom(table: LinkTable, e: Event, intf: string): Option<Info> {
    if e.LinkEvent? && OnLower(table, e.link) && e.link.name == intf
    then Some(Info(e.link.kind.id, e.link.kind.src, table[e.link.kind.vtep].name)) else None
  }

  function InfoAfter(table: LinkTable, h: seq<Event>, intf: string): Option<Info> {
    if h == [] then None
    else
      var last := InfoFrom(table, h[|h| - 1], intf);
      if last.Some? then last else InfoAfter(table, h[..|h| - 1], intf)
  }

  function InfoTextOf(i: Option<Info>): Option<string> {
    if i.None? then None else Some(Dec(i.value.id) + "|" + i.value.src + "|" + i.value.lower)
  }

  // ----- the last text put by an event -----

  /** A text put where its directory is made, with nothing put there behind it. */
  lemma PutBetween(dirs: set<string>, front: seq<Effect>, d: string, base: File, text: string, back: seq<Effect>, dir: string)
    requires d in dirs || Mkdir(d) in front
    requires forall e :: e in back && e.Put? ==> e.base != base
    ensures LastPut(dirs, front + [Put(d, base, text)] + back, dir, base)
         == if d == dir then Some(text) else LastPut(dirs, front, dir, base)
  {
    var put := [Put(d, base, text)];
    MadeMeans(dirs, front, d);
    NothingPut(Made(dirs, front + put), back, dir, base);
    PutConcat(dirs, front, put, dir, base);
    PutConcat(dirs, front + put, back, dir, base);
    assert put[..0] == [];
  }

  lemma LowerPuts(path: string, dirs: set<string>, link: Link, lower: Link, dir: string)
    ensures LastPut(dirs, LowerEffects(path, link, lower), dir, MasterFile)
         == if path + lower.name == dir then Some(link.name + "|" + "vxlan") else None
    ensures LastPut(dirs, LowerEffects(path, link, lower), dir, InfoFile) == None
  {
    hide LastPut;
    var d, text := path + lower.name, if lower.kind.Bridge? then "bridge" else "phy";
    var front := [Mkdir(d), Put(d, TypeFile, text)];
    var put := Put(d, MasterFile, link.name + "|vxlan");
    assert "|" + "vxlan" == "|vxlan";
    ConcatAssociative(link.name, "|", "vxlan");
    NothingPut(dirs, front, dir, MasterFile);
    NothingPut(dirs, LowerEffects(path, link, lower), dir, InfoFile);
    PutBetween(dirs, front, d, MasterFile, link.name + "|vxlan", [], dir);
    assert front + [put] + [] == LowerEffects(path, link, lower);
  }

  lemma VxlanPuts(path: string, dirs: set<string>, link: Link, lower: Link, dir: string)
    requires link.kind.Vxlan?
    ensures LastPut(dirs, VxlanEffects(path, link, lower), dir, MasterFile)
         == if path + lower.name == dir then Some(link.name + "|" + "vxlan") else None
    ensures LastPut(dirs, VxlanEffects(path, link, lower), dir, InfoFile)
         == if path + link.name == dir then Some(Dec(link.kind.id) + "|" + link.kind.src + "|" + lower.name) else None
  {
    hide LastPut, VxlanLine, UpLine, Dec;
    var d, info := path + link.name, Dec(link.kind.id) + "|" + link.kind.src + "|" + lower.name;
    var front := [Say(VxlanLine(link, lower)), Say(UpLine(link.name)), Mkdir(d), Put(d, TypeFile, "vxlan")];
    var own, below := front + [Put(d, InfoFile, info)], LowerEffects(path, link, lower);
    assert own + below == VxlanEffects(path, link, lower);
    NothingPut(dirs, front, dir, InfoFile);
    PutBetween(dirs, front, d, InfoFile, info, [], dir);
    assert front + [Put(d, InfoFile, info)] + [] == own;
    NothingPut(dirs, own, dir, MasterFile);
    LowerPuts(path, Made(dirs, own), link, lower, dir);
    hide LowerEffects;
    PutConcat(dirs, own, below, dir, MasterFile);
    PutConcat(dirs, own, below, dir, InfoFile);
  }

  lemma OthersPutNone(path: string, dirs: set<string>, link: Link, dir: string, base: File)
    requires base == MasterFile || base == InfoFile
    ensures '.' in link.name ==> LastPut(dirs, TaggedEffects(path, link), dir, base) == None
    ensures link.kind.Bond? ==> LastPut(dirs, BondEffects(path, link), dir, base) == None
    ensures LastPut(dirs, DeviceEffects(path, link), dir, base) == None
    ensures LastPut(dirs, BridgeEffects(path, link), dir, base) == None
  {
    hide LastPut, VlanLine, UpLine, MtuLine, Parent, VlanId, Dec;
    if '.' in link.name {
      NothingPut(dirs, TaggedEffects(path, link), dir, base);
    }
    if link.kind.Bond? {
      NothingPut(dirs, BondEffects(path, link), dir, base);
    }
    NothingPut(dirs, DeviceEffects(path, link), dir, base);
    NothingPut(dirs, BridgeEffects(path, link), dir, base);
  }

  lemma CreatePuts(path: string, table: LinkTable, dirs: set<string>, link: Link, intf: string)
    requires !link.kind.Bridge? && !CreateFails(table, link)
    ensures LastPut(dirs, CreateEffects(path, table, link), path + intf, MasterFile)
         == if OnLower(table, link) && table[link.kind.vtep].name == intf then Some(link.name + "|" + "vxlan") else None
    ensures LastPut(dirs, CreateEffects(path, table, link), path + intf, InfoFile)
         == InfoTextOf(InfoFrom(table, LinkEvent(link), intf))
  {
    var dir := path + intf;
    SameInDir(path, link.name, intf);
    OthersPutNone(path, dirs, link, dir, MasterFile);
    OthersPutNone(path, dirs, link, dir, InfoFile);
    hide LastPut, TaggedEffects, BondEffects, DeviceEffects, VxlanEffects, Dec;
    if OnLower(table, link) {
      SameInDir(path, table[link.kind.vtep].name, intf);
      VxlanPuts(path, dirs, link, table[link.kind.vtep], dir);
    }
  }

  lemma MasterPuts(path: string, table: LinkTable, dirs: set<string>, link: Link, intf: string)
    requires path + link.name in dirs
    ensures LastPut(dirs, MasterEffects(path, table, link), path + intf, MasterFile)
         == if link.name == intf then TextOf(Enslaved(table, link)) else None
    ensures LastPut(dirs, MasterEffects(path, table, link), path + intf, InfoFile) == None
  {
    hide LastPut, UpLine;
    var es, d, dir := MasterEffects(path, table, link), path + link.name, path + intf;
    SameInDir(path, link.name, intf);
    NothingPut(dirs, es, dir, InfoFile);
    if Enslaved(table, link).None? {
      NothingPut(dirs, es, dir, MasterFile);
    } else {
      var text := TextOf(Enslaved(table, link)).value;
      var name := table[link.master].name;
      assert "|" + "bridge" == "|bridge" && "|" + "bond" == "|bond";
      ConcatAssociative(name, "|", "bridge");
      ConcatAssociative(name, "|", "bond");
      assert es[0] == Put(d, MasterFile, text);
      NothingPut(dirs, [], dir, MasterFile);
      PutBetween(dirs, [], d, MasterFile, text, es[1..], dir);
      assert [] + [Put(d, MasterFile, text)] + es[1..] == es;
    }
  }

  lemma EventPuts(path: string, table: LinkTable, dirs: set<string>, e: Event, intf: string)
    ensures LastPut(dirs, EffectsOf(path, table, e), path + intf, MasterFile) == TextOf(RelationFrom(table, e, intf))
    ensures LastPut(dirs, EffectsOf(path, table, e), path + intf, InfoFile) == InfoTextOf(InfoFrom(table, e, intf))
  {
    hide LastPut, Dec;
    if !e.LinkEvent? {
      EntriesPutNone(path, table, dirs, e, path + intf);
    } else if e.link.kind.Bridge? {
      OthersPutNone(path, dirs, e.link, path + intf, MasterFile);
      OthersPutNone(path, dirs, e.link, path + intf, InfoFile);
      hide BridgeEffects;
    } else if CreateFails(table, e.link) {
      NothingPut(dirs, [], path + intf, MasterFile);
      NothingPut(dirs, [], path + intf, InfoFile);
    } else {
      AddedPuts(path, table, dirs, e.link, intf);
      hide LinkEffects;
    }
  }

  lemma EntriesPutNone(path: string, table: LinkTable, dirs: set<string>, e: Event, dir: string)
    requires !e.LinkEvent?
    ensures LastPut(dirs, EffectsOf(path, table, e), dir, MasterFile) == None
    ensures LastPut(dirs, EffectsOf(path, table, e), dir, InfoFile) == None
  {
    hide HwText, HwAddr.Front, SavedFdb, HasMac, LastPut;
    NothingPut(dirs, EffectsOf(path, table, e), dir, MasterFile);
    NothingPut(dirs, EffectsOf(path, table, e), dir, InfoFile);
  }

  lemma AddedPuts(path: string, table: LinkTable, dirs: set<string>, link: Link, intf: string)
    requires !link.kind.Bridge? && !CreateFails(table, link)
    ensures LastPut(dirs, LinkEffects(path, table, link), path + intf, MasterFile)
         == TextOf(RelationFrom(table, LinkEvent(link), intf))
    ensures LastPut(dirs, LinkEffects(path, table, link), path + intf, InfoFile)
         == InfoTextOf(InfoFrom(table, LinkEvent(link), intf))
  {
    var dir := path + intf;
    var made, up, master := CreateEffects(path, table, link), UpIf(link.up, link.name), MasterEffects(path, table, link);
    CreatePuts(path, table, dirs, link, intf);
    CreateMakes(path, table, link);
    MadeMeans(dirs, made + up, path + link.name);
    MasterPuts(path, table, Made(dirs, made + up), link, intf);
    hide LastPut, CreateEffects, UpLine, InfoFrom, InfoTextOf;
    NothingPut(Made(dirs, made), up, dir, MasterFile);
    NothingPut(Made(dirs, made), up, dir, InfoFile);
    hide MasterEffects, UpIf;
    PutConcat(dirs, made, up, dir, MasterFile);
    PutConcat(dirs, made, up, dir, InfoFile);
    PutConcat(dirs, made + up, master, dir, MasterFile);
    PutConcat(dirs, made + up, master, dir, InfoFile);
  }

  lemma {:induction false} RunPuts(path: string, table: LinkTable, h: seq<Event>, intf: string)
    ensures LastPut({path}, Effects(path, table, h), path + intf, MasterFile) == TextOf(RelationAfter(table, h, intf))
    ensures LastPut({path}, Effects(path, table, h), path + intf, InfoFile) == InfoTextOf(InfoAfter(table, h, intf))
  {
    hide EffectsOf, RelationFrom, InfoFrom, Dec;
    if h != [] {
      var init, last := h[..|h| - 1], h[|h| - 1];
      var before, more := Effects(path, table, init), EffectsOf(path, table, last);
      RunPuts(path, table, init, intf);
      EventPuts(path, table, Made({path}, before), last, intf);
      hide LastPut;
      PutConcat({path}, before, more, path + intf, MasterFile);
      PutConcat({path}, before, more, path + intf, InfoFile);
    }
  }

  /** The master and info files of a saved interface hold the one line that the
      last event on it gave it. */
  lemma SavedPuts(path: string, cpath: string, table: LinkTable, h: seq<Event>, intf: string)
    requires HistoryOK(table, h)
    ensures var files := SavedFiles(path, cpath, table, h);
      var relation, info := TextOf(RelationAfter(table, h, intf)), InfoTextOf(InfoAfter(table, h, intf));
      && LinesOf(files, cpath, intf, MasterFile) == (if Hidden(intf) || relation.None? then [] else [relation.value])
      && LinesOf(files, cpath, intf, InfoFile) == (if Hidden(intf) || info.None? then [] else [info.value])
  {
    RunPuts(path, table, h, intf);
    SavedPut(path, cpath, table, h, intf, MasterFile);
    SavedPut(path, cpath, table, h, intf, InfoFile);
    hide Effects, LastPut, SavedFiles, LinesOf, RelationAfter, InfoAfter, Dec;
  }

  lemma SavedPut(path: string, cpath: string, table: LinkTable, h: seq<Event>, intf: string, base: File)
    requires HistoryOK(table, h) && (base == MasterFile || base == InfoFile)
    ensures var last := LastPut({path}, Effects(path, table, h), path + intf, base);
      LinesOf(SavedFiles(path, cpath, table, h), cpath, intf, base) == if Hidden(intf) || last.None? then [] else [last.value]
  {
    var files, es := SavedFiles(path, cpath, table, h), Effects(path, table, h);
    var last := LastPut({path}, es, path + intf, base);
    RunTidy(path, table, h);
    RunTokens(path, table, h);
    PutFile(path, es, path + intf, base);
    SavedText(path, cpath, table, h, intf, base);
    hide Effects, Run, PathOf, SavedFiles, HasTokens, OneLine, LastPut, LinesOf;
    if Hidden(intf) || last.None? {
      NoLines(files, cpath, intf, base);
    } else {
      PutMember({path}, es, path + intf, base);
      assert Tokens(Put(path + intf, base, last.value));
      OnlyLine(files, cpath, intf, base, last.value);
    }
  }

  // ----- lines that set a master -----

  predicate MasterLineOf(line: string, name: string, master: string) {
    ' ' !in name && ' ' !in master && line == "ip link set " + name + " master " + master
  }

  ghost predicate SetsMaster(line: string) { exists name, master :: MasterLineOf(line, name, master) }

  ghost function Masters(lines: seq<string>): seq<string> {
    if lines == [] then []
    else Masters(lines[..|lines| - 1]) + if SetsMaster(lines[|lines| - 1]) then [lines[|lines| - 1]] else []
  }

  lemma {:induction false} MastersConcat(a: seq<string>, b: seq<string>)
    ensures Masters(a + b) == Masters(a) + Masters(b)
  {
    hide SetsMaster;
    if b == [] {
      assert a + b == a;
    } else {
      assert (a + b)[..|a + b| - 1] == a + b[..|b| - 1];
      MastersConcat(a, b[..|b| - 1]);
    }
  }

  ghost predicate NoMasters(lines: seq<string>) { forall line :: line in lines ==> !SetsMaster(line) }

  lemma {:induction false} MastersNone(lines: seq<string>)
    requires NoMasters(lines)
    ensures Masters(lines) == []
  {
    hide SetsMaster;
    if lines != [] {
      assert lines[|lines| - 1] in lines;
      MastersNone(lines[..|lines| - 1]);
    }
  }

  lemma MastersOne(line: string)
    ensures Masters([line]) == if SetsMaster(line) then [line] else []
  {
    hide SetsMaster;
    assert [line][..0] == [];
  }

  /** Another word behind the name. */
  lemma OtherWord(name: string, rest: string)
    requires ' ' !in name && !("master " <= rest)
    ensures !SetsMaster("ip link set " + name + " " + rest)
  {
    var line := "ip link set " + name + " " + rest;
    forall a, b ensures !MasterLineOf(line, a, b) {
      if MasterLineOf(line, a, b) {
        var tail := "master " + b;
        assert " master " == " " + "master ";
        assert line == "ip link set " + (name + " " + rest);
        assert line == "ip link set " + (a + " " + tail);
        SameTail("ip link set ", name + " " + rest, a + " " + tail);
        FirstWord(name, rest, a, tail);
      }
    }
  }

  lemma UpDownQuiet(name: string)
    requires ' ' !in name
    ensures !SetsMaster(SetUp(name)) && !SetsMaster("ip link set " + name + " down")
  {
    OtherWord(name, "up");
    OtherWord(name, "down");
    assert " " + "up" == " up" && " " + "down" == " down";
    ConcatAssociative("ip link set " + name, " ", "up");
    ConcatAssociative("ip link set " + name, " ", "down");
  }

  /** A command of another kind. */
  lemma OtherCommand(line: string)
    requires !("ip link set " <= line)
    ensures !SetsMaster(line)
  {
    if a, b :| MasterLineOf(line, a, b) {
      MasterLineStarts(line, a, b);
    }
  }

  lemma MasterLineStarts(line: string, a: string, b: string)
    requires MasterLineOf(line, a, b)
    ensures "ip link set " <= line
  {
    assert line == "ip link set " + (a + " master " + b);
  }

  lemma MtuNoMaster(intf: string, mtu: string)
    requires ' ' !in intf
    ensures !SetsMaster("ip link set dev " + intf + " mtu " + mtu)
  {
    var line, rest := "ip link set dev " + intf + " mtu " + mtu, intf + " mtu " + mtu;
    assert line == "ip link set " + ("dev" + " " + rest);
    assert ("mtu " + mtu)[3] == ' ';
    forall a, b ensures !MasterLineOf(line, a, b) {
      if MasterLineOf(line, a, b) {
        assert " master " == " " + "master ";
        assert line == "ip link set " + (a + " " + ("master " + b));
        SameTail("ip link set ", "dev" + " " + rest, a + " " + ("master " + b));
        FirstWord("dev", rest, a, "master " + b);
        assert " mtu " == " " + "mtu ";
        assert rest == intf + " " + ("mtu " + mtu) && "master " + b == "master" + " " + b;
        FirstWord(intf, "mtu " + mtu, "master", b);
      }
    }
  }

  lemma {:induction false} RoutesNoMaster(lines: seq<string>)
    ensures NoMasters(RouteCommands(lines))
  {
    if lines != [] {
      var line := "ip route replace " + lines[|lines| - 1] + " proto static";
      RoutesNoMaster(lines[..|lines| - 1]);
      assert line[3] == 'r' && "ip link set "[3] == 'l';
      OtherCommand(line);
      hide SetsMaster;
    }
  }

  /** The names of sub-interface records have no space. */
  predicate Spaceless(records: seq<string>) { forall r :: r in records ==> ' ' !in r }

  lemma RecordNoMaster(k: Kind, intf: string, record: string)
    requires k.SubIntfs? ==> ' ' !in record
    ensures NoMasters([Command(k, intf, record)] + Trailer(k, record))
  {
    var line := Command(k, intf, record);
    hide Split;
    if k.SubIntfs? {
      var token := Split(record, '|');
      SplitParts(record, '|');
      assert token[0] in token;
      UpDownQuiet(token[0]);
      if |token| >= 3 {
        VlanStartsAdd(token[0], token[1], token[2]);
      }
    } else {
      assert line[0] == Before(k)[0] && line[3] == Before(k)[3];
      assert Before(k)[0] != 'i' || Before(k)[3] != 'l';
    }
    OtherCommand(line);
    hide SetsMaster, Command;
  }

  lemma VlanStartsAdd(a: string, b: string, c: string)
    ensures !("ip link set " <= "ip link add " + a + " link " + b + " type vlan id " + c)
  {
    var line := "ip link add " + a;
    assert line[8] == 'a' && "ip link set "[8] == 's';
  }

  lemma {:induction false} ReaderNoMaster(k: Kind, intf: string, records: seq<string>)
    requires k.SubIntfs? ==> Spaceless(records)
    ensures NoMasters(WithTrailers(k, intf, records))
  {
    if records != [] {
      var init, last := records[..|records| - 1], records[|records| - 1];
      assert last in records && forall r :: r in init ==> r in records;
      ReaderNoMaster(k, intf, init);
      RecordNoMaster(k, intf, last);
      hide SetsMaster, Command, Trailer;
    }
  }

  lemma AddNoMaster(name: string, rest: string)
    ensures !SetsMaster("ip link add " + name + rest)
  {
    var line := "ip link add " + name + rest;
    assert line == "ip link add " + (name + rest);
    assert line[8] == 'a' && "ip link set "[8] == 's';
    OtherCommand(line);
  }

  // ----- what the master step runs -----

  lemma BridgeNoMaster(name: string)
    requires ' ' !in name
    ensures NoMasters(BridgeCommands(name))
  {
    AddNoMaster(name, " type bridge ");
    UpDownQuiet(name);
    hide SetsMaster;
  }

  lemma BondNoMaster(files: map<string, string>, path: string, name: string)
    requires ' ' !in name
    ensures NoMasters(BondCommands(files, path, name))
  {
    var first := FirstOf(files, path, name, ModeFile);
    var mode := if first.Some? then first.value else "";
    AddNoMaster(name, " type bond ");
    UpDownQuiet(name);
    assert ("type bond mode " + mode)[0] == 't' && "master "[0] == 'm';
    OtherWord(name, "type bond mode " + mode);
    assert " type bond mode " == " " + "type bond mode ";
    ConcatAssociative("ip link set " + name, " ", "type bond mode " + mode);
    ConcatAssociative("ip link set " + name + " ", "type bond mode ", mode);
    ConcatAssociative("ip link set " + name, " ", "type bond mode ");
    hide SetsMaster, FirstOf, FileThere;
  }

  lemma {:induction false} VxlanNoMaster(name: string, lines: seq<string>)
    requires ' ' !in name && forall line :: line in lines ==> |Split(line, '|')| >= 3
    ensures NoMasters(VxlanCommands(name, lines))
  {
    if lines != [] {
      var token := Split(lines[|lines| - 1], '|');
      VxlanNoMaster(name, lines[..|lines| - 1]);
      var rest := " type vxlan id " + token[0] + " local " + token[1] + " dev " + token[2] + " dst 4789";
      AddNoMaster(name, rest);
      VxlanText(name, token[0], token[1], token[2]);
      UpDownQuiet(name);
      hide SetsMaster, Split;
    }
  }

  lemma VxlanText(name: string, a: string, b: string, c: string)
    ensures "ip link add " + name + (" type vxlan id " + a + " local " + b + " dev " + c + " dst 4789")
         == "ip link add " + name + " type vxlan id " + a + " local " + b + " dev " + c + " dst 4789"
  {
    var head := "ip link add " + name;
    var t1 := " type vxlan id " + a;
    ConcatAssociative(head, " type vxlan id ", a);
    ConcatAssociative(head, t1, " local ");
    ConcatAssociative(head, t1 + " local ", b);
    ConcatAssociative(head, t1 + " local " + b, " dev ");
    ConcatAssociative(head, t1 + " local " + b + " dev ", c);
    ConcatAssociative(head, t1 + " local " + b + " dev " + c, " dst 4789");
  }

  lemma SetMasterHas(intf: string, master: string)
    requires ' ' !in intf && ' ' !in master
    ensures Masters(SetMasterCommands(intf, master)) == ["ip link set " + intf + " master " + master]
  {
    var line := "ip link set " + intf + " master " + master;
    assert MasterLineOf(line, intf, master);
    UpDownQuiet(intf);
    hide SetsMaster;
    var down, up := "ip link set " + intf + " down", SetUp(intf);
    MastersOne(down);
    MastersOne(line);
    MastersOne(up);
    hide Masters;
    MastersConcat([down], [line]);
    MastersConcat([down, line], [up]);
    assert [down] + [line] == [down, line] && [down, line] + [up] == SetMasterCommands(intf, master);
  }

  /** The lines of the master step that set a master. */
  lemma MasterStepHas(files: map<string, string>, path: string, intf: string)
    requires Tokened(files, path, intf) && ' ' !in intf
    requires var token := MasterTokens(files, path, intf); token != [] ==> ' ' !in token[0]
    ensures var token := MasterTokens(files, path, intf);
      Masters(MasterCommands(files, path, intf))
      == if token != [] && (token[1] == "bridge" || token[1] == "bond")
         then ["ip link set " + intf + " master " + token[0]] else []
  {
    hide LinesOf, Split, SetMasterCommands, BridgeCommands, BondCommands, VxlanCommands, Masters, NoMasters;
    var token := MasterTokens(files, path, intf);
    MastersNothing();
    if token != [] {
      SetMasterHas(intf, token[0]);
      if token[1] == "bridge" {
        BridgeNoMaster(token[0]);
        MastersNone(BridgeCommands(token[0]));
        MastersConcat(BridgeCommands(token[0]), SetMasterCommands(intf, token[0]));
      } else if token[1] == "vxlan" {
        VxlanNoMaster(token[0], LinesOf(files, path, token[0], InfoFile));
        MastersNone(VxlanCommands(token[0], LinesOf(files, path, token[0], InfoFile)));
      } else if token[1] == "bond" {
        BondNoMaster(files, path, token[0]);
        MastersNone(BondCommands(files, path, token[0]));
        MastersConcat(BondCommands(files, path, token[0]), SetMasterCommands(intf, token[0]));
      }
    }
  }

  lemma MastersNothing()
    ensures Masters([]) == []
  {
  }

  lemma StepHas(files: map<string, string>, path: string, intf: string, step: Step)
    requires Tokened(files, path, intf) && ' ' !in intf && !step.Master?
    requires Spaceless(LinesOf(files, path, intf, SubIntfFile))
    ensures Masters(Output(files, path, intf, step)) == []
  {
    hide LinesOf, WithTrailers, RouteCommands, Spaceless, NoMasters, Masters;
    match step {
      case SetDev =>
        UpDownQuiet(intf);
        MastersOne(SetUp(intf));
      case Mtu =>
        var mtu := FirstOf(files, path, intf, MtuFile);
        MastersNothing();
        if mtu.Some? {
          MtuNoMaster(intf, mtu.value);
          MastersOne("ip link set dev " + intf + " mtu " + mtu.value);
        }
      case Records(k) =>
        ReaderNoMaster(k, intf, LinesOf(files, path, intf, FileOf(k)));
        MastersNone(WithTrailers(k, intf, LinesOf(files, path, intf, FileOf(k))));
      case Routes =>
        RoutesNoMaster(LinesOf(files, path, intf, Ipv4Route));
        MastersNone(RouteCommands(LinesOf(files, path, intf, Ipv4Route)));
    }
  }

  lemma {:induction false} StepsHave(files: map<string, string>, path: string, intf: string, steps: seq<Step>)
    requires Tokened(files, path, intf) && ' ' !in intf && Master !in steps
    requires Spaceless(LinesOf(files, path, intf, SubIntfFile))
    ensures Masters(Outputs(files, path, intf, steps)) == []
  {
    hide LinesOf, Spaceless, Masters, Output, Tokened;
    MastersNothing();
    if steps != [] {
      var init, last := steps[..|steps| - 1], steps[|steps| - 1];
      assert last in steps && forall step :: step in init ==> step in steps;
      StepsHave(files, path, intf, init);
      StepHas(files, path, intf, last);
      MastersConcat(Outputs(files, path, intf, init), Output(files, path, intf, last));
    }
  }

  // ----- after a save -----

  lemma EventSpaceless(path: string, table: LinkTable, e: Event, x: Effect)
    requires EventOK(table, e) && x in EffectsOf(path, table, e) && x.Log? && x.base == SubIntfFile
    ensures ' ' !in x.line
  {
    if e.LinkEvent? && !e.link.kind.Bridge? && '.' in e.link.name {
      LinkSpaceless(path, table, e.link, x);
    } else if e.LinkEvent? {
      UntaggedLogsNone(path, table, e.link, x);
    } else {
      hide HwText, HwAddr.Front, SavedFdb, HasMac;
    }
  }

  lemma UntaggedLogsNone(path: string, table: LinkTable, link: Link, log: Effect)
    requires LinkOK(table, link) && (link.kind.Bridge? || '.' !in link.name)
    requires log.Log? && log.base == SubIntfFile
    ensures log !in LinkEffects(path, table, link)
  {
    UntaggedHarmless(path, table, link);
    hide LinkEffects, LinkLine;
    assert !LinkEffect(log);
  }

  lemma LinkSpaceless(path: string, table: LinkTable, link: Link, x: Effect)
    requires LinkOK(table, link) && !link.kind.Bridge? && '.' in link.name
    requires x in LinkEffects(path, table, link) && x.Log? && x.base == SubIntfFile
    ensures ' ' !in x.line
  {
    Pieces(link.name);
    var p, v := Parent(link.name), VlanId(link.name);
    assert ' ' !in link.name + "|" + p + "|" + v;
    hide VlanLine, UpLine, Parent, VlanId, NameOK;
    assert x !in UpIf(link.up, link.name);
    MembersOnly(path, table, link);
    hide MasterEffects;
    assert x in TaggedEffects(path, link);
    OneSubRecord(path, link, x);
  }

  lemma MembersOnly(path: string, table: LinkTable, link: Link)
    ensures forall x :: x in MasterEffects(path, table, link) && x.Log? ==> x.base == MembersFile
  {
    hide UpLine;
  }

  lemma OneSubRecord(path: string, link: Link, x: Effect)
    requires '.' in link.name && x in TaggedEffects(path, link) && x.Log?
    ensures x.line == link.name + "|" + Parent(link.name) + "|" + VlanId(link.name)
  {
    hide VlanLine, UpLine, Parent, VlanId;
    assert x !in UpIf(link.up, Parent(link.name));
  }

  lemma {:induction false} RunSpaceless(path: string, table: LinkTable, h: seq<Event>, x: Effect)
    requires HistoryOK(table, h) && x in Effects(path, table, h) && x.Log? && x.base == SubIntfFile
    ensures ' ' !in x.line
  {
    hide EffectsOf, EventOK;
    var init, last := h[..|h| - 1], h[|h| - 1];
    if x in Effects(path, table, init) {
      RunSpaceless(path, table, init, x);
    } else {
      EventSpaceless(path, table, last, x);
    }
  }

  lemma SavedSpaceless(path: string, cpath: string, table: LinkTable, h: seq<Event>, intf: string)
    requires HistoryOK(table, h)
    ensures Spaceless(LinesOf(SavedFiles(path, cpath, table, h), cpath, intf, SubIntfFile))
  {
    SavedRecords(path, cpath, table, h, intf, SubIntfFile);
    var files, es := SavedFiles(path, cpath, table, h), Effects(path, table, h);
    hide LinesOf, SavedFiles, Effects, Kept, HistoryOK;
    forall r | r in LinesOf(files, cpath, intf, SubIntfFile) ensures ' ' !in r {
      KeptMember({path}, es, path + intf, SubIntfFile, r);
      RunSpaceless(path, table, h, Log(path + intf, SubIntfFile, r));
    }
  }

  /** The event that says last what an interface lies under. */
  lemma {:induction false} RelationEvent(table: LinkTable, h: seq<Event>, intf: string) returns (e: Event)
    requires RelationAfter(table, h, intf).Some?
    ensures e in h && RelationFrom(table, e, intf) == RelationAfter(table, h, intf)
  {
    hide RelationFrom;
    e := h[|h| - 1];
    if RelationFrom(table, e, intf).None? {
      e := RelationEvent(table, h[..|h| - 1], intf);
    }
  }

  lemma RelatedIsTyped(table: LinkTable, h: seq<Event>, intf: string)
    requires RelationAfter(table, h, intf).Some?
    ensures TypeAfter(table, h, intf).Some?
  {
    var e := RelationEvent(table, h, intf);
    var i :| 0 <= i < |h| && h[i] == e;
    assert Houses(table, h[i], intf);
    TypedExactly(table, h, intf);
  }

  /** The master step comes last, for every type. */
  lemma StepsEnd(itype: string)
    requires itype in {"phy", "bond", "subintf", "bridge", "vxlan"}
    ensures var steps := Steps(itype); |steps| > 0 && steps[|steps| - 1] == Master && Master !in steps[..|steps| - 1]
  {
  }

  /** Everything run for a saved interface, and the master step at its end. */
  lemma SavedMasterStep(intf: string, path: string, cpath: string, table: LinkTable, h: seq<Event>) returns (front: seq<string>)
    requires NameOK(intf) && HistoryOK(table, h) && !Hidden(intf) && RelationAfter(table, h, intf).Some?
    ensures var files := SavedFiles(path, cpath, table, h);
      && Tokened(files, cpath, intf)
      && PerInterface(files, cpath, intf) == front + MasterCommands(files, cpath, intf)
      && Masters(front) == []
      && MasterTokens(files, cpath, intf) == Split(TextOf(RelationAfter(table, h, intf)).value, '|')
  {
    assert ' ' !in intf;
    hide SavedFiles, LinesOf, TypeAfter, RelationAfter, InfoAfter, Steps, Masters, Spaceless, Tokened, MasterCommands,
      NameOK, HistoryOK, InfoTextOf, TextOf, Split, PerInterface;
    var files := SavedFiles(path, cpath, table, h);
    SavedTokened(path, cpath, table, h, intf);
    SavedType(path, cpath, table, h, intf);
    SavedPuts(path, cpath, table, h, intf);
    SavedSpaceless(path, cpath, table, h, intf);
    RelatedIsTyped(table, h, intf);
    TypesKnown(table, h, intf);
    assert TextOf(RelationAfter(table, h, intf)).Some? by {
      HasText(RelationAfter(table, h, intf));
    }
    front := EndsWithMaster(files, cpath, intf, TypeAfter(table, h, intf).value);
  }

  lemma HasText(r: Option<Relation>)
    ensures TextOf(r).Some? <==> r.Some?
  {
  }

  lemma EndsWithMaster(files: map<string, string>, path: string, intf: string, itype: string) returns (front: seq<string>)
    requires Tokened(files, path, intf) && FirstOf(files, path, intf, TypeFile) == Some(itype)
    requires ' ' !in intf && Spaceless(LinesOf(files, path, intf, SubIntfFile))
    requires itype in {"phy", "bond", "subintf", "bridge", "vxlan"}
    ensures PerInterface(files, path, intf) == front + MasterCommands(files, path, intf) && Masters(front) == []
  {
    hide LinesOf, Steps, Masters, Spaceless, Tokened, MasterCommands, FirstOf;
    var steps := Steps(itype);
    StepsEnd(itype);
    StepsHave(files, path, intf, steps[..|steps| - 1]);
    front := Outputs(files, path, intf, steps[..|steps| - 1]);
  }

  function MasterLine(intf: string, master: string): string { "ip link set " + intf + " master " + master }

  /** For every run that is saved and left an interface under a bridge or a bond:
      the flat script has the line that puts it there, and apply of the interface
      sets a master by that line and by no other, if and only if the master's name
      is free of bars. */
  lemma MasterReadAgainExactly(intf: string, path: string, cpath: string, table: LinkTable, h: seq<Event>)
    requires NameOK(intf) && HistoryOK(table, h) && !Hidden(intf)
    requires RelationAfter(table, h, intf).Some? && !RelationAfter(table, h, intf).value.Below?
    ensures var files, d := SavedFiles(path, cpath, table, h), Run(Fresh(path), Effects(path, table, h));
      var master := RelationAfter(table, h, intf).value.name;
      && Tokened(files, cpath, intf)
      && MasterLine(intf, master) in ScanLines(d.script)
      && (Masters(PerInterface(files, cpath, intf)) == [MasterLine(intf, master)] <==> '|' !in master)
  {
    assert ' ' !in intf;
    hide SavedFiles, Run, Effects, RelationAfter, Tokened, PerInterface, Masters, MasterCommands, Split, ScanLines,
      HistoryOK, NameOK, MasterTokens, MasterLine;
    var files, relation := SavedFiles(path, cpath, table, h), RelationAfter(table, h, intf).value;
    MasterIsSaid(intf, path, table, h);
    MasterNameOK(intf, table, h);
    var front := SavedMasterStep(intf, path, cpath, table, h);
    MasterStepSets(files, cpath, intf, relation.name, KindOf(relation), front);
  }

  function KindOf(r: Relation): string { if r.UnderBridge? then "bridge" else if r.UnderBond? then "bond" else "vxlan" }

  lemma MasterStepSets(files: map<string, string>, path: string, intf: string, name: string, kind: string, front: seq<string>)
    requires Tokened(files, path, intf) && ' ' !in intf && ' ' !in name && (kind == "bridge" || kind == "bond")
    requires MasterTokens(files, path, intf) == Split(name + "|" + kind, '|') && Masters(front) == []
    ensures Masters(front + MasterCommands(files, path, intf)) == [MasterLine(intf, name)] <==> '|' !in name
  {
    hide Tokened, Masters, MasterCommands, Split, MasterTokens, MasterLine;
    TokensOf(name, kind);
    MasterStepHas(files, path, intf);
    var commands := MasterCommands(files, path, intf);
    MastersConcat(front, commands);
    assert [] + Masters(commands) == Masters(commands);
    var token := Split(name + "|" + kind, '|');
    MasterLineText(intf, token[0]);
    MasterLineIs(intf, token[0], name);
  }

  lemma MasterLineText(intf: string, master: string)
    ensures MasterLine(intf, master) == "ip link set " + intf + " master " + master
  {
  }

  lemma MasterLineIs(intf: string, a: string, b: string)
    ensures MasterLine(intf, a) == MasterLine(intf, b) <==> a == b
  {
    if MasterLine(intf, a) == MasterLine(intf, b) {
      SameTail("ip link set " + intf + " master ", a, b);
    }
  }

  /** The tokens of a master record. */
  lemma TokensOf(name: string, kind: string)
    requires '|' !in kind && ' ' !in name && ' ' !in kind
    ensures var token := Split(name + "|" + kind, '|');
      && |token| >= 2 && ' ' !in token[0] && '|' !in token[0]
      && ('|' !in name ==> token == [name, kind])
  {
    var text := name + "|" + kind;
    TwoTokens(name, kind);
    SplitParts(text, '|');
    assert Split(text, '|')[0] in Split(text, '|');
    if '|' !in name {
      SplitCons(name, '|', kind);
      SplitOne(kind, '|');
    }
  }

  lemma MasterNameOK(intf: string, table: LinkTable, h: seq<Event>)
    requires HistoryOK(table, h)
    requires RelationAfter(table, h, intf).Some?
    ensures ' ' !in RelationAfter(table, h, intf).value.name
  {
    var e := RelationEvent(table, h, intf);
    assert EventOK(table, e);
  }

  lemma {:induction false} SaidMember(es: seq<Effect>, line: string)
    requires Say(line) in es
    ensures line in Said(es)
  {
    var init := es[..|es| - 1];
    if Say(line) in init {
      SaidMember(init, line);
    } else {
      assert es[|es| - 1] == Say(line);
    }
  }

  lemma {:induction false} EffectMember(path: string, table: LinkTable, h: seq<Event>, e: Event, x: Effect)
    requires e in h && x in EffectsOf(path, table, e)
    ensures x in Effects(path, table, h)
  {
    hide EffectsOf;
    if e in h[..|h| - 1] {
      EffectMember(path, table, h[..|h| - 1], e, x);
    }
  }

  lemma MasterIsSaid(intf: string, path: string, table: LinkTable, h: seq<Event>)
    requires HistoryOK(table, h)
    requires RelationAfter(table, h, intf).Some? && !RelationAfter(table, h, intf).value.Below?
    ensures MasterLine(intf, RelationAfter(table, h, intf).value.name)
         in ScanLines(Run(Fresh(path), Effects(path, table, h)).script)
  {
    var line := MasterLine(intf, RelationAfter(table, h, intf).value.name);
    var e := RelationEvent(table, h, intf);
    EnslaverSays(path, table, e, intf);
    EffectMember(path, table, h, e, Say(line));
    RunTidy(path, table, h);
    hide Run, Effects, RelationAfter, EffectsOf, RelationFrom;
    SaidMember(Effects(path, table, h), line);
    ScriptLines(path, Effects(path, table, h));
  }

  lemma EnslaverSays(path: string, table: LinkTable, e: Event, intf: string)
    requires RelationFrom(table, e, intf).Some? && !RelationFrom(table, e, intf).value.Below?
    ensures Say(MasterLine(intf, RelationFrom(table, e, intf).value.name)) in EffectsOf(path, table, e)
  {
    hide CreateEffects, UpLine;
    var link := e.link;
    assert Say(MasterLine(intf, table[link.master].name)) in MasterEffects(path, table, link);
  }

  /** The same run ends with the interface taken down, put under its master and
      taken up again. */
  lemma MasterEndsExactly(intf: string, path: string, cpath: string, table: LinkTable, h: seq<Event>)
    requires NameOK(intf) && HistoryOK(table, h) && !Hidden(intf)
    requires RelationAfter(table, h, intf).Some? && !RelationAfter(table, h, intf).value.Below?
    ensures var files, master := SavedFiles(path, cpath, table, h), RelationAfter(table, h, intf).value.name;
      && Tokened(files, cpath, intf)
      && ('|' !in master ==>
            EndsWith(PerInterface(files, cpath, intf),
                     ["ip link set " + intf + " down", "ip link set " + intf + " master " + master, "ip link set " + intf + " up"]))
  {
    hide SavedFiles, RelationAfter, Tokened, PerInterface, Masters, MasterCommands, Split, HistoryOK, NameOK,
      MasterTokens, EndsWith;
    var files, relation := SavedFiles(path, cpath, table, h), RelationAfter(table, h, intf).value;
    MasterNameOK(intf, table, h);
    var front := SavedMasterStep(intf, path, cpath, table, h);
    if '|' !in relation.name {
      MasterStepEnds(files, cpath, intf, relation.name, KindOf(relation), front);
    }
  }

  lemma MasterStepEnds(files: map<string, string>, path: string, intf: string, name: string, kind: string, front: seq<string>)
    requires Tokened(files, path, intf) && '|' !in name && ' ' !in name && (kind == "bridge" || kind == "bond")
    requires MasterTokens(files, path, intf) == Split(name + "|" + kind, '|')
    ensures EndsWith(front + MasterCommands(files, path, intf),
                     ["ip link set " + intf + " down", "ip link set " + intf + " master " + name, "ip link set " + intf + " up"])
  {
    hide Tokened, Split, MasterTokens, BridgeCommands, BondCommands, MasterCommands, EndsWith;
    TokensOf(name, kind);
    var made := if kind == "bridge" then BridgeCommands(name) else BondCommands(files, path, name);
    EnslavingCommands(files, path, intf, name, kind);
    EndsAppend(front, made, SetMasterCommands(intf, name));
  }

  lemma EnslavingCommands(files: map<string, string>, path: string, intf: string, name: string, kind: string)
    requires Tokened(files, path, intf) && (kind == "bridge" || kind == "bond")
    requires MasterTokens(files, path, intf) == [name, kind]
    ensures MasterCommands(files, path, intf)
         == (if kind == "bridge" then BridgeCommands(name) else BondCommands(files, path, name)) + SetMasterCommands(intf, name)
  {
    hide Tokened, MasterTokens, BridgeCommands, BondCommands, SetMasterCommands, VxlanCommands;
  }

  lemma BelowCommands(files: map<string, string>, path: string, intf: string, name: string, lines: seq<string>)
    requires Tokened(files, path, intf) && MasterTokens(files, path, intf) == [name, "vxlan"]
    requires lines == LinesOf(files, path, name, InfoFile)
    ensures forall line :: line in lines ==> |Split(line, '|')| >= 3
    ensures MasterCommands(files, path, intf) == VxlanCommands(name, lines)
  {
    hide MasterTokens, BridgeCommands, BondCommands, SetMasterCommands, VxlanCommands, LinesOf, Split;
  }

  lemma EndsAppend(front: seq<string>, made: seq<string>, tail: seq<string>)
    ensures EndsWith(front + (made + tail), tail)
  {
    assert front + (made + tail) == (front + made) + tail;
  }

  predicate EndsWith(lines: seq<string>, tail: seq<string>) {
    |lines| >= |tail| && lines[|lines| - |tail|..] == tail
  }

  /** For every run that is saved and left an interface below a VxLAN link: apply
      of the interface ends with adding that link as it was last saved, and sets no
      master. */
  lemma VxlanReadAgainExactly(intf: string, path: string, cpath: string, table: LinkTable, h: seq<Event>)
    requires NameOK(intf) && HistoryOK(table, h) && !Hidden(intf)
    requires RelationAfter(table, h, intf).Some? && RelationAfter(table, h, intf).value.Below?
    ensures var files, name := SavedFiles(path, cpath, table, h), RelationAfter(table, h, intf).value.name;
      var info := InfoAfter(table, h, name);
      && Tokened(files, cpath, intf)
      && ('|' !in name && !Hidden(name) && info.Some? && '|' !in info.value.src && '|' !in info.value.lower ==>
            && Masters(PerInterface(files, cpath, intf)) == []
            && EndsWith(PerInterface(files, cpath, intf),
                        ["ip link add " + name + " type vxlan id " + Dec(info.value.id) + " local " + info.value.src
                           + " dev " + info.value.lower + " dst 4789",
                         "ip link set " + name + " up"]))
  {
    assert ' ' !in intf;
    hide SavedFiles, RelationAfter, Tokened, PerInterface, Masters, MasterCommands, Split, HistoryOK, NameOK,
      MasterTokens, EndsWith, InfoAfter, LinesOf;
    var files, name := SavedFiles(path, cpath, table, h), RelationAfter(table, h, intf).value.name;
    var info := InfoAfter(table, h, name);
    MasterNameOK(intf, table, h);
    var front := SavedMasterStep(intf, path, cpath, table, h);
    SavedPuts(path, cpath, table, h, name);
    if '|' !in name && !Hidden(name) && info.Some? && '|' !in info.value.src && '|' !in info.value.lower {
      VxlanStepEnds(files, cpath, intf, name, info.value, front);
    }
  }

  lemma VxlanStepEnds(files: map<string, string>, path: string, intf: string, name: string, info: Info, front: seq<string>)
    requires Tokened(files, path, intf) && ' ' !in intf && '|' !in name && ' ' !in name
    requires '|' !in info.src && '|' !in info.lower
    requires MasterTokens(files, path, intf) == Split(name + "|" + "vxlan", '|') && Masters(front) == []
    requires [InfoTextOf(Some(info)).value] == LinesOf(files, path, name, InfoFile)
    ensures var cmds := front + MasterCommands(files, path, intf);
      && Masters(cmds) == []
      && EndsWith(cmds, ["ip link add " + name + " type vxlan id " + Dec(info.id) + " local " + info.src
                           + " dev " + info.lower + " dst 4789",
                         "ip link set " + name + " up"])
  {
    hide Split, Masters, Dec, LinesOf, MasterTokens, InfoTextOf, Tokened, MasterCommands, EndsWith, VxlanCommands;
    HasInfoText(info);
    var text := InfoTextOf(Some(info)).value;
    TokensOf(name, "vxlan");
    InfoTokens(info);
    MasterStepHas(files, path, intf);
    var commands := MasterCommands(files, path, intf);
    BelowCommands(files, path, intf, name, [text]);
    VxlanOne(name, text);
    MastersConcat(front, commands);
    assert [] + commands == commands;
    EndsAppend(front, [], commands);
  }

  lemma HasInfoText(info: Info)
    ensures InfoTextOf(Some(info)).Some?
  {
  }

  lemma VxlanOne(name: string, line: string)
    requires |Split(line, '|')| >= 3
    ensures forall r :: r in [line] ==> |Split(r, '|')| >= 3
    ensures var token := Split(line, '|');
      VxlanCommands(name, [line])
      == ["ip link add " + name + " type vxlan id " + token[0] + " local " + token[1] + " dev " + token[2] + " dst 4789",
          SetUp(name)]
  {
    assert [line][..0] == [];
  }

  lemma InfoTokens(info: Info)
    requires '|' !in info.src && '|' !in info.lower
    ensures Split(InfoTextOf(Some(info)).value, '|') == [Dec(info.id), info.src, info.lower]
  {
    var id := Dec(info.id);
    assert '|' !in id by {
      assert IsDigits(id) && !IsDigit('|');
    }
    InfoSplit(id, info.src, info.lower);
  }

  lemma InfoSplit(id: string, src: string, lower: string)
    requires '|' !in id && '|' !in src && '|' !in lower
    ensures Split(id + "|" + src + "|" + lower, '|') == [id, src, lower]
  {
    hide Split;
    SplitCons(id, '|', src + "|" + lower);
    SplitCons(src, '|', lower);
    SplitOne(lower, '|');
    ConcatAssociative(id + "|", src, "|" + lower);
    ConcatAssociative(id + "|" + src, "|", lower);
    assert src + "|" + lower == src + ("|" + lower);
    assert [id] + ([src] + [lower]) == [id, src, lower];
  }

  // ----- bond modes and MTUs -----

  lemma DecOneLine(n: nat)
    requires n < 0x1_0000_0000
    ensures OneLine(Dec(n))
  {
    DecPlain(n);
    hide Dec;
    PlainGood(Dec(n));
  }

  /** What is saved of a bond's mode is what apply gives the bond. */
  lemma BondReadBack(path: string, link: Link, files: map<string, string>, cpath: string, mode: string)
    requires link.kind.Bond? && link.kind.mode < 0x1_0000_0000
    requires Put(path + link.name, ModeFile, mode) in BondEffects(path, link)
    requires FileThere(files, cpath, link.name, ModeFile) && TextAt(files, PathOf(cpath + "/" + link.name, ModeFile)) == mode
    ensures BondCommands(files, cpath, link.name)
         == ["ip link add " + link.name + " type bond ",
             "ip link set " + link.name + " type bond mode " + Dec(link.kind.mode),
             "ip link set " + link.name + " up"]
  {
    DecOneLine(link.kind.mode);
    hide Dec, MtuLine, OneLine;
    assert mode == Dec(link.kind.mode);
    OnlyLine(files, cpath, link.name, ModeFile, mode);
    hide LinesOf;
  }

  /** So is an MTU. */
  lemma MtuReadBack(dir: string, link: Link, files: map<string, string>, cpath: string, mtu: string)
    requires link.mtu < 0x1_0000_0000 && Put(dir, MtuFile, mtu) in MtuEffects(dir, link)
    requires Tokened(files, cpath, link.name) && TextAt(files, PathOf(cpath + "/" + link.name, MtuFile)) == mtu
    ensures Output(files, cpath, link.name, Mtu) == ["ip link set dev " + link.name + " mtu " + Dec(link.mtu)]
  {
    DecOneLine(link.mtu);
    hide Dec, MtuLine, OneLine, Tokened;
    assert mtu == Dec(link.mtu);
    OnlyLine(files, cpath, link.name, MtuFile, mtu);
    hide LinesOf;
  }

  /** A tagged name is its parent, a dot and its VLAN id. */
  lemma ParentAndVlan(parent: string, vlan: string)
    requires '.' !in parent && '.' !in vlan
    ensures Parent(parent + "." + vlan) == parent && VlanId(parent + "." + vlan) == vlan
  {
    SplitCons(parent, '.', vlan);
    SplitOne(vlan, '.');
  }
}
