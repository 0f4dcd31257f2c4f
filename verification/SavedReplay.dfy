/** What a run leaves in the configuration directory, and what apply reads again
    of it, by the type of the interface. */
module SavedReplay {
  import opened Text
  import opened HwTexts
  import opened IntfDump
  import opened IntfReplay
  import opened IntfApply
  import opened DumpReplay
  import opened DumpTheorems
  import opened SubInterfaces

  // ----- the last text written afresh to a file -----

  function LastPut(dirs: set<string>, es: seq<Effect>, dir: string, base: File): Option<string> {
    if es == [] then None
    else
      var init, last := es[..|es| - 1], es[|es| - 1];
      if last.Put? && last.dir == dir && last.base == base && dir in Made(dirs, init) then Some(last.text)
      else LastPut(dirs, init, dir, base)
  }

  /** A file that no record goes to holds the last text put there. */
  lemma {:induction false} PutFile(path: string, es: seq<Effect>, dir: string, base: File)
    requires AllTidy(es) && !LogFile(base)
    ensures var files, last := Run(Fresh(path), es).files, LastPut({path}, es, dir, base);
      && (PathOf(dir, base) in files <==> last.Some?)
      && (last.Some? ==> files[PathOf(dir, base)] == last.value)
  {
    if es != [] {
      var init, last := es[..|es| - 1], es[|es| - 1];
      PutFile(path, init, dir, base);
      RunDirs(path, init);
      assert Tidy(last);
      PutStep(Run(Fresh(path), init), last, dir, base);
      hide PathOf, Tidy;
    }
  }

  lemma PutStep(d: Dump, e: Effect, dir: string, base: File)
    requires Tidy(e) && !LogFile(base)
    ensures var f, now := PathOf(dir, base), Apply(d, e).files;
      if e.Put? && e.dir == dir && e.base == base && dir in d.dirs then f in now && now[f] == e.text
      else (f in now <==> f in d.files) && (f in now ==> now[f] == d.files[f])
  {
    hide FileName;
    if (e.Put? || e.Log?) && PathOf(e.dir, e.base) == PathOf(dir, base) {
      PathsDistinct(e.dir, e.base, dir, base);
    }
  }

  lemma {:induction false} PutConcat(dirs: set<string>, a: seq<Effect>, b: seq<Effect>, dir: string, base: File)
    ensures LastPut(dirs, a + b, dir, base)
         == var last := LastPut(Made(dirs, a), b, dir, base);
            if last.Some? then last else LastPut(dirs, a, dir, base)
  {
    if b == [] {
      assert a + b == a;
    } else {
      var c := b[..|b| - 1];
      assert (a + b)[..|a + b| - 1] == a + c;
      PutConcat(dirs, a, c, dir, base);
      MadeConcat(dirs, a, c);
    }
  }

  lemma {:induction false} NothingPut(dirs: set<string>, es: seq<Effect>, dir: string, base: File)
    requires forall e :: e in es && e.Put? && e.base == base ==> e.dir != dir
    ensures LastPut(dirs, es, dir, base) == None
  {
    if es != [] {
      assert es[|es| - 1] in es;
      NothingPut(dirs, es[..|es| - 1], dir, base);
    }
  }

  lemma {:induction false} PutMember(dirs: set<string>, es: seq<Effect>, dir: string, base: File)
    requires LastPut(dirs, es, dir, base).Some?
    ensures Put(dir, base, LastPut(dirs, es, dir, base).value) in es
  {
    var init, last := es[..|es| - 1], es[|es| - 1];
    if !(last.Put? && last.dir == dir && last.base == base && dir in Made(dirs, init)) {
      PutMember(dirs, init, dir, base);
    }
  }

  /** A directory that is made and typed at once. */
  lemma TypedAtOnce(dirs: set<string>, front: seq<Effect>, made: string, text: string, back: seq<Effect>, dir: string)
    requires forall e :: e in front + back && e.Put? ==> e.base != TypeFile
    ensures LastPut(dirs, front + [Mkdir(made), Put(made, TypeFile, text)] + back, dir, TypeFile)
         == if made == dir then Some(text) else None
  {
    var mid := [Mkdir(made), Put(made, TypeFile, text)];
    NothingPut(dirs, front, dir, TypeFile);
    NothingPut(Made(dirs, front + mid), back, dir, TypeFile);
    PutConcat(dirs, front, mid, dir, TypeFile);
    PutConcat(dirs, front + mid, back, dir, TypeFile);
    var now := Made(dirs, front);
    assert mid[..1] == [Mkdir(made)] && [Mkdir(made)][..0] == [];
    assert made in Made(now, mid[..1]);
    assert LastPut(now, mid[..1], dir, TypeFile) == None;
  }

  // ----- the type a run leaves an interface with -----

  function OwnType(link: Link): string {
    if link.kind.Bridge? then "bridge"
    else if '.' in link.name then "subintf"
    else if link.kind.Vxlan? then "vxlan"
    else if link.kind.Bond? then "bond"
    else "phy"
  }

  /** The type an event gives intf: its own, or that of the device under a VxLAN
      link, which is a bridge or passes for a physical port. */
  function TypeFrom(table: LinkTable, e: Event, intf: string): Option<string> {
    if !Houses(table, e, intf) then None
    else if OnLower(table, e.link) && table[e.link.kind.vtep].name == intf then
      Some(if table[e.link.kind.vtep].kind.Bridge? then "bridge" else "phy")
    else Some(OwnType(e.link))
  }

  function TypeAfter(table: LinkTable, h: seq<Event>, intf: string): Option<string> {
    if h == [] then None
    else
      var last := TypeFrom(table, h[|h| - 1], intf);
      if last.Some? then last else TypeAfter(table, h[..|h| - 1], intf)
  }

  lemma {:induction false} TypesKnown(table: LinkTable, h: seq<Event>, intf: string)
    ensures TypeAfter(table, h, intf).Some? ==>
      TypeAfter(table, h, intf).value in {"phy", "bond", "subintf", "bridge", "vxlan"}
  {
    hide Houses, OnLower;
    if h != [] {
      TypesKnown(table, h[..|h| - 1], intf);
    }
  }

  predicate IsLastHouse(table: LinkTable, h: seq<Event>, intf: string, i: nat) {
    i < |h| && Houses(table, h[i], intf) && forall j :: i < j < |h| ==> !Houses(table, h[j], intf)
  }

  /** The last event that makes the directory decides the type. */
  lemma {:induction false} LastHouseDecides(table: LinkTable, h: seq<Event>, intf: string, i: nat)
    requires IsLastHouse(table, h, intf, i)
    ensures TypeAfter(table, h, intf) == TypeFrom(table, h[i], intf) && TypeAfter(table, h, intf).Some?
  {
    hide Houses, OnLower;
    var n := |h| - 1;
    if i < n {
      assert IsLastHouse(table, h[..n], intf, i);
      LastHouseDecides(table, h[..n], intf, i);
    }
  }

  /** An interface has a type exactly when an event made its directory. */
  lemma {:induction false} TypedExactly(table: LinkTable, h: seq<Event>, intf: string)
    ensures TypeAfter(table, h, intf).Some? <==> exists i :: 0 <= i < |h| && Houses(table, h[i], intf)
  {
    hide Houses, OnLower;
    if h != [] {
      var n := |h| - 1;
      TypedExactly(table, h[..n], intf);
      assert forall i :: 0 <= i < n ==> h[..n][i] == h[i];
    }
  }

  /** A VxLAN link makes a physical port of whatever it lies on but a bridge: of
      a VxLAN link, whose own entries are then not read again, and of a
      sub-interface, whose entries only then are. */
  lemma VxlanRetypes(table: LinkTable, h: seq<Event>, link: Link)
    requires OnLower(table, link) && !table[link.kind.vtep].kind.Bridge?
    ensures var intf, now := table[link.kind.vtep].name, h + [LinkEvent(link)];
      && TypeAfter(table, now, intf) == Some("phy")
      && !ReadAgain(VxFdbEntries, table, now, intf)
      && (ReadAgain(L2FdbEntries, table, now, intf) <==> !Hidden(intf))
  {
    var now := h + [LinkEvent(link)];
    assert now[..|now| - 1] == h;
  }

  lemma BridgeType(path: string, dirs: set<string>, link: Link, dir: string)
    ensures LastPut(dirs, BridgeEffects(path, link), dir, TypeFile)
         == if path + link.name == dir then Some("bridge") else None
  {
    hide UpLine, LastPut;
    var front := [Say("ip link add " + link.name + " type bridge")] + UpIf(link.up, link.name);
    TypedAtOnce(dirs, front, path + link.name, "bridge", [], dir);
    assert front + [Mkdir(path + link.name), Put(path + link.name, TypeFile, "bridge")] + [] == BridgeEffects(path, link);
  }

  lemma TaggedType(path: string, dirs: set<string>, link: Link, dir: string)
    requires '.' in link.name
    ensures LastPut(dirs, TaggedEffects(path, link), dir, TypeFile)
         == if path + link.name == dir then Some("subintf") else None
  {
    hide UpLine, VlanLine, Parent, VlanId, LastPut;
    var made, lower, vid := path + link.name, Parent(link.name), VlanId(link.name);
    var front := [Say(VlanLine(link.name))] + UpIf(link.up, lower);
    var back := [Put(made, RealFile, lower + " type vlan id " + vid),
      Log(path + lower, SubIntfFile, link.name + "|" + lower + "|" + vid)];
    TypedAtOnce(dirs, front, made, "subintf", back, dir);
    assert front + [Mkdir(made), Put(made, TypeFile, "subintf")] + back == TaggedEffects(path, link);
  }

  lemma VxlanType(path: string, dirs: set<string>, link: Link, lower: Link, dir: string)
    requires link.kind.Vxlan?
    ensures LastPut(dirs, VxlanEffects(path, link, lower), dir, TypeFile)
         == if path + lower.name == dir then Some(if lower.kind.Bridge? then "bridge" else "phy")
            else if path + link.name == dir then Some("vxlan") else None
  {
    hide UpLine, VxlanLine, Dec, LastPut;
    var made := path + link.name;
    var front := [Say(VxlanLine(link, lower)), Say(UpLine(link.name))];
    var info := [Put(made, InfoFile, Dec(link.kind.id) + "|" + link.kind.src + "|" + lower.name)];
    var own := front + [Mkdir(made), Put(made, TypeFile, "vxlan")] + info;
    TypedAtOnce(dirs, front, made, "vxlan", info, dir);
    LowerType(path, Made(dirs, own), link, lower, dir);
    PutConcat(dirs, own, LowerEffects(path, link, lower), dir, TypeFile);
    assert own + LowerEffects(path, link, lower) == VxlanEffects(path, link, lower);
  }

  lemma LowerType(path: string, dirs: set<string>, link: Link, lower: Link, dir: string)
    ensures LastPut(dirs, LowerEffects(path, link, lower), dir, TypeFile)
         == if path + lower.name == dir then Some(if lower.kind.Bridge? then "bridge" else "phy") else None
  {
    hide LastPut;
    var made, text := path + lower.name, if lower.kind.Bridge? then "bridge" else "phy";
    var back := [Put(made, MasterFile, link.name + "|vxlan")];
    TypedAtOnce(dirs, [], made, text, back, dir);
    assert [] + [Mkdir(made), Put(made, TypeFile, text)] + back == LowerEffects(path, link, lower);
  }

  lemma DeviceType(path: string, dirs: set<string>, link: Link, dir: string)
    ensures LastPut(dirs, DeviceEffects(path, link), dir, TypeFile)
         == if path + link.name == dir then Some("phy") else None
    ensures link.kind.Bond? ==>
      LastPut(dirs, BondEffects(path, link), dir, TypeFile) == if path + link.name == dir then Some("bond") else None
  {
    hide LastPut, Dec, MtuLine;
    var made := path + link.name;
    var mtu := MtuEffects(made, link);
    TypedAtOnce(dirs, [], made, "phy", mtu, dir);
    assert [] + [Mkdir(made), Put(made, TypeFile, "phy")] + mtu == DeviceEffects(path, link);
    if link.kind.Bond? {
      var front := [Say("ip link add " + link.name + " type bond"),
        Say("ip link set " + link.name + " type bond mode " + link.kind.modeName)];
      var mode := [Put(made, ModeFile, Dec(link.kind.mode))];
      TypedAtOnce(dirs, front, made, "bond", mode + mtu, dir);
      assert front + [Mkdir(made), Put(made, TypeFile, "bond")] + (mode + mtu) == BondEffects(path, link);
    }
  }

  lemma OtherPutsNothing(path: string, table: LinkTable, dirs: set<string>, e: Event, dir: string)
    requires !e.LinkEvent?
    ensures LastPut(dirs, EffectsOf(path, table, e), dir, TypeFile) == None
  {
    hide HwText, HwAddr.Front, SavedFdb;
    NothingPut(dirs, EffectsOf(path, table, e), dir, TypeFile);
  }

  /** What each event leaves in the type file of intf. */
  lemma TypeOfEvent(path: string, table: LinkTable, dirs: set<string>, e: Event, intf: string)
    ensures LastPut(dirs, EffectsOf(path, table, e), path + intf, TypeFile) == TypeFrom(table, e, intf)
  {
    var dir := path + intf;
    hide LastPut;
    if !e.LinkEvent? {
      OtherPutsNothing(path, table, dirs, e, dir);
    } else {
      SameInDir(path, e.link.name, intf);
      if e.link.kind.Bridge? {
        BridgeType(path, dirs, e.link, dir);
      } else if CreateFails(table, e.link) {
        NothingPut(dirs, [], dir, TypeFile);
      } else {
        var made, up, master := CreateEffects(path, table, e.link), UpIf(e.link.up, e.link.name),
          MasterEffects(path, table, e.link);
        CreatedType(path, table, dirs, e.link, intf);
        hide CreateEffects, UpLine;
        NothingPut(Made(dirs, made), up, dir, TypeFile);
        NothingPut(Made(dirs, made + up), master, dir, TypeFile);
        PutConcat(dirs, made, up, dir, TypeFile);
        PutConcat(dirs, made + up, master, dir, TypeFile);
      }
    }
  }

  lemma CreatedType(path: string, table: LinkTable, dirs: set<string>, link: Link, intf: string)
    requires !link.kind.Bridge? && !CreateFails(table, link)
    ensures LastPut(dirs, CreateEffects(path, table, link), path + intf, TypeFile) == TypeFrom(table, LinkEvent(link), intf)
  {
    hide LastPut, TaggedEffects, VxlanEffects, BondEffects, DeviceEffects;
    SameInDir(path, link.name, intf);
    if '.' in link.name {
      TaggedType(path, dirs, link, path + intf);
    } else if link.kind.Vxlan? {
      SameInDir(path, table[link.kind.vtep].name, intf);
      VxlanType(path, dirs, link, table[link.kind.vtep], path + intf);
    } else {
      DeviceType(path, dirs, link, path + intf);
    }
  }

  lemma {:induction false} TypeOfRun(path: string, table: LinkTable, h: seq<Event>, intf: string)
    ensures LastPut({path}, Effects(path, table, h), path + intf, TypeFile) == TypeAfter(table, h, intf)
  {
    hide EffectsOf, TypeFrom;
    if h != [] {
      var init, last := h[..|h| - 1], h[|h| - 1];
      var before := Effects(path, table, init);
      TypeOfRun(path, table, init, intf);
      PutConcat({path}, before, EffectsOf(path, table, last), path + intf, TypeFile);
      TypeOfEvent(path, table, Made({path}, before), last, intf);
    }
  }

  /** After any run the type file of an interface names the type that the last
      event on it gave it, and is there exactly when one did. */
  lemma FinalType(path: string, table: LinkTable, h: seq<Event>, intf: string)
    requires HistoryOK(table, h)
    ensures var files, f := Run(Fresh(path), Effects(path, table, h)).files, PathOf(path + intf, TypeFile);
      && (f in files <==> TypeAfter(table, h, intf).Some?)
      && (f in files ==> files[f] == TypeAfter(table, h, intf).value)
  {
    hide HistoryOK, Effects, Run, PathOf, LastPut, TypeAfter;
    RunTidy(path, table, h);
    PutFile(path, Effects(path, table, h), path + intf, TypeFile);
    TypeOfRun(path, table, h, intf);
  }

  lemma RunTidy(path: string, table: LinkTable, h: seq<Event>)
    requires HistoryOK(table, h)
    ensures AllTidy(Effects(path, table, h))
  {
    HistoryAgrees(Addrs, "", path, table, h);
  }

  // ----- the tokens the readers ask for -----

  /** A text of one line. */
  predicate OneLine(t: string) { t != "" && GoodLine(t) }

  lemma ScanOne(t: string)
    requires OneLine(t)
    ensures ScanLines(t) == [t]
  {
    SplitOne(t, '\n');
  }

  predicate HasTokens(t: string, n: nat) { |Split(t, '|')| >= n }

  predicate Tokens(e: Effect) {
    match e
    case Put(_, base, t) =>
      (base == MasterFile ==> OneLine(t) && HasTokens(t, 2)) && (base == InfoFile ==> OneLine(t) && HasTokens(t, 3))
    case Log(_, base, line) => base == SubIntfFile ==> HasTokens(line, 3)
    case _ => true
  }

  predicate AllTokens(es: seq<Effect>) { forall e :: e in es ==> Tokens(e) }

  lemma TwoTokens(a: string, b: string)
    ensures HasTokens(a + "|" + b, 2)
  {
    SplitConcat(a, '|', b);
  }

  lemma ThreeTokens(a: string, b: string, c: string)
    ensures HasTokens(a + "|" + b + "|" + c, 3)
  {
    SplitConcat(a + "|" + b, '|', c);
    SplitConcat(a, '|', b);
  }

  lemma MasterText(name: string, kind: string)
    requires NameOK(name) && Plain(kind) && |kind| < 100
    ensures OneLine(name + "|" + kind) && HasTokens(name + "|" + kind, 2)
  {
    TwoTokens(name, kind);
    PlainConcat(name, "|");
    PlainConcat(name + "|", kind);
    PlainGood(name + "|" + kind);
  }

  lemma InfoText(id: nat, src: string, name: string)
    requires id < 0x1_0000_0000 && TextOK(src) && NameOK(name)
    ensures OneLine(Dec(id) + "|" + src + "|" + name) && HasTokens(Dec(id) + "|" + src + "|" + name, 3)
  {
    var t := Dec(id);
    DecPlain(id);
    ThreeTokens(t, src, name);
    hide Dec;
    PlainConcat(t, "|");
    PlainConcat(t + "|", src);
    PlainConcat(t + "|" + src, "|");
    PlainConcat(t + "|" + src + "|", name);
    PlainGood(t + "|" + src + "|" + name);
  }

  lemma VxlanTokens(path: string, link: Link, lower: Link)
    requires link.kind.Vxlan? && NameOK(link.name) && NameOK(lower.name)
    requires link.kind.id < 0x1_0000_0000 && TextOK(link.kind.src)
    ensures AllTokens(VxlanEffects(path, link, lower))
  {
    InfoText(link.kind.id, link.kind.src, lower.name);
    MasterText(link.name, "vxlan");
    assert "|" + "vxlan" == "|vxlan";
    ConcatAssociative(link.name, "|", "vxlan");
    hide VxlanLine, UpLine, Dec, OneLine, HasTokens;
  }

  lemma EnslaveTokens(path: string, table: LinkTable, link: Link)
    requires LinkOK(table, link)
    ensures AllTokens(MasterEffects(path, table, link))
  {
    if link.master > 0 && link.master in table {
      var name := table[link.master].name;
      MasterText(name, "bridge");
      MasterText(name, "bond");
      assert "|" + "bridge" == "|bridge" && "|" + "bond" == "|bond";
      ConcatAssociative(name, "|", "bridge");
      ConcatAssociative(name, "|", "bond");
      hide UpLine, OneLine, HasTokens;
    }
  }

  lemma CreateTokens(path: string, table: LinkTable, link: Link)
    requires LinkOK(table, link) && !link.kind.Bridge? && !CreateFails(table, link)
    ensures AllTokens(CreateEffects(path, table, link))
  {
    if '.' in link.name {
      ThreeTokens(link.name, Parent(link.name), VlanId(link.name));
      hide VlanLine, UpLine, Parent, VlanId, OneLine, HasTokens;
    } else if link.kind.Vxlan? {
      VxlanTokens(path, link, table[link.kind.vtep]);
    } else {
      hide MtuLine, Dec, OneLine, HasTokens;
    }
  }

  lemma EventTokens(path: string, table: LinkTable, e: Event)
    requires EventOK(table, e)
    ensures AllTokens(EffectsOf(path, table, e))
  {
    if !e.LinkEvent? {
      hide HwText, HwAddr.Front, SavedFdb, OneLine, HasTokens;
    } else if !e.link.kind.Bridge? && !CreateFails(table, e.link) {
      CreateTokens(path, table, e.link);
      EnslaveTokens(path, table, e.link);
      hide CreateEffects, MasterEffects, OneLine, HasTokens;
    } else {
      hide OneLine, HasTokens, UpLine;
    }
  }

  lemma {:induction false} RunTokens(path: string, table: LinkTable, h: seq<Event>)
    requires HistoryOK(table, h)
    ensures AllTokens(Effects(path, table, h))
  {
    hide EffectsOf, Tokens, EventOK;
    if h != [] {
      RunTokens(path, table, h[..|h| - 1]);
      EventTokens(path, table, h[|h| - 1]);
    }
  }

  lemma {:induction false} KeptMember(dirs: set<string>, es: seq<Effect>, dir: string, base: File, r: string)
    requires r in Kept(dirs, es, dir, base)
    ensures Log(dir, base, r) in es
  {
    var init, last := es[..|es| - 1], es[|es| - 1];
    if r in Kept(dirs, init, dir, base) {
      KeptMember(dirs, init, dir, base, r);
    }
  }

  /** What the configuration directory holds after a run, as the readers see it. */
  function SavedFiles(path: string, cpath: string, table: LinkTable, h: seq<Event>): map<string, string> {
    CopyOf(Run(Fresh(path), Effects(path, table, h)).files, path, cpath)
  }

  lemma SavedText(path: string, cpath: string, table: LinkTable, h: seq<Event>, intf: string, base: File)
    ensures TextAt(SavedFiles(path, cpath, table, h), PathOf(cpath + "/" + intf, base))
         == if Hidden(intf) then ""
            else TextAt(Run(Fresh(path), Effects(path, table, h)).files, PathOf(path + intf, base))
  {
    CopyAt(Run(Fresh(path), Effects(path, table, h)).files, path, cpath, intf, base);
  }

  lemma NoLines(files: map<string, string>, path: string, intf: string, base: File)
    requires TextAt(files, PathOf(path + "/" + intf, base)) == ""
    ensures LinesOf(files, path, intf, base) == []
  {
  }

  /** A saved file that no record goes to has no line, or the one that was put there. */
  lemma SavedLine(path: string, cpath: string, table: LinkTable, h: seq<Event>, intf: string, base: File)
    requires HistoryOK(table, h) && (base == MasterFile || base == InfoFile)
    ensures var lines := LinesOf(SavedFiles(path, cpath, table, h), cpath, intf, base);
      lines == [] || (|lines| == 1 && HasTokens(lines[0], if base == InfoFile then 3 else 2))
  {
    var es := Effects(path, table, h);
    var last := LastPut({path}, es, path + intf, base);
    RunTidy(path, table, h);
    RunTokens(path, table, h);
    PutFile(path, es, path + intf, base);
    SavedText(path, cpath, table, h, intf, base);
    hide Effects, Run, PathOf, SavedFiles, HasTokens, OneLine, LastPut;
    if Hidden(intf) || last.None? {
      NoLines(SavedFiles(path, cpath, table, h), cpath, intf, base);
    } else {
      PutMember({path}, es, path + intf, base);
      assert Tokens(Put(path + intf, base, last.value));
      ScanOne(last.value);
    }
  }

  lemma SavedRecords(path: string, cpath: string, table: LinkTable, h: seq<Event>, intf: string, base: File)
    requires HistoryOK(table, h) && LogFile(base)
    ensures LinesOf(SavedFiles(path, cpath, table, h), cpath, intf, base)
         == if Hidden(intf) then [] else Kept({path}, Effects(path, table, h), path + intf, base)
  {
    RunTidy(path, table, h);
    FileLines(path, Effects(path, table, h), path + intf, base);
    SavedText(path, cpath, table, h, intf, base);
    hide Effects, Run, PathOf, SavedFiles;
    if Hidden(intf) {
      NoLines(SavedFiles(path, cpath, table, h), cpath, intf, base);
    }
  }

  lemma SavedSubTokens(path: string, cpath: string, table: LinkTable, h: seq<Event>, intf: string)
    requires HistoryOK(table, h)
    ensures forall r :: r in LinesOf(SavedFiles(path, cpath, table, h), cpath, intf, SubIntfFile) ==> HasTokens(r, 3)
  {
    var files, es := SavedFiles(path, cpath, table, h), Effects(path, table, h);
    RunTokens(path, table, h);
    SavedRecords(path, cpath, table, h, intf, SubIntfFile);
    hide LinesOf, SavedFiles, Effects, HasTokens, Kept;
    forall r | r in LinesOf(files, cpath, intf, SubIntfFile) ensures HasTokens(r, 3) {
      KeptMember({path}, es, path + intf, SubIntfFile, r);
      assert Tokens(Log(path + intf, SubIntfFile, r));
    }
  }

  /** After a save no reader misses a token. */
  lemma SavedTokened(path: string, cpath: string, table: LinkTable, h: seq<Event>, intf: string)
    requires HistoryOK(table, h)
    ensures Tokened(SavedFiles(path, cpath, table, h), cpath, intf)
  {
    var files := SavedFiles(path, cpath, table, h);
    SavedSubTokens(path, cpath, table, h, intf);
    SavedLine(path, cpath, table, h, intf, MasterFile);
    var master := MasterTokens(files, cpath, intf);
    if master != [] {
      SavedLine(path, cpath, table, h, master[0], InfoFile);
    }
    hide LinesOf, SavedFiles, Split;
  }

  // ----- which commands are about the records of a kind -----

  lemma {:induction false} SelectedNone(k: Kind, intf: string, lines: seq<string>)
    requires forall line :: line in lines ==> !IsLineOf(k, intf, line)
    ensures Selected(k, intf, lines) == []
  {
    hide IsLineOf;
    if lines != [] {
      assert lines[|lines| - 1] in lines;
      SelectedNone(k, intf, lines[..|lines| - 1]);
    }
  }

  lemma IpLinkQuiet(k: Kind, intf: string, line: string)
    requires !k.SubIntfs? && "ip link " <= line
    ensures !IsLineOf(k, intf, line)
  {
    assert line[0] == 'i' && line[3] == 'l';
    assert Before(k)[0] != 'i' || Before(k)[3] != 'l';
    if IsLineOf(k, intf, line) {
      StartsBefore(k, intf, line);
    }
  }

  lemma SetQuiet(k: Kind, intf: string, line: string)
    requires "ip link set " <= line
    ensures !IsLineOf(k, intf, line)
  {
    LinkLineQuiet(k, intf, line);
  }

  /** A VLAN line ends with its id, behind a word that is none of the ones the
      other links are added with. */
  lemma VlanEnd(name: string, front: string, word: string)
    requires VlanLineOf(name, front + " " + word) && ' ' !in word
    ensures EndsIn(front, " id")
  {
    Pieces(name);
    var p, v := Parent(name), VlanId(name);
    assert ' ' !in v;
    var head := "ip link add " + name + " link " + p + " type vlan id";
    hide Parent, VlanId, NameOK;
    assert " type vlan id " == " type vlan id" + " ";
    assert VlanLine(name) == head + " " + v;
    LastAt(head, ' ', v);
    LastAt(front, ' ', word);
    assert head == front;
    assert head == "ip link add " + name + " link " + p + " type vlan" + " id";
  }

  lemma AddedQuiet(k: Kind, intf: string, line: string, front: string, word: string)
    requires "ip link add " <= line && line == front + " " + word && ' ' !in word && !EndsIn(front, " id")
    ensures !IsLineOf(k, intf, line)
  {
    if k.SubIntfs? {
      forall name ensures !VlanLineOf(name, line) {
        if VlanLineOf(name, line) {
          VlanEnd(name, front, word);
        }
      }
    } else {
      IpLinkQuiet(k, intf, line);
    }
  }

  lemma TypeAddedQuiet(k: Kind, intf: string, name: string)
    ensures !IsLineOf(k, intf, "ip link add " + name + " type bridge ")
    ensures !IsLineOf(k, intf, "ip link add " + name + " type bond ")
  {
    hide IsLineOf;
    var bridge, bond := "ip link add " + name + " type bridge", "ip link add " + name + " type bond";
    assert bridge[|bridge| - 1] == 'e' && bond[|bond| - 2] == 'n';
    assert "ip link add " + name + " type bridge " == bridge + " " + "";
    assert "ip link add " + name + " type bond " == bond + " " + "";
    AddedQuiet(k, intf, bridge + " " + "", bridge, "");
    AddedQuiet(k, intf, bond + " " + "", bond, "");
  }

  lemma VxlanAddedQuiet(k: Kind, intf: string, name: string, a: string, b: string, c: string)
    ensures !IsLineOf(k, intf, "ip link add " + name + " type vxlan id " + a + " local " + b + " dev " + c + " dst 4789")
  {
    hide IsLineOf;
    var head := "ip link add " + name + " type vxlan id " + a + " local " + b + " dev " + c;
    var front := head + " dst";
    assert front[|front| - 1] == 't';
    assert head + " dst 4789" == front + " " + "4789";
    VxlanStart(name, a, b, c);
    AddedQuiet(k, intf, front + " " + "4789", front, "4789");
  }

  lemma VxlanStart(name: string, a: string, b: string, c: string)
    ensures "ip link add " <= "ip link add " + name + " type vxlan id " + a + " local " + b + " dev " + c + " dst 4789"
  {
    var s := "ip link add " + name;
    assert "ip link add " <= s;
  }

  ghost predicate SaysNothing(k: Kind, intf: string, lines: seq<string>) {
    forall line :: line in lines ==> !IsLineOf(k, intf, line)
  }

  lemma {:induction false} VxlanSaysNothing(k: Kind, intf: string, name: string, lines: seq<string>)
    requires forall line :: line in lines ==> |Split(line, '|')| >= 3
    ensures SaysNothing(k, intf, VxlanCommands(name, lines))
  {
    if lines != [] {
      var init, token := lines[..|lines| - 1], Split(lines[|lines| - 1], '|');
      VxlanSaysNothing(k, intf, name, init);
      VxlanAddedQuiet(k, intf, name, token[0], token[1], token[2]);
      SetQuiet(k, intf, SetUp(name));
      hide IsLineOf, Split;
    }
  }

  lemma {:induction false} RoutesSayNothing(k: Kind, intf: string, lines: seq<string>)
    ensures SaysNothing(k, intf, RouteCommands(lines))
  {
    if lines != [] {
      var line := "ip route replace " + lines[|lines| - 1] + " proto static";
      RoutesSayNothing(k, intf, lines[..|lines| - 1]);
      assert line[0] == 'i' && line[3] == 'r';
      assert Before(k)[0] != 'i' || Before(k)[3] != 'r';
      if IsLineOf(k, intf, line) {
        StartsBefore(k, intf, line);
      }
      hide IsLineOf;
    }
  }

  lemma SetMasterSaysNothing(k: Kind, intf: string, name: string, master: string)
    ensures SaysNothing(k, intf, SetMasterCommands(name, master))
  {
    SetQuiet(k, intf, "ip link set " + name + " down");
    SetQuiet(k, intf, "ip link set " + name + " master " + master);
    SetQuiet(k, intf, SetUp(name));
    hide IsLineOf;
  }

  lemma BridgeSaysNothing(k: Kind, intf: string, name: string)
    ensures SaysNothing(k, intf, BridgeCommands(name))
  {
    TypeAddedQuiet(k, intf, name);
    SetQuiet(k, intf, SetUp(name));
    hide IsLineOf;
  }

  lemma BondModeQuiet(k: Kind, intf: string, name: string, mode: string)
    ensures !IsLineOf(k, intf, "ip link set " + name + " type bond mode " + mode)
  {
    var line := "ip link set " + name + " type bond mode ";
    assert "ip link set " <= line;
    SetQuiet(k, intf, line + mode);
  }

  lemma BondSaysNothing(k: Kind, intf: string, files: map<string, string>, path: string, name: string)
    ensures SaysNothing(k, intf, BondCommands(files, path, name))
  {
    hide IsLineOf, FirstOf, FileThere;
    var first := FirstOf(files, path, name, ModeFile);
    var mode := if first.Some? then first.value else "";
    TypeAddedQuiet(k, intf, name);
    SetQuiet(k, intf, SetUp(name));
    BondModeQuiet(k, intf, name, mode);
  }

  lemma MasterSaysNothing(k: Kind, intf: string, files: map<string, string>, path: string)
    requires Tokened(files, path, intf)
    ensures SaysNothing(k, intf, MasterCommands(files, path, intf))
  {
    var token := MasterTokens(files, path, intf);
    if token != [] {
      BridgeSaysNothing(k, intf, token[0]);
      BondSaysNothing(k, intf, files, path, token[0]);
      SetMasterSaysNothing(k, intf, intf, token[0]);
      if token[1] == "vxlan" {
        VxlanSaysNothing(k, intf, token[0], LinesOf(files, path, token[0], InfoFile));
      }
    }
    hide IsLineOf, LinesOf, Split, BridgeCommands, BondCommands, VxlanCommands, SetMasterCommands;
  }

  // ----- what each reader runs -----

  lemma {:induction false} OtherReader(k: Kind, intf: string, k2: Kind, records: seq<string>)
    requires NameOK(intf) && k != k2
    ensures SaysNothing(k, intf, WithTrailers(k2, intf, records))
  {
    if records != [] {
      var init, last := records[..|records| - 1], records[|records| - 1];
      OtherReader(k, intf, k2, init);
      if k2.SubIntfs? {
        SubCommandQuiet(k, intf, last);
      } else {
        CommandIsLineOf(k, intf, k2, intf, last);
      }
      hide IsLineOf, Command, Split, NameOK;
    }
  }

  lemma VlanPrefix(a: string, b: string, c: string)
    ensures "ip link " <= "ip link add " + a + " link " + b + " type vlan id " + c
  {
    assert "ip link " <= "ip link add " + a;
  }

  lemma SubCommandQuiet(k: Kind, intf: string, record: string)
    requires !k.SubIntfs?
    ensures SaysNothing(k, intf, [Command(SubIntfs, intf, record)] + Trailer(SubIntfs, record))
  {
    hide Split;
    var token := Split(record, '|');
    if |token| >= 3 {
      VlanPrefix(token[0], token[1], token[2]);
      IpLinkQuiet(k, intf, Command(SubIntfs, intf, record));
    } else {
      assert Before(k) != [];
      assert !IsLineOf(k, intf, "");
    }
    SetQuiet(k, intf, "ip link set " + token[0] + " up");
    hide IsLineOf, Command;
  }

  /** Of what a reader runs for its own records only the add commands count. */
  lemma {:induction false} OwnReader(k: Kind, intf: string, records: seq<string>)
    ensures Selected(k, intf, WithTrailers(k, intf, records)) == Selected(k, intf, Commands(k, intf, records))
  {
    if records != [] {
      var init, last := records[..|records| - 1], records[|records| - 1];
      OwnReader(k, intf, init);
      TrailerQuiet(k, intf, last);
      var add := Command(k, intf, last);
      hide IsLineOf, Command, Selected;
      SelectedConcat(k, intf, Commands(k, intf, init), [add]);
      SelectedConcat(k, intf, WithTrailers(k, intf, init), [add]);
      SelectedConcat(k, intf, WithTrailers(k, intf, init) + [add], Trailer(k, last));
    }
  }

  lemma TrailerQuiet(k: Kind, intf: string, r: string)
    ensures Selected(k, intf, Trailer(k, r)) == []
  {
    SetQuiet(k, intf, "ip link set " + Split(r, '|')[0] + " up");
    hide IsLineOf, Split;
    SelectedNone(k, intf, Trailer(k, r));
  }

  lemma OutputSays(files: map<string, string>, path: string, intf: string, step: Step, k: Kind)
    requires Tokened(files, path, intf) && NameOK(intf)
    ensures Selected(k, intf, Output(files, path, intf, step))
         == if step == Records(k) then Selected(k, intf, Commands(k, intf, LinesOf(files, path, intf, FileOf(k)))) else []
  {
    var out := Output(files, path, intf, step);
    hide Selected, LinesOf, Commands, NameOK;
    match step {
      case SetDev => SetQuiet(k, intf, SetUp(intf));
      case Mtu =>
        var mtu := FirstOf(files, path, intf, MtuFile);
        if mtu.Some? {
          MtuQuiet(k, intf, mtu.value);
        }
      case Routes => RoutesSayNothing(k, intf, LinesOf(files, path, intf, Ipv4Route));
      case Master => MasterSaysNothing(k, intf, files, path);
      case Records(k2) =>
        var lines := LinesOf(files, path, intf, FileOf(k2));
        if k == k2 {
          OwnReader(k, intf, lines);
        } else {
          OtherReader(k, intf, k2, lines);
        }
    }
    if step != Records(k) {
      SelectedNone(k, intf, out);
    }
  }

  lemma MtuQuiet(k: Kind, intf: string, mtu: string)
    ensures !IsLineOf(k, intf, "ip link set dev " + intf + " mtu " + mtu)
  {
    assert "ip link set " <= "ip link set dev ";
    SetQuiet(k, intf, "ip link set dev " + intf + " mtu " + mtu);
  }

  /** How often a kind of record is read. */
  function Times(steps: seq<Step>, k: Kind): nat {
    if steps == [] then 0 else Times(steps[..|steps| - 1], k) + if steps[|steps| - 1] == Records(k) then 1 else 0
  }

  lemma {:induction false} OutputsSay(files: map<string, string>, path: string, intf: string, steps: seq<Step>, k: Kind)
    requires Tokened(files, path, intf) && NameOK(intf) && Times(steps, k) <= 1
    ensures Selected(k, intf, Outputs(files, path, intf, steps))
         == if Times(steps, k) == 1 then Selected(k, intf, Commands(k, intf, LinesOf(files, path, intf, FileOf(k)))) else []
  {
    hide LinesOf, Commands, NameOK, Output, Tokened, Selected;
    if steps == [] {
      SelectedOne(k, intf, "");
    } else {
      var init, last := steps[..|steps| - 1], steps[|steps| - 1];
      OutputsSay(files, path, intf, init, k);
      OutputSays(files, path, intf, last, k);
      SelectedConcat(k, intf, Outputs(files, path, intf, init), Output(files, path, intf, last));
    }
  }

  /** Each type reads a kind of record once or not at all. */
  lemma StepsRead(itype: string, k: Kind)
    ensures Times(Steps(itype), k) == if Replays(itype, k) then 1 else 0
  {
    var steps := Steps(itype);
    TimesIs(steps, k);
  }

  /** Every interface of a known type is first set up and has its routes read; its
      MTU is read for a physical port or a bond. */
  lemma StepsExactly(itype: string)
    ensures Steps(itype) != [] <==> itype in {"phy", "bond", "subintf", "bridge", "vxlan"}
    ensures Steps(itype) != [] ==>
      && Steps(itype)[0] == SetDev && Routes in Steps(itype) && Steps(itype)[|Steps(itype)| - 1] == Master
      && (Mtu in Steps(itype) <==> itype in {"phy", "bond"})
  {
  }

  lemma {:induction false} TimesIs(steps: seq<Step>, k: Kind)
    requires forall i, j :: 0 <= i < j < |steps| ==> steps[i] != steps[j]
    ensures Times(steps, k) == if Records(k) in steps then 1 else 0
  {
    if steps != [] {
      TimesIs(steps[..|steps| - 1], k);
      assert steps == steps[..|steps| - 1] + [steps[|steps| - 1]];
    }
  }

  // ----- what is read again after a save -----

  /** What is selected is no longer than the lines, and all of them when it is as long. */
  lemma {:induction false} SelectedShorter(k: Kind, intf: string, lines: seq<string>)
    ensures |Selected(k, intf, lines)| <= |lines|
    ensures |Selected(k, intf, lines)| == |lines| ==> Selected(k, intf, lines) == lines
  {
    hide IsLineOf;
    if lines != [] {
      SelectedShorter(k, intf, lines[..|lines| - 1]);
    }
  }

  lemma {:induction false} SelectedTwice(k: Kind, intf: string, lines: seq<string>)
    ensures Selected(k, intf, Selected(k, intf, lines)) == Selected(k, intf, lines)
  {
    hide IsLineOf;
    if lines != [] {
      var init, last := lines[..|lines| - 1], lines[|lines| - 1];
      SelectedTwice(k, intf, init);
      SelectedOne(k, intf, last);
      assert Selected(k, intf, init) + [] == Selected(k, intf, init);
      if IsLineOf(k, intf, last) {
        SelectedConcat(k, intf, Selected(k, intf, init), [last]);
      }
    }
  }

  lemma TypesOneLine(itype: string)
    requires itype in {"phy", "bond", "subintf", "bridge", "vxlan"}
    ensures OneLine(itype)
  {
  }

  lemma OnlyLine(files: map<string, string>, path: string, intf: string, base: File, t: string)
    requires OneLine(t) && TextAt(files, PathOf(path + "/" + intf, base)) == t
    ensures LinesOf(files, path, intf, base) == [t]
  {
    ScanOne(t);
  }

  /** The type the readers see. */
  lemma SavedType(path: string, cpath: string, table: LinkTable, h: seq<Event>, intf: string)
    requires HistoryOK(table, h)
    ensures FirstOf(SavedFiles(path, cpath, table, h), cpath, intf, TypeFile)
         == if Hidden(intf) then None else TypeAfter(table, h, intf)
  {
    var files, itype := SavedFiles(path, cpath, table, h), TypeAfter(table, h, intf);
    FinalType(path, table, h, intf);
    SavedText(path, cpath, table, h, intf, TypeFile);
    TypesKnown(table, h, intf);
    hide Effects, Run, PathOf, SavedFiles, TypeAfter, HistoryOK, LinesOf, OneLine;
    if Hidden(intf) || itype.None? {
      NoLines(files, cpath, intf, TypeFile);
    } else {
      TypesOneLine(itype.value);
      OnlyLine(files, cpath, intf, TypeFile, itype.value);
    }
  }

  /** The interface is copied, and its final type has a reader of this kind. */
  predicate ReadAgain(k: Kind, table: LinkTable, h: seq<Event>, intf: string) {
    !Hidden(intf) && TypeAfter(table, h, intf).Some? && Replays(TypeAfter(table, h, intf).value, k)
  }

  /** After any run that is saved, apply of one interface runs, of the commands
      of each kind, those that the reader rebuilds when the final type has that
      reader, and none when it has not. */
  lemma SavedIsReadAgain(k: Kind, intf: string, path: string, cpath: string, table: LinkTable, h: seq<Event>)
    requires NameOK(intf) && HistoryOK(table, h)
    ensures var files := SavedFiles(path, cpath, table, h);
      && Tokened(files, cpath, intf)
      && Selected(k, intf, PerInterface(files, cpath, intf))
         == if ReadAgain(k, table, h, intf)
            then Selected(k, intf, Rebuilt(k, path, intf, Run(Fresh(path), Effects(path, table, h)))) else []
  {
    var files := SavedFiles(path, cpath, table, h);
    SavedTokened(path, cpath, table, h, intf);
    SavedType(path, cpath, table, h, intf);
    SavedText(path, cpath, table, h, intf, FileOf(k));
    hide Tokened, Effects, Run, PathOf, SavedFiles, TypeAfter, Outputs, Steps, Selected, NameOK, FirstOf,
      Commands, Replays, HistoryOK, FileOf;
    var itype := FirstOf(files, cpath, intf, TypeFile);
    if itype.None? {
      hide PerInterface;
      NothingRun(files, cpath, intf);
      NothingSelected(k, intf);
    } else {
      StepsRead(itype.value, k);
      OutputsSay(files, cpath, intf, Steps(itype.value), k);
    }
  }

  lemma NothingRun(files: map<string, string>, path: string, intf: string)
    requires Tokened(files, path, intf) && FirstOf(files, path, intf, TypeFile).None?
    ensures PerInterface(files, path, intf) == []
  {
  }

  lemma NothingSelected(k: Kind, intf: string)
    ensures Selected(k, intf, []) == []
  {
  }

  lemma InScriptSelected(k: Kind, intf: string, d: Dump)
    ensures Selected(k, intf, InScript(k, intf, d)) == InScript(k, intf, d)
  {
    SelectedTwice(k, intf, ScanLines(d.script));
  }
}
