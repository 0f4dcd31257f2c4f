/** When the sub-interfaces of a dump can all be rebuilt. */
module SubInterfaces {
  import opened Text
  import opened HwTexts
  import opened IntfDump
  import opened IntfReplay
  import opened DumpReplay
  import opened DumpTheorems

  predicate OnLower(table: LinkTable, link: Link) {
    '.' !in link.name && link.kind.Vxlan? && link.kind.vtep in table
  }

  /** A link that makes the directory of intf: intf itself, or a VxLAN link on it. */
  predicate Houses(table: LinkTable, e: Event, intf: string) {
    && e.LinkEvent?
    && (e.link.kind.Bridge? || !CreateFails(table, e.link))
    && (e.link.name == intf || (OnLower(table, e.link) && table[e.link.kind.vtep].name == intf))
  }

  /** Every tagged link on intf comes after one that makes its directory. */
  predicate ParentsFirst(table: LinkTable, h: seq<Event>, intf: string) {
    forall j :: 0 <= j < |h| && Tagged(h[j], intf) ==> exists i :: 0 <= i < j && Houses(table, h[i], intf)
  }

  // ----- which directories a run makes -----

  lemma UpMakesNothing(dir: string)
    ensures forall up, name :: Mkdir(dir) !in UpIf(up, name)
  {
  }

  lemma VxlanDirs(path: string, link: Link, lower: Link, dir: string)
    requires link.kind.Vxlan?
    ensures Mkdir(dir) in VxlanEffects(path, link, lower) <==> dir == path + link.name || dir == path + lower.name
  {
    hide VxlanLine, UpLine, Dec;
    var es := VxlanEffects(path, link, lower);
    assert es[2] == Mkdir(path + link.name) && es[5] == Mkdir(path + lower.name);
  }

  lemma CreateDirs(path: string, table: LinkTable, link: Link, dir: string)
    requires !link.kind.Bridge? && !CreateFails(table, link)
    ensures Mkdir(dir) in CreateEffects(path, table, link) <==>
      dir == path + link.name || (OnLower(table, link) && dir == path + table[link.kind.vtep].name)
  {
    CreateMakes(path, table, link);
    if OnLower(table, link) {
      VxlanDirs(path, link, table[link.kind.vtep], dir);
      hide VxlanEffects;
    } else {
      if dir != path + link.name {
        OwnDirOnly(path, link, dir);
      }
      hide TaggedEffects, BondEffects, DeviceEffects;
    }
  }

  lemma OwnDirOnly(path: string, link: Link, dir: string)
    requires dir != path + link.name
    ensures '.' in link.name ==> Mkdir(dir) !in TaggedEffects(path, link)
    ensures link.kind.Bond? ==> Mkdir(dir) !in BondEffects(path, link)
    ensures Mkdir(dir) !in DeviceEffects(path, link)
  {
    hide VlanLine, MtuLine, UpLine, Parent, VlanId, Dec, UpIf;
    UpMakesNothing(dir);
  }

  lemma LinkDirs(path: string, table: LinkTable, link: Link, dir: string)
    ensures Mkdir(dir) in LinkEffects(path, table, link) <==>
      && (link.kind.Bridge? || !CreateFails(table, link))
      && (dir == path + link.name || (OnLower(table, link) && dir == path + table[link.kind.vtep].name))
  {
    LinkRecords(path, table, link);
    if !link.kind.Bridge? && !CreateFails(table, link) {
      CreateDirs(path, table, link, dir);
    }
    hide CreateEffects, CreateFails, MtuLine, UpLine;
    assert Mkdir(dir) !in UpIf(link.up, link.name) && Mkdir(dir) !in MasterEffects(path, table, link);
  }

  lemma HousesExactly(path: string, table: LinkTable, e: Event, intf: string)
    ensures Mkdir(path + intf) in EffectsOf(path, table, e) <==> Houses(table, e, intf)
  {
    if e.LinkEvent? {
      LinkDirs(path, table, e.link, path + intf);
      SameInDir(path, e.link.name, intf);
      if OnLower(table, e.link) {
        SameInDir(path, table[e.link.kind.vtep].name, intf);
      }
    }
    hide LinkEffects, CreateFails, OnLower, HwText, HwAddr.Front, SavedFdb;
  }

  lemma {:induction false} MadeMeans(dirs: set<string>, es: seq<Effect>, dir: string)
    ensures dir in Made(dirs, es) <==> dir in dirs || Mkdir(dir) in es
  {
    if es != [] {
      MadeMeans(dirs, es[..|es| - 1], dir);
      assert es == es[..|es| - 1] + [es[|es| - 1]];
    }
  }

  /** A run makes the directory of intf exactly when one of its links does. */
  lemma {:induction false} MadeByHouse(path: string, table: LinkTable, h: seq<Event>, intf: string)
    ensures path + intf in Made({path}, Effects(path, table, h)) <==>
      intf == "" || exists i :: 0 <= i < |h| && Houses(table, h[i], intf)
  {
    hide EffectsOf, Houses;
    if h != [] {
      var n := |h| - 1;
      var before, last := Effects(path, table, h[..n]), EffectsOf(path, table, h[n]);
      MadeByHouse(path, table, h[..n], intf);
      MadeConcat({path}, before, last);
      MadeMeans(Made({path}, before), last, path + intf);
      HousesExactly(path, table, h[n], intf);
      assert forall i :: 0 <= i < n ==> h[..n][i] == h[i];
    } else {
      assert path + "" == path;
      assert |path + intf| == |path| + |intf|;
    }
  }

  // ----- which records a run loses -----

  lemma {:induction false} NotLogged(dirs: set<string>, es: seq<Effect>, dir: string, base: File)
    requires forall e :: e in es ==> !IsLog(e, dir, base)
    ensures Orphans(dirs, es, dir, base) == 0
  {
    if es != [] {
      assert es[|es| - 1] in es;
      NotLogged(dirs, es[..|es| - 1], dir, base);
    }
  }

  lemma TaggedLogs(path: string, dirs: set<string>, link: Link, intf: string)
    requires '.' in link.name
    ensures Orphans(dirs, TaggedEffects(path, link), path + intf, SubIntfFile)
         == if Parent(link.name) == intf && path + intf !in dirs then 1 else 0
  {
    if Parent(link.name) == intf {
      TaggedOrphan(path, dirs, link);
    } else {
      SameInDir(path, Parent(link.name), intf);
      hide VlanLine, Parent, VlanId, UpLine;
      NotLogged(dirs, TaggedEffects(path, link), path + intf, SubIntfFile);
    }
  }

  lemma LinkLogs(path: string, table: LinkTable, dirs: set<string>, link: Link, intf: string)
    ensures Orphans(dirs, LinkEffects(path, table, link), path + intf, SubIntfFile)
         == if Tagged(LinkEvent(link), intf) && path + intf !in dirs then 1 else 0
  {
    var dir := path + intf;
    if link.kind.Bridge? || CreateFails(table, link) {
      hide UpLine;
      NotLogged(dirs, LinkEffects(path, table, link), dir, SubIntfFile);
    } else {
      var made, up, master := CreateEffects(path, table, link), UpIf(link.up, link.name), MasterEffects(path, table, link);
      CreateLogs(path, table, dirs, link, intf);
      hide CreateEffects, UpLine, Orphans;
      NotLogged(Made(dirs, made), up, dir, SubIntfFile);
      NotLogged(Made(dirs, made + up), master, dir, SubIntfFile);
      OrphansConcat(dirs, made, up, dir, SubIntfFile);
      OrphansConcat(dirs, made + up, master, dir, SubIntfFile);
    }
  }

  lemma CreateLogs(path: string, table: LinkTable, dirs: set<string>, link: Link, intf: string)
    requires !link.kind.Bridge? && !CreateFails(table, link)
    ensures Orphans(dirs, CreateEffects(path, table, link), path + intf, SubIntfFile)
         == if Tagged(LinkEvent(link), intf) && path + intf !in dirs then 1 else 0
  {
    if '.' in link.name {
      TaggedLogs(path, dirs, link, intf);
      hide Orphans, TaggedEffects, Parent;
    } else {
      hide VxlanLine, MtuLine, UpLine, Dec, Parent;
      NotLogged(dirs, CreateEffects(path, table, link), path + intf, SubIntfFile);
    }
  }

  lemma EventLogs(path: string, table: LinkTable, dirs: set<string>, e: Event, intf: string)
    ensures Orphans(dirs, EffectsOf(path, table, e), path + intf, SubIntfFile)
         == if Tagged(e, intf) && path + intf !in dirs then 1 else 0
  {
    hide Orphans, LinkEffects, AddrEffects, NeighEffects, RouteEffects, Parent;
    if e.LinkEvent? {
      LinkLogs(path, table, dirs, e.link, intf);
    } else {
      OthersLogNone(path, table, dirs, e, intf);
    }
  }

  lemma OthersLogNone(path: string, table: LinkTable, dirs: set<string>, e: Event, intf: string)
    requires !e.LinkEvent?
    ensures Orphans(dirs, EffectsOf(path, table, e), path + intf, SubIntfFile) == 0
  {
    hide HwText, HwAddr.Front, SavedFdb, HasMac, Orphans;
    NotLogged(dirs, EffectsOf(path, table, e), path + intf, SubIntfFile);
  }

  lemma {:induction false} NoneLostExactly(path: string, table: LinkTable, h: seq<Event>, intf: string)
    requires intf != ""
    ensures Orphans({path}, Effects(path, table, h), path + intf, SubIntfFile) == 0 <==> ParentsFirst(table, h, intf)
  {
    hide EffectsOf, Houses, Tagged;
    if h != [] {
      var n := |h| - 1;
      var init, before := h[..n], Effects(path, table, h[..n]);
      NoneLostExactly(path, table, init, intf);
      OrphansConcat({path}, before, EffectsOf(path, table, h[n]), path + intf, SubIntfFile);
      EventLogs(path, table, Made({path}, before), h[n], intf);
      MadeByHouse(path, table, init, intf);
      hide Effects, Orphans, Made;
      FirstInPrefix(table, h, intf);
    }
  }

  lemma FirstInPrefix(table: LinkTable, h: seq<Event>, intf: string)
    requires h != []
    ensures var n := |h| - 1;
      ParentsFirst(table, h, intf) <==>
        && ParentsFirst(table, h[..n], intf)
        && (Tagged(h[n], intf) ==> exists i :: 0 <= i < n && Houses(table, h[..n][i], intf))
  {
    hide Houses, Tagged;
    var n := |h| - 1;
    var init := h[..n];
    assert forall i :: 0 <= i < n ==> init[i] == h[i];
    if ParentsFirst(table, h, intf) {
      forall j | 0 <= j < n && Tagged(init[j], intf) ensures exists i :: 0 <= i < j && Houses(table, init[i], intf) {
        assert Tagged(h[j], intf);
        var i :| 0 <= i < j && Houses(table, h[i], intf);
        assert Houses(table, init[i], intf);
      }
      if Tagged(h[n], intf) {
        var i :| 0 <= i < n && Houses(table, h[i], intf);
        assert Houses(table, init[i], intf);
      }
    }
    if ParentsFirst(table, init, intf) && (Tagged(h[n], intf) ==> exists i :: 0 <= i < n && Houses(table, init[i], intf)) {
      forall j | 0 <= j < |h| && Tagged(h[j], intf) ensures exists i :: 0 <= i < j && Houses(table, h[i], intf) {
        if j < n {
          assert Tagged(init[j], intf);
        }
        var i :| 0 <= i < j && Houses(table, init[i], intf);
        assert Houses(table, h[i], intf);
      }
    }
  }

  /** For every run: the sub-interfaces rebuilt are exactly, in order, those of
      the flat script if and only if every tagged link comes after a link that
      makes its parent's directory, and none has a bar in its name. */
  lemma SubInterfacesReplayExactly(intf: string, path: string, table: LinkTable, h: seq<Event>)
    requires NameOK(intf) && intf != "" && HistoryOK(table, h)
    ensures var d := Run(Fresh(path), Effects(path, table, h));
      Rebuilt(SubIntfs, path, intf, d) == InScript(SubIntfs, intf, d) <==>
        && ParentsFirst(table, h, intf)
        && forall e :: e in h && Tagged(e, intf) ==> '|' !in e.link.name
  {
    hide NameOK, HistoryOK, Rebuilt, InScript, Run, Effects, Orphans, ParentsFirst, Parent;
    assert FileOf(SubIntfs) == SubIntfFile;
    assert AllUnbarred(SubIntfs, intf, h) <==> forall e :: e in h && Tagged(e, intf) ==> '|' !in e.link.name;
    ReplayAgrees(SubIntfs, intf, path, table, h);
    NoneLostExactly(path, table, h, intf);
  }
}
