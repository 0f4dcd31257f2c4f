/** A whole save of a host, and what is applied of it afterwards. */
module SavedHosts {
  import opened Text
  import opened HwTexts
  import opened IntfDump
  import opened IntfReplay
  import opened IntfApply
  import opened DumpReplay
  import opened DumpTheorems
  import opened SubInterfaces
  import opened Entries
  import opened SavedReplay
  import opened HostLists

  /** For every host: apply of one interface runs exactly, in order, what the
      flat script said about its addresses, neighbours or forwarding entries if
      and only if the host has none, or the interface is copied and its final
      type has the reader. */
  lemma EntriesReadAgainExactly(k: Kind, intf: string, path: string, cpath: string, table: LinkTable,
                                ifaces: seq<Iface>, routes: seq<Route>)
    requires !k.SubIntfs? && NameOK(intf) && HistoryOK(table, DumpEvents(table, ifaces, routes))
    ensures var h := DumpEvents(table, ifaces, routes);
      var files, d := SavedFiles(path, cpath, table, h), Run(Fresh(path), Effects(path, table, h));
      && Tokened(files, cpath, intf)
      && (Selected(k, intf, PerInterface(files, cpath, intf)) == InScript(k, intf, d) <==>
            !HostHas(k, table, ifaces, intf) || ReadAgain(k, table, LinkOrder(ifaces), intf))
  {
    var h := DumpEvents(table, ifaces, routes);
    EntriesOnce(k, intf, path, cpath, table, ifaces, routes);
    InScriptExactly(k, intf, path, table, h);
    HostHasExactly(k, table, ifaces, routes, intf);
    hide DumpEvents, Tokened, Run, Effects, SavedFiles, PerInterface, Selected, NameOK, HistoryOK, ReadAgain,
      InScript, AnyEntry, HostHas;
  }

  /** What is run of a kind is all the flat script said, or nothing. */
  lemma EntriesOnce(k: Kind, intf: string, path: string, cpath: string, table: LinkTable,
                    ifaces: seq<Iface>, routes: seq<Route>)
    requires !k.SubIntfs? && NameOK(intf) && HistoryOK(table, DumpEvents(table, ifaces, routes))
    ensures var h := DumpEvents(table, ifaces, routes);
      var files, d := SavedFiles(path, cpath, table, h), Run(Fresh(path), Effects(path, table, h));
      && Tokened(files, cpath, intf)
      && Selected(k, intf, PerInterface(files, cpath, intf))
         == if ReadAgain(k, table, LinkOrder(ifaces), intf) then InScript(k, intf, d) else []
  {
    var h := DumpEvents(table, ifaces, routes);
    SaveReplays(k, intf, path, table, ifaces, routes);
    InScriptSelected(k, intf, Run(Fresh(path), Effects(path, table, h)));
    ReadAgainByLinks(k, table, ifaces, routes, intf);
    hide DumpEvents, Tokened, Run, Effects, SavedFiles, PerInterface, Selected, NameOK, HistoryOK, ReadAgain, Rebuilt,
      InScript;
    SavedIsReadAgain(k, intf, path, cpath, table, h);
  }

  /** For every run, the same of the sub-interfaces of a parent. */
  lemma SubInterfacesReadAgainExactly(intf: string, path: string, cpath: string, table: LinkTable, h: seq<Event>)
    requires NameOK(intf) && intf != "" && HistoryOK(table, h)
    ensures var files, d := SavedFiles(path, cpath, table, h), Run(Fresh(path), Effects(path, table, h));
      && Tokened(files, cpath, intf)
      && (Selected(SubIntfs, intf, PerInterface(files, cpath, intf)) == InScript(SubIntfs, intf, d) <==>
            if ReadAgain(SubIntfs, table, h, intf)
            then ParentsFirst(table, h, intf) && forall e :: e in h && Tagged(e, intf) ==> '|' !in e.link.name
            else forall e :: e in h ==> !Tagged(e, intf))
  {
    var d := Run(Fresh(path), Effects(path, table, h));
    var rebuilt := Rebuilt(SubIntfs, path, intf, d);
    SavedIsReadAgain(SubIntfs, intf, path, cpath, table, h);
    SubInterfacesReplayExactly(intf, path, table, h);
    ReplayAgrees(SubIntfs, intf, path, table, h);
    InScriptSelected(SubIntfs, intf, d);
    SelectedShorter(SubIntfs, intf, rebuilt);
    InScriptExactly(SubIntfs, intf, path, table, h);
    AnyTagged(table, intf, h);
    hide Tokened, Run, Effects, SavedFiles, PerInterface, Selected, NameOK, HistoryOK, ReadAgain, Rebuilt, InScript,
      ParentsFirst, Parent, Orphans, AnyEntry;
  }

  lemma AnyTagged(table: LinkTable, intf: string, h: seq<Event>)
    ensures AnyEntry(SubIntfs, table, intf, h) <==> exists e :: e in h && Tagged(e, intf)
  {
    hide Parent;
    if e :| e in h && Tagged(e, intf) {
      assert Entry(SubIntfs, table, intf, e);
    }
  }

  lemma {:induction false} LinksAreIn(h: seq<Event>, e: Event)
    requires e.LinkEvent?
    ensures e in h <==> e in LinksOf(h)
  {
    if h != [] {
      assert h == h[..|h| - 1] + [h[|h| - 1]];
      LinksAreIn(h[..|h| - 1], e);
    }
  }

  lemma {:induction false} PickedAreListed(pass: Pass, ifaces: seq<Iface>, link: Link)
    ensures LinkEvent(link) in Picked(pass, ifaces) <==> InPass(pass, link) && exists i :: i in ifaces && i.link == link
  {
    hide InPass;
    if ifaces != [] {
      var init, last := ifaces[..|ifaces| - 1], ifaces[|ifaces| - 1];
      assert ifaces == init + [last];
      PickedAreListed(pass, init, link);
    }
  }

  /** The links of a save are those listed. */
  lemma LinksAreListed(table: LinkTable, ifaces: seq<Iface>, routes: seq<Route>, link: Link)
    ensures LinkEvent(link) in DumpEvents(table, ifaces, routes) <==> exists i :: i in ifaces && i.link == link
  {
    hide DumpEvents, LinksOf, Picked;
    LinksOfDump(table, ifaces, routes);
    LinksAreIn(DumpEvents(table, ifaces, routes), LinkEvent(link));
    PickedAreListed(Bridges, ifaces, link);
    PickedAreListed(Bonds, ifaces, link);
    PickedAreListed(Main, ifaces, link);
  }

  /** For every host, in terms of the listed links: the sub-interfaces of a parent
      are run as the flat script said them if and only if each is added after its
      parent or a VxLAN link on it and none has a bar in its name, where the final
      type has the reader; and elsewhere if and only if there are none. */
  lemma HostSubInterfacesExactly(intf: string, path: string, cpath: string, table: LinkTable,
                                 ifaces: seq<Iface>, routes: seq<Route>)
    requires NameOK(intf) && intf != "" && HistoryOK(table, DumpEvents(table, ifaces, routes))
    ensures var h := DumpEvents(table, ifaces, routes);
      var files, d := SavedFiles(path, cpath, table, h), Run(Fresh(path), Effects(path, table, h));
      && Tokened(files, cpath, intf)
      && (Selected(SubIntfs, intf, PerInterface(files, cpath, intf)) == InScript(SubIntfs, intf, d) <==>
            if ReadAgain(SubIntfs, table, LinkOrder(ifaces), intf)
            then ListedParentsFirst(table, ifaces, intf)
              && forall i :: i in ifaces && Tagged(LinkEvent(i.link), intf) ==> '|' !in i.link.name
            else forall i :: i in ifaces ==> !Tagged(LinkEvent(i.link), intf))
  {
    var h := DumpEvents(table, ifaces, routes);
    hide DumpEvents, Parent, Tokened, Run, Effects, SavedFiles, PerInterface, Selected, NameOK, HistoryOK, ReadAgain,
      InScript, ParentsFirst, ListedParentsFirst, LinkOrder;
    SubInterfacesReadAgainExactly(intf, path, cpath, table, h);
    ReadAgainByLinks(SubIntfs, table, ifaces, routes, intf);
    ParentsFirstExactly(table, ifaces, intf);
    forall link: Link ensures LinkEvent(link) in h <==> exists i :: i in ifaces && i.link == link {
      LinksAreListed(table, ifaces, routes, link);
    }
    forall i | i in ifaces ensures LinkEvent(i.link) in h {
      LinksAreListed(table, ifaces, routes, i.link);
    }
  }

  // ----- a save, and then both ways to apply it -----

  /** flat is what the file of the flat script runs afterwards, cmds what the
      files of one interface run. The script is gone, so flat is empty; the two
      ways agree on a kind of entry exactly when the host has none or none is
      read again. */
  method SaveThenApply(dir: string, cpath: string, table: LinkTable, ifaces: seq<Iface>, routes: seq<Route>, intf: string)
    returns (flat: seq<string>, cmds: seq<string>)
    requires NameOK(intf) && SoundIfaces(table, ifaces)
    requires HistoryOK(table, DumpEvents(table, ifaces, routes))
    ensures flat == []
    ensures var d := Run(Fresh(dir + "/"), Effects(dir + "/", table, DumpEvents(table, ifaces, routes)));
      forall k: Kind :: !k.SubIntfs? ==>
        && Selected(k, intf, cmds) == (if ReadAgain(k, table, LinkOrder(ifaces), intf) then InScript(k, intf, d) else [])
        && (Selected(k, intf, flat) == Selected(k, intf, cmds) <==>
              !HostHas(k, table, ifaces, intf) || !ReadAgain(k, table, LinkOrder(ifaces), intf))
  {
    ghost var h := DumpEvents(table, ifaces, routes);
    ghost var d := Run(Fresh(dir + "/"), Effects(dir + "/", table, h));
    SavedTokened(dir + "/", cpath, table, h, intf);
    hide Tokened, Run, Effects, DumpEvents, PerInterface, Selected, NameOK, HistoryOK, ReadAgain, InScript, CopyOf,
      HostHas, AnyEntry, SavedFiles, LinkOrder;
    forall k: Kind | !k.SubIntfs?
      ensures Selected(k, intf, PerInterface(SavedFiles(dir + "/", cpath, table, h), cpath, intf))
           == if ReadAgain(k, table, LinkOrder(ifaces), intf) then InScript(k, intf, d) else []
      ensures InScript(k, intf, d) != [] <==> HostHas(k, table, ifaces, intf)
      ensures Selected(k, intf, []) == []
    {
      EntriesOnce(k, intf, dir + "/", cpath, table, ifaces, routes);
      InScriptExactly(k, intf, dir + "/", table, h);
      HostHasExactly(k, table, ifaces, routes, intf);
      NothingSelected(k, intf);
    }
    var dumper := new Dumper(dir + "/", dir + ".txt", table);
    var file := dumper.Nlpdump(ifaces, routes, cpath);
    assert dumper.config == SavedFiles(dir + "/", cpath, table, h) by {
      SavedFilesAre(dir + "/", cpath, table, h);
    }
    flat := ApplyIpConfig(dumper.temp, file);
    cmds := ApplyIpConfigPerInterface(dumper.config, cpath, intf);
  }

  lemma SavedFilesAre(path: string, cpath: string, table: LinkTable, h: seq<Event>)
    ensures SavedFiles(path, cpath, table, h) == CopyOf(Run(Fresh(path), Effects(path, table, h)).files, path, cpath)
  {
  }

  // ----- routes -----

  function RoutesOn(table: LinkTable, routes: seq<Route>, intf: string): seq<Route> {
    if routes == [] then []
    else
      var last := routes[|routes| - 1];
      RoutesOn(table, routes[..|routes| - 1], intf)
      + if last.link in table && table[last.link].name == intf then [last] else []
  }

  function RouteTail(r: Route): string { DstText(r) + " via " + IpText(r.gw) }

  /** What is run for routes: the lines of the flat script with replace for add. */
  function ReplaceLines(routes: seq<Route>): seq<string> {
    if routes == [] then []
    else ReplaceLines(routes[..|routes| - 1]) + ["ip route replace " + RouteTail(routes[|routes| - 1]) + " proto static"]
  }

  function Tails(routes: seq<Route>): seq<string> {
    if routes == [] then [] else Tails(routes[..|routes| - 1]) + [RouteTail(routes[|routes| - 1])]
  }

  lemma {:induction false} KeptConcat(dirs: set<string>, a: seq<Effect>, b: seq<Effect>, dir: string, base: File)
    ensures Kept(dirs, a + b, dir, base) == Kept(dirs, a, dir, base) + Kept(Made(dirs, a), b, dir, base)
  {
    if b == [] {
      assert a + b == a;
    } else {
      var c := b[..|b| - 1];
      assert (a + b)[..|a + b| - 1] == a + c;
      KeptConcat(dirs, a, c, dir, base);
      MadeConcat(dirs, a, c);
    }
  }

  lemma {:induction false} KeptNone(dirs: set<string>, es: seq<Effect>, dir: string, base: File)
    requires forall e :: e in es ==> !IsLog(e, dir, base)
    ensures Kept(dirs, es, dir, base) == []
  {
    if es != [] {
      assert es[|es| - 1] in es;
      KeptNone(dirs, es[..|es| - 1], dir, base);
    }
  }

  lemma EventKeepsNoRoute(path: string, table: LinkTable, dirs: set<string>, e: Event, dir: string)
    requires !e.RouteEvent?
    ensures Kept(dirs, EffectsOf(path, table, e), dir, Ipv4Route) == []
  {
    if e.LinkEvent? {
      LinkRecords(path, table, e.link);
      hide LinkEffects;
      KeptNone(dirs, EffectsOf(path, table, e), dir, Ipv4Route);
    } else {
      OtherKeepsNoRoute(path, table, dirs, e, dir);
    }
  }

  lemma OtherKeepsNoRoute(path: string, table: LinkTable, dirs: set<string>, e: Event, dir: string)
    requires !e.RouteEvent? && !e.LinkEvent?
    ensures Kept(dirs, EffectsOf(path, table, e), dir, Ipv4Route) == []
  {
    hide HwText, HwAddr.Front, SavedFdb, HasMac, Kept;
    KeptNone(dirs, EffectsOf(path, table, e), dir, Ipv4Route);
  }

  lemma {:induction false} RunKeepsNoRoute(path: string, table: LinkTable, dirs: set<string>, h: seq<Event>, dir: string)
    requires forall e :: e in h ==> !e.RouteEvent?
    ensures Kept(dirs, Effects(path, table, h), dir, Ipv4Route) == []
  {
    hide EffectsOf;
    if h != [] {
      var init, last := h[..|h| - 1], h[|h| - 1];
      assert last in h;
      var before := Effects(path, table, init);
      RunKeepsNoRoute(path, table, dirs, init, dir);
      EventKeepsNoRoute(path, table, Made(dirs, before), last, dir);
      KeptConcat(dirs, before, EffectsOf(path, table, last), dir, Ipv4Route);
    }
  }

  lemma KeptTwo(dirs: set<string>, line: string, d: string, b: File, record: string, dir: string, base: File)
    ensures var es := [Say(line), Log(d, b, record)];
      && Kept(dirs, es, dir, base) == (if d == dir && b == base && dir in dirs then [record] else [])
      && Made(dirs, es) == dirs
  {
    var say, log := [Say(line)], [Log(d, b, record)];
    assert say[..0] == [] && log[..0] == [];
    assert say + log == [Say(line), Log(d, b, record)];
    assert Kept(dirs, say, dir, base) == [] && Made(dirs, say) == dirs;
    KeptConcat(dirs, say, log, dir, base);
    MadeConcat(dirs, say, log);
  }

  lemma RouteKept(path: string, table: LinkTable, dirs: set<string>, r: Route, intf: string)
    ensures Kept(dirs, RouteEffects(path, table, r), path + intf, Ipv4Route)
         == if path + intf in dirs && r.link in table && table[r.link].name == intf then [RouteTail(r)] else []
    ensures Made(dirs, RouteEffects(path, table, r)) == dirs
  {
    hide DstText, IpText;
    if r.link in table {
      var name, line := table[r.link].name, "ip route add " + DstText(r) + " via " + IpText(r.gw) + " proto static";
      SameInDir(path, name, intf);
      KeptTwo(dirs, line, path + name, Ipv4Route, RouteTail(r), path + intf, Ipv4Route);
    }
  }

  ghost predicate KeptRoutes(path: string, table: LinkTable, dirs: set<string>, routes: seq<Route>, intf: string) {
    var es := Effects(path, table, RouteEvents(routes));
    && Kept(dirs, es, path + intf, Ipv4Route) == (if path + intf in dirs then Tails(RoutesOn(table, routes, intf)) else [])
    && Made(dirs, es) == dirs
  }

  lemma {:induction false} RoutesKept(path: string, table: LinkTable, dirs: set<string>, routes: seq<Route>, intf: string)
    ensures KeptRoutes(path, table, dirs, routes, intf)
  {
    if routes == [] {
      assert RouteEvents(routes) == [];
    } else {
      var init, last := routes[..|routes| - 1], routes[|routes| - 1];
      RoutesKept(path, table, dirs, init, intf);
      OneMoreKept(path, table, dirs, init, last, intf);
      assert init + [last] == routes;
    }
  }

  lemma OneMoreKept(path: string, table: LinkTable, dirs: set<string>, init: seq<Route>, last: Route, intf: string)
    requires KeptRoutes(path, table, dirs, init, intf)
    ensures KeptRoutes(path, table, dirs, init + [last], intf)
  {
    hide RouteEffects, RouteTail, EffectsOf, Effects, Kept, Made, Tails, RoutesOn;
    var before, more := Effects(path, table, RouteEvents(init)), RouteEffects(path, table, last);
    assert RouteEvents(init + [last]) == RouteEvents(init) + [RouteEvent(last)];
    RouteStep(path, table, RouteEvents(init), last);
    RouteKept(path, table, dirs, last, intf);
    KeptConcat(dirs, before, more, path + intf, Ipv4Route);
    MadeConcat(dirs, before, more);
    var on := RoutesOn(table, init, intf);
    TailsSnoc(on, last);
    OnSnoc(table, init, last, intf);
    assert on + [] == on;
  }

  lemma OnSnoc(table: LinkTable, routes: seq<Route>, r: Route, intf: string)
    ensures RoutesOn(table, routes + [r], intf)
         == RoutesOn(table, routes, intf) + if r.link in table && table[r.link].name == intf then [r] else []
  {
    assert (routes + [r])[..|routes|] == routes;
  }

  lemma TailsSnoc(routes: seq<Route>, r: Route)
    ensures Tails(routes + [r]) == Tails(routes) + [RouteTail(r)]
    ensures Tails(routes) + [] == Tails(routes)
  {
    assert (routes + [r])[..|routes|] == routes;
  }

  lemma {:induction false} CommandsOfTails(routes: seq<Route>)
    ensures RouteCommands(Tails(routes)) == ReplaceLines(routes)
  {
    if routes != [] {
      CommandsOfTails(routes[..|routes| - 1]);
    }
  }

  /** For every host: what is run for the routes of an interface is its routes in
      order, with replace for add, when it is copied and its directory was made;
      and nothing else. */
  lemma RoutesReadAgainExactly(intf: string, path: string, cpath: string, table: LinkTable,
                               ifaces: seq<Iface>, routes: seq<Route>)
    requires intf != "" && HistoryOK(table, DumpEvents(table, ifaces, routes))
    ensures var files := SavedFiles(path, cpath, table, DumpEvents(table, ifaces, routes));
      RouteCommands(LinesOf(files, cpath, intf, Ipv4Route))
      == if !Hidden(intf) && TypeAfter(table, LinkOrder(ifaces), intf).Some?
         then ReplaceLines(RoutesOn(table, routes, intf)) else []
  {
    var h, links := DumpEvents(table, ifaces, routes), LinkEvents(table, ifaces);
    var kept := Kept({path}, Effects(path, table, h), path + intf, Ipv4Route);
    SavedRecords(path, cpath, table, h, intf, Ipv4Route);
    HostRoutesKept(path, table, ifaces, routes, intf);
    CommandsOfTails(RoutesOn(table, routes, intf));
    MadeByHouse(path, table, links, intf);
    TypedExactly(table, links, intf);
    TypeOfLinks(table, links, intf);
    OrderOfLinks(table, ifaces);
    hide HistoryOK, SavedFiles, LinesOf, LinkOrder, TypeAfter, Effects, Kept, Made, LinkEvents, DumpEvents, Houses, Tails;
    assert RouteCommands([]) == [];
  }

  lemma OrderOfLinks(table: LinkTable, ifaces: seq<Iface>)
    ensures LinksOf(LinkEvents(table, ifaces)) == LinkOrder(ifaces)
  {
    hide Walk, LinksOf, LinkOrder;
    LinksOfDump(table, ifaces, []);
    assert LinkEvents(table, ifaces) == DumpEvents(table, ifaces, []);
  }

  lemma HostRoutesKept(path: string, table: LinkTable, ifaces: seq<Iface>, routes: seq<Route>, intf: string)
    ensures var links := LinkEvents(table, ifaces);
      Kept({path}, Effects(path, table, DumpEvents(table, ifaces, routes)), path + intf, Ipv4Route)
      == if path + intf in Made({path}, Effects(path, table, links)) then Tails(RoutesOn(table, routes, intf)) else []
  {
    hide Walk, Effects, Kept, Made;
    var links := LinkEvents(table, ifaces);
    var before, after := Effects(path, table, links), Effects(path, table, RouteEvents(routes));
    assert DumpEvents(table, ifaces, routes) == links + RouteEvents(routes);
    NoRoutes(table, ifaces);
    hide LinkEvents, DumpEvents;
    EffectsConcat(path, table, links, RouteEvents(routes));
    KeptConcat({path}, before, after, path + intf, Ipv4Route);
    RunKeepsNoRoute(path, table, {path}, links, path + intf);
    RoutesKept(path, table, Made({path}, before), routes, intf);
  }

  function LinkEvents(table: LinkTable, ifaces: seq<Iface>): seq<Event> {
    Walk(Bridges, table, ifaces) + Walk(Bonds, table, ifaces) + Walk(Main, table, ifaces)
  }

  lemma NoRoutes(table: LinkTable, ifaces: seq<Iface>)
    ensures forall e :: e in LinkEvents(table, ifaces) ==> !e.RouteEvent?
  {
    WalkHasNoRoute(Bridges, table, ifaces);
    WalkHasNoRoute(Bonds, table, ifaces);
    WalkHasNoRoute(Main, table, ifaces);
    hide Walk;
  }

  lemma {:induction false} WalkHasNoRoute(pass: Pass, table: LinkTable, ifaces: seq<Iface>)
    ensures forall e :: e in Walk(pass, table, ifaces) ==> !e.RouteEvent?
  {
    hide LinkFails;
    if ifaces != [] {
      hide WalkOf;
      WalkHasNoRoute(pass, table, ifaces[..|ifaces| - 1]);
      WalkOfHasNoRoute(pass, table, ifaces[|ifaces| - 1]);
    }
  }

  lemma WalkOfHasNoRoute(pass: Pass, table: LinkTable, i: Iface)
    ensures forall e :: e in WalkOf(pass, table, i) ==> !e.RouteEvent?
  {
    hide LinkFails;
  }
}
