/** What a whole save does, in terms of the kernel's lists alone. */
module HostLists {
  import opened Text
  import opened IntfDump
  import opened IntfReplay
  import opened IntfApply
  import opened DumpReplay
  import opened DumpTheorems
  import opened SubInterfaces
  import opened Entries
  import opened SavedReplay

  // ----- the links in the order of the walk -----

  predicate InPass(pass: Pass, link: Link) {
    match pass
    case Bridges => link.kind.Bridge?
    case Bonds => link.kind.Bond?
    case Main => !link.kind.Bridge? && !link.kind.Bond?
  }

  function Picked(pass: Pass, ifaces: seq<Iface>): seq<Event> {
    if ifaces == [] then []
    else
      var link := ifaces[|ifaces| - 1].link;
      Picked(pass, ifaces[..|ifaces| - 1]) + if InPass(pass, link) then [LinkEvent(link)] else []
  }

  /** Bridges first, then bonds, then the rest, each as listed. */
  function LinkOrder(ifaces: seq<Iface>): seq<Event> {
    Picked(Bridges, ifaces) + Picked(Bonds, ifaces) + Picked(Main, ifaces)
  }

  function LinksOf(h: seq<Event>): seq<Event> {
    if h == [] then []
    else LinksOf(h[..|h| - 1]) + if h[|h| - 1].LinkEvent? then [h[|h| - 1]] else []
  }

  lemma {:induction false} LinksConcat(a: seq<Event>, b: seq<Event>)
    ensures LinksOf(a + b) == LinksOf(a) + LinksOf(b)
  {
    if b == [] {
      assert a + b == a;
    } else {
      assert (a + b)[..|a + b| - 1] == a + b[..|b| - 1];
      LinksConcat(a, b[..|b| - 1]);
    }
  }

  lemma {:induction false} NoLinks(h: seq<Event>)
    requires forall e :: e in h ==> !e.LinkEvent?
    ensures LinksOf(h) == []
  {
    if h != [] {
      assert h[|h| - 1] in h;
      NoLinks(h[..|h| - 1]);
    }
  }

  lemma LinksOfWalkOf(pass: Pass, table: LinkTable, i: Iface)
    ensures LinksOf(WalkOf(pass, table, i)) == if InPass(pass, i.link) then [LinkEvent(i.link)] else []
  {
    hide LinkFails, LinksOf;
    var h, added := WalkOf(pass, table, i), [LinkEvent(i.link)];
    if InPass(pass, i.link) {
      assert h == added + h[1..];
      LinksConcat(added, h[1..]);
      NoLinks(h[1..]);
      OneLink(i.link);
    } else {
      NoLinks(h);
    }
  }

  lemma OneLink(link: Link)
    ensures LinksOf([LinkEvent(link)]) == [LinkEvent(link)]
  {
    assert [LinkEvent(link)][..0] == [];
  }

  lemma {:induction false} LinksOfWalk(pass: Pass, table: LinkTable, ifaces: seq<Iface>)
    ensures LinksOf(Walk(pass, table, ifaces)) == Picked(pass, ifaces)
  {
    hide WalkOf;
    if ifaces != [] {
      var init, last := ifaces[..|ifaces| - 1], ifaces[|ifaces| - 1];
      LinksOfWalk(pass, table, init);
      LinksConcat(Walk(pass, table, init), WalkOf(pass, table, last));
      LinksOfWalkOf(pass, table, last);
    }
  }

  lemma LinksOfDump(table: LinkTable, ifaces: seq<Iface>, routes: seq<Route>)
    ensures LinksOf(DumpEvents(table, ifaces, routes)) == LinkOrder(ifaces)
  {
    hide LinksOf, Walk, Picked;
    var a, b, c := Walk(Bridges, table, ifaces), Walk(Bonds, table, ifaces), Walk(Main, table, ifaces);
    LinksOfWalk(Bridges, table, ifaces);
    LinksOfWalk(Bonds, table, ifaces);
    LinksOfWalk(Main, table, ifaces);
    NoLinks(RouteEvents(routes));
    LinksConcat(a, b);
    LinksConcat(a + b, c);
    LinksConcat(a + b + c, RouteEvents(routes));
  }

  /** Parents depend on the links alone. */
  lemma {:induction false} ParentsOfLinks(table: LinkTable, h: seq<Event>, intf: string)
    ensures ParentsFirst(table, h, intf) <==> ParentsFirst(table, LinksOf(h), intf)
  {
    if h != [] {
      var init, last := h[..|h| - 1], h[|h| - 1];
      assert h == init + [last];
      ParentsOfLinks(table, init, intf);
      ParentsSnoc(table, init, last, intf);
      LinksSnoc(init, last);
      if last.LinkEvent? {
        ParentsSnoc(table, LinksOf(init), last, intf);
        HousedByLink(table, init, intf);
      }
      hide ParentsFirst, Housed, LinksOf, Parent;
    }
  }

  lemma ParentsSnoc(table: LinkTable, h: seq<Event>, e: Event, intf: string)
    ensures ParentsFirst(table, h + [e], intf) <==>
      ParentsFirst(table, h, intf) && (Tagged(e, intf) ==> Housed(table, h, intf))
  {
    hide Houses, Tagged, ParentsFirst;
    FirstInPrefix(table, h + [e], intf);
    assert (h + [e])[..|h|] == h && (h + [e])[|h|] == e;
  }

  lemma LinksSnoc(h: seq<Event>, e: Event)
    ensures LinksOf(h + [e]) == if e.LinkEvent? then LinksOf(h) + [e] else LinksOf(h)
  {
    assert (h + [e])[..|h|] == h;
    assert LinksOf(h) + [] == LinksOf(h);
  }

  /** Some event of the run makes the directory of intf. */
  predicate Housed(table: LinkTable, h: seq<Event>, intf: string) {
    exists i :: 0 <= i < |h| && Houses(table, h[i], intf)
  }

  lemma HousedByLink(table: LinkTable, h: seq<Event>, intf: string)
    ensures Housed(table, h, intf) <==> Housed(table, LinksOf(h), intf)
  {
    TypedExactly(table, h, intf);
    TypedExactly(table, LinksOf(h), intf);
    TypeOfLinks(table, h, intf);
  }

  lemma {:induction false} TypeOfLinks(table: LinkTable, h: seq<Event>, intf: string)
    ensures TypeAfter(table, h, intf) == TypeAfter(table, LinksOf(h), intf)
  {
    hide OnLower, CreateFails;
    if h != [] {
      var n := |h| - 1;
      TypeOfLinks(table, h[..n], intf);
      assert LinksOf(h[..n]) + [] == LinksOf(h[..n]);
      if h[n].LinkEvent? {
        var links := LinksOf(h);
        assert links[..|links| - 1] == LinksOf(h[..n]) && links[|links| - 1] == h[n];
      }
    }
  }

  lemma ReadAgainByLinks(k: Kind, table: LinkTable, ifaces: seq<Iface>, routes: seq<Route>, intf: string)
    ensures ReadAgain(k, table, DumpEvents(table, ifaces, routes), intf) <==> ReadAgain(k, table, LinkOrder(ifaces), intf)
    ensures ParentsFirst(table, DumpEvents(table, ifaces, routes), intf) <==> ParentsFirst(table, LinkOrder(ifaces), intf)
  {
    LinksOfDump(table, ifaces, routes);
    TypeOfLinks(table, DumpEvents(table, ifaces, routes), intf);
    ParentsOfLinks(table, DumpEvents(table, ifaces, routes), intf);
    hide DumpEvents, LinkOrder, LinksOf, TypeAfter, ParentsFirst;
  }

  // ----- the order of two listed links -----

  function Rank(link: Link): nat { if link.kind.Bridge? then 0 else if link.kind.Bond? then 1 else 2 }

  /** Link i is added before link j: bridges before bonds before the rest, each as listed. */
  predicate Before(ifaces: seq<Iface>, i: nat, j: nat)
    requires i < |ifaces| && j < |ifaces|
  {
    Rank(ifaces[i].link) < Rank(ifaces[j].link) || (Rank(ifaces[i].link) == Rank(ifaces[j].link) && i < j)
  }

  predicate HousesAt(table: LinkTable, ifaces: seq<Iface>, i: nat, intf: string)
    requires i < |ifaces|
  {
    Houses(table, LinkEvent(ifaces[i].link), intf)
  }

  predicate TaggedAt(ifaces: seq<Iface>, j: nat, intf: string)
    requires j < |ifaces|
  {
    Tagged(LinkEvent(ifaces[j].link), intf)
  }

  /** Every tagged link on intf is added after one that makes its directory, or anyway. */
  predicate ParentsGiven(given: bool, table: LinkTable, h: seq<Event>, intf: string) {
    forall j :: 0 <= j < |h| && Tagged(h[j], intf) ==> given || exists i :: 0 <= i < j && Houses(table, h[i], intf)
  }

  lemma GivenConcat(given: bool, table: LinkTable, a: seq<Event>, b: seq<Event>, intf: string)
    ensures ParentsGiven(given, table, a + b, intf) <==>
      ParentsGiven(given, table, a, intf) && ParentsGiven(given || Housed(table, a, intf), table, b, intf)
    ensures Housed(table, a + b, intf) <==> Housed(table, a, intf) || Housed(table, b, intf)
  {
    hide Houses, Tagged;
    var c := a + b;
    assert forall i :: 0 <= i < |a| ==> c[i] == a[i];
    assert forall i :: 0 <= i < |b| ==> c[|a| + i] == b[i];
    if ParentsGiven(given, table, c, intf) {
      forall j | 0 <= j < |a| && Tagged(a[j], intf) ensures given || exists i :: 0 <= i < j && Houses(table, a[i], intf) {
        assert Tagged(c[j], intf);
        if !given {
          var i :| 0 <= i < j && Houses(table, c[i], intf);
          assert Houses(table, a[i], intf);
        }
      }
      forall j | 0 <= j < |b| && Tagged(b[j], intf)
        ensures given || Housed(table, a, intf) || exists i :: 0 <= i < j && Houses(table, b[i], intf)
      {
        assert Tagged(c[|a| + j], intf);
        if !given {
          var i :| 0 <= i < |a| + j && Houses(table, c[i], intf);
          if i < |a| {
            assert Houses(table, a[i], intf);
          } else {
            assert Houses(table, b[i - |a|], intf);
          }
        }
      }
    }
    if ParentsGiven(given, table, a, intf) && ParentsGiven(given || Housed(table, a, intf), table, b, intf) {
      forall j | 0 <= j < |c| && Tagged(c[j], intf) ensures given || exists i :: 0 <= i < j && Houses(table, c[i], intf) {
        if j < |a| {
          assert Tagged(a[j], intf);
          if !given {
            var i :| 0 <= i < j && Houses(table, a[i], intf);
            assert Houses(table, c[i], intf);
          }
        } else {
          assert Tagged(b[j - |a|], intf);
          if !given && Housed(table, a, intf) {
            var i :| 0 <= i < |a| && Houses(table, a[i], intf);
            assert Houses(table, c[i], intf);
          } else if !given {
            var i :| 0 <= i < j - |a| && Houses(table, b[i], intf);
            assert Houses(table, c[|a| + i], intf);
          }
        }
      }
    }
    HousedConcat(table, a, b, intf);
  }

  lemma HousedConcat(table: LinkTable, a: seq<Event>, b: seq<Event>, intf: string)
    ensures Housed(table, a + b, intf) <==> Housed(table, a, intf) || Housed(table, b, intf)
  {
    hide Houses;
    var c := a + b;
    if i :| 0 <= i < |a| && Houses(table, a[i], intf) {
      assert Houses(table, c[i], intf);
    }
    if i :| 0 <= i < |b| && Houses(table, b[i], intf) {
      assert Houses(table, c[|a| + i], intf);
    }
    if i :| 0 <= i < |c| && Houses(table, c[i], intf) {
      if i < |a| {
        assert Houses(table, a[i], intf);
      } else {
        assert Houses(table, b[i - |a|], intf);
      }
    }
  }

  /** A listed link of the pass that makes the directory. */
  predicate HousedIn(pass: Pass, table: LinkTable, ifaces: seq<Iface>, n: nat, intf: string)
    requires n <= |ifaces|
  {
    exists i :: 0 <= i < n && InPass(pass, ifaces[i].link) && HousesAt(table, ifaces, i, intf)
  }

  predicate GivenIn(given: bool, pass: Pass, table: LinkTable, ifaces: seq<Iface>, intf: string) {
    forall j :: 0 <= j < |ifaces| && InPass(pass, ifaces[j].link) && TaggedAt(ifaces, j, intf) ==>
      given || HousedIn(pass, table, ifaces, j, intf)
  }

  lemma {:induction false} PickedGiven(given: bool, pass: Pass, table: LinkTable, ifaces: seq<Iface>, intf: string)
    ensures Housed(table, Picked(pass, ifaces), intf) <==> HousedIn(pass, table, ifaces, |ifaces|, intf)
    ensures ParentsGiven(given, table, Picked(pass, ifaces), intf) <==> GivenIn(given, pass, table, ifaces, intf)
  {
    hide Houses, Tagged, InPass;
    if ifaces != [] {
      var n := |ifaces| - 1;
      var init, link := ifaces[..n], ifaces[n].link;
      var more := if InPass(pass, link) then [LinkEvent(link)] else [];
      PickedGiven(given, pass, table, init, intf);
      GivenConcat(given, table, Picked(pass, init), more, intf);
      assert Picked(pass, ifaces) == Picked(pass, init) + more;
      PrefixIn(given, pass, table, ifaces, intf);
      hide Picked, ParentsGiven, GivenIn, HousedIn, Housed;
      OneGiven(given || Housed(table, Picked(pass, init), intf), table, link, intf);
      NoneGiven(given || Housed(table, Picked(pass, init), intf), table, intf);
    }
  }

  lemma OneGiven(given: bool, table: LinkTable, link: Link, intf: string)
    ensures ParentsGiven(given, table, [LinkEvent(link)], intf) <==> (Tagged(LinkEvent(link), intf) ==> given)
    ensures Housed(table, [LinkEvent(link)], intf) <==> Houses(table, LinkEvent(link), intf)
  {
    hide Houses, Tagged;
    assert [LinkEvent(link)][0] == LinkEvent(link);
  }

  lemma NoneGiven(given: bool, table: LinkTable, intf: string)
    ensures ParentsGiven(given, table, [], intf) && !Housed(table, [], intf)
  {
  }

  lemma PrefixIn(given: bool, pass: Pass, table: LinkTable, ifaces: seq<Iface>, intf: string)
    requires ifaces != []
    ensures var n := |ifaces| - 1;
      && (HousedIn(pass, table, ifaces, |ifaces|, intf) <==>
            HousedIn(pass, table, ifaces[..n], n, intf)
            || (InPass(pass, ifaces[n].link) && Houses(table, LinkEvent(ifaces[n].link), intf)))
      && (GivenIn(given, pass, table, ifaces, intf) <==>
            GivenIn(given, pass, table, ifaces[..n], intf)
            && (InPass(pass, ifaces[n].link) && Tagged(LinkEvent(ifaces[n].link), intf) ==>
                  given || HousedIn(pass, table, ifaces[..n], n, intf)))
  {
    hide Houses, Tagged, InPass;
    var n := |ifaces| - 1;
    var init := ifaces[..n];
    assert forall i :: 0 <= i < n ==> init[i] == ifaces[i];
    assert forall i :: 0 <= i < n ==> HousesAt(table, init, i, intf) == HousesAt(table, ifaces, i, intf);
    assert forall i :: 0 <= i < n ==> TaggedAt(init, i, intf) == TaggedAt(ifaces, i, intf);
    forall m: nat | m <= n ensures HousedIn(pass, table, init, m, intf) == HousedIn(pass, table, ifaces, m, intf) {
      if HousedIn(pass, table, ifaces, m, intf) {
        var i :| 0 <= i < m && InPass(pass, ifaces[i].link) && HousesAt(table, ifaces, i, intf);
        assert InPass(pass, init[i].link) && HousesAt(table, init, i, intf);
      }
      if HousedIn(pass, table, init, m, intf) {
        var i :| 0 <= i < m && InPass(pass, init[i].link) && HousesAt(table, init, i, intf);
        assert InPass(pass, ifaces[i].link) && HousesAt(table, ifaces, i, intf);
      }
    }
    hide HousedIn;
    HousedLast(pass, table, ifaces, intf);
  }

  lemma HousedLast(pass: Pass, table: LinkTable, ifaces: seq<Iface>, intf: string)
    requires ifaces != []
    ensures var n := |ifaces| - 1;
      HousedIn(pass, table, ifaces, |ifaces|, intf) <==>
        HousedIn(pass, table, ifaces, n, intf) || (InPass(pass, ifaces[n].link) && HousesAt(table, ifaces, n, intf))
  {
    hide HousesAt, InPass;
  }

  /** Every listed tagged link on intf is added after one that makes its directory. */
  predicate ListedParentsFirst(table: LinkTable, ifaces: seq<Iface>, intf: string) {
    forall j :: 0 <= j < |ifaces| && TaggedAt(ifaces, j, intf) ==>
      exists i :: 0 <= i < |ifaces| && Before(ifaces, i, j) && HousesAt(table, ifaces, i, intf)
  }

  lemma OrderParents(table: LinkTable, ifaces: seq<Iface>, intf: string)
    ensures ParentsFirst(table, LinkOrder(ifaces), intf) <==>
      && GivenIn(false, Bridges, table, ifaces, intf)
      && GivenIn(HousedIn(Bridges, table, ifaces, |ifaces|, intf), Bonds, table, ifaces, intf)
      && GivenIn(HousedIn(Bridges, table, ifaces, |ifaces|, intf) || HousedIn(Bonds, table, ifaces, |ifaces|, intf),
                 Main, table, ifaces, intf)
  {
    var a, b, c := Picked(Bridges, ifaces), Picked(Bonds, ifaces), Picked(Main, ifaces);
    assert ParentsFirst(table, LinkOrder(ifaces), intf) <==> ParentsGiven(false, table, a + b + c, intf);
    hide ParentsFirst, ParentsGiven, Housed, HousedIn, GivenIn, Picked;
    GivenConcat(false, table, a + b, c, intf);
    GivenConcat(false, table, a, b, intf);
    PickedGiven(false, Bridges, table, ifaces, intf);
    PickedGiven(Housed(table, a, intf), Bonds, table, ifaces, intf);
    PickedGiven(Housed(table, a + b, intf), Main, table, ifaces, intf);
  }

  /** In a whole save every record of a sub-interface is kept exactly when the
      links are listed so. */
  lemma ParentsFirstExactly(table: LinkTable, ifaces: seq<Iface>, intf: string)
    ensures ParentsFirst(table, LinkOrder(ifaces), intf) <==> ListedParentsFirst(table, ifaces, intf)
  {
    OrderParents(table, ifaces, intf);
    hide ParentsFirst, TaggedAt, HousesAt, LinkOrder;
    if ListedParentsFirst(table, ifaces, intf) {
      forall pass, j | 0 <= j < |ifaces| && InPass(pass, ifaces[j].link) && TaggedAt(ifaces, j, intf)
        ensures HousedBefore(pass, table, ifaces, j, intf)
      {
        var i :| 0 <= i < |ifaces| && Before(ifaces, i, j) && HousesAt(table, ifaces, i, intf);
        BeforeHouses(pass, table, ifaces, i, j, intf);
      }
    }
    if ParentsFirst(table, LinkOrder(ifaces), intf) {
      forall j | 0 <= j < |ifaces| && TaggedAt(ifaces, j, intf)
        ensures exists i :: 0 <= i < |ifaces| && Before(ifaces, i, j) && HousesAt(table, ifaces, i, intf)
      {
        var pass := PassOf(ifaces[j].link);
        assert InPass(pass, ifaces[j].link);
        assert HousedBefore(pass, table, ifaces, j, intf);
        var i := HouseBefore(pass, table, ifaces, j, intf);
      }
    }
  }

  function PassOf(link: Link): Pass { if link.kind.Bridge? then Bridges else if link.kind.Bond? then Bonds else Main }

  predicate HousedBefore(pass: Pass, table: LinkTable, ifaces: seq<Iface>, j: nat, intf: string)
    requires j < |ifaces|
  {
    || HousedIn(pass, table, ifaces, j, intf)
    || (!pass.Bridges? && HousedIn(Bridges, table, ifaces, |ifaces|, intf))
    || (pass.Main? && HousedIn(Bonds, table, ifaces, |ifaces|, intf))
  }

  lemma BeforeHouses(pass: Pass, table: LinkTable, ifaces: seq<Iface>, i: nat, j: nat, intf: string)
    requires i < |ifaces| && j < |ifaces| && InPass(pass, ifaces[j].link)
    requires Before(ifaces, i, j) && HousesAt(table, ifaces, i, intf)
    ensures HousedBefore(pass, table, ifaces, j, intf)
  {
    hide HousesAt;
    assert InPass(PassOf(ifaces[i].link), ifaces[i].link);
  }

  lemma HouseBefore(pass: Pass, table: LinkTable, ifaces: seq<Iface>, j: nat, intf: string) returns (i: nat)
    requires j < |ifaces| && InPass(pass, ifaces[j].link) && HousedBefore(pass, table, ifaces, j, intf)
    ensures i < |ifaces| && Before(ifaces, i, j) && HousesAt(table, ifaces, i, intf)
  {
    hide HousesAt;
    if HousedIn(pass, table, ifaces, j, intf) {
      i :| 0 <= i < j && InPass(pass, ifaces[i].link) && HousesAt(table, ifaces, i, intf);
    } else if !pass.Bridges? && HousedIn(Bridges, table, ifaces, |ifaces|, intf) {
      i :| 0 <= i < |ifaces| && InPass(Bridges, ifaces[i].link) && HousesAt(table, ifaces, i, intf);
    } else {
      i :| 0 <= i < |ifaces| && InPass(Bonds, ifaces[i].link) && HousesAt(table, ifaces, i, intf);
    }
  }

  // ----- the final type -----

  lemma {:induction false} TypeConcat(table: LinkTable, a: seq<Event>, b: seq<Event>, intf: string)
    ensures TypeAfter(table, a + b, intf)
         == if TypeAfter(table, b, intf).Some? then TypeAfter(table, b, intf) else TypeAfter(table, a, intf)
  {
    hide TypeFrom;
    if b == [] {
      assert a + b == a;
    } else {
      assert (a + b)[..|a + b| - 1] == a + b[..|b| - 1];
      TypeConcat(table, a, b[..|b| - 1], intf);
    }
  }

  lemma {:induction false} PickedType(pass: Pass, table: LinkTable, ifaces: seq<Iface>, intf: string, i: nat)
    requires i < |ifaces| && InPass(pass, ifaces[i].link) && HousesAt(table, ifaces, i, intf)
    requires forall j :: i < j < |ifaces| && InPass(pass, ifaces[j].link) ==> !HousesAt(table, ifaces, j, intf)
    ensures TypeAfter(table, Picked(pass, ifaces), intf) == TypeFrom(table, LinkEvent(ifaces[i].link), intf)
    ensures TypeFrom(table, LinkEvent(ifaces[i].link), intf).Some?
  {
    hide Houses, InPass, OnLower;
    var n := |ifaces| - 1;
    var init, link := ifaces[..n], ifaces[n].link;
    assert HousesAt(table, ifaces, n, intf) == Houses(table, LinkEvent(link), intf);
    if i < n {
      assert HousesAt(table, init, i, intf);
      forall j | i < j < n && InPass(pass, init[j].link) ensures !HousesAt(table, init, j, intf) {
        assert HousesAt(table, ifaces, j, intf) == HousesAt(table, init, j, intf);
      }
      PickedType(pass, table, init, intf, i);
    }
    var picked := Picked(pass, ifaces);
    if InPass(pass, link) {
      assert picked[..|picked| - 1] == Picked(pass, init) && picked[|picked| - 1] == LinkEvent(link);
    } else {
      assert Picked(pass, init) + [] == Picked(pass, init);
    }
  }

  lemma NotTyped(pass: Pass, table: LinkTable, ifaces: seq<Iface>, intf: string)
    requires !HousedIn(pass, table, ifaces, |ifaces|, intf)
    ensures TypeAfter(table, Picked(pass, ifaces), intf).None?
  {
    PickedGiven(false, pass, table, ifaces, intf);
    TypedExactly(table, Picked(pass, ifaces), intf);
  }

  /** Listed link i makes the directory of intf, and every other that does is added before it. */
  predicate LastListed(table: LinkTable, ifaces: seq<Iface>, intf: string, i: nat) {
    i < |ifaces| && HousesAt(table, ifaces, i, intf)
    && forall j :: 0 <= j < |ifaces| && j != i && HousesAt(table, ifaces, j, intf) ==> Before(ifaces, j, i)
  }

  /** The final type after a whole save is what the last such link gives: its own
      type, or that of the device under it when it is a VxLAN link. */
  lemma LastListedDecides(table: LinkTable, ifaces: seq<Iface>, intf: string, i: nat)
    requires LastListed(table, ifaces, intf, i)
    ensures TypeAfter(table, LinkOrder(ifaces), intf) == TypeFrom(table, LinkEvent(ifaces[i].link), intf)
    ensures TypeFrom(table, LinkEvent(ifaces[i].link), intf).Some?
  {
    var pass := PassOf(ifaces[i].link);
    hide HousesAt, TypeFrom, TypeAfter, Picked;
    PickedType(pass, table, ifaces, intf, i);
    if pass != Main {
      NotTyped(Main, table, ifaces, intf);
    }
    if pass == Bridges {
      NotTyped(Bonds, table, ifaces, intf);
    }
    TypeConcat(table, Picked(Bridges, ifaces) + Picked(Bonds, ifaces), Picked(Main, ifaces), intf);
    TypeConcat(table, Picked(Bridges, ifaces), Picked(Bonds, ifaces), intf);
  }

  // ----- the entries of a host -----

  function Neighbours(i: Iface): seq<Neigh> { (if i.link.kind.Bridge? then [] else i.fdbs) + i.neighs }

  /** The listed link gives intf an entry of this kind. */
  predicate Has(k: Kind, table: LinkTable, i: Iface, intf: string) {
    match k
    case SubIntfs => Tagged(LinkEvent(i.link), intf)
    case Addrs => i.link.name == intf && Listed(table, i.link) && i.addrs != []
    case _ => i.link.name == intf && Listed(table, i.link) && exists n :: n in Neighbours(i) && SavedAs(k, table, n, i.link)
  }

  predicate HostHas(k: Kind, table: LinkTable, ifaces: seq<Iface>, intf: string) {
    exists i :: i in ifaces && Has(k, table, i, intf)
  }

  lemma AnyConcat(k: Kind, table: LinkTable, intf: string, a: seq<Event>, b: seq<Event>)
    ensures AnyEntry(k, table, intf, a + b) <==> AnyEntry(k, table, intf, a) || AnyEntry(k, table, intf, b)
  {
    hide Entry;
  }

  lemma AnyNeigh(k: Kind, table: LinkTable, intf: string, ns: seq<Neigh>, link: Link)
    ensures AnyEntry(k, table, intf, NeighEvents(ns, link)) <==>
      link.name == intf && exists n :: n in ns && SavedAs(k, table, n, link)
  {
    hide SavedAs;
    var h := NeighEvents(ns, link);
    if e :| e in h && Entry(k, table, intf, e) {
      assert e.neigh in ns;
    }
    if link.name == intf {
      if n :| n in ns && SavedAs(k, table, n, link) {
        var j :| 0 <= j < |ns| && ns[j] == n;
        assert h[j] == NeighEvent(n, link);
        assert Entry(k, table, intf, h[j]);
      }
    }
  }

  lemma AnyAddr(k: Kind, table: LinkTable, intf: string, i: Iface)
    ensures AnyEntry(k, table, intf, AddrEvents(i)) <==> k.Addrs? && i.link.name == intf && i.addrs != []
  {
    var h := AddrEvents(i);
    if k.Addrs? && i.link.name == intf && i.addrs != [] {
      assert Entry(k, table, intf, h[0]);
    }
  }

  lemma AnyLink(k: Kind, table: LinkTable, intf: string, link: Link)
    ensures AnyEntry(k, table, intf, [LinkEvent(link)]) <==> k.SubIntfs? && Tagged(LinkEvent(link), intf)
  {
    hide Tagged;
    assert LinkEvent(link) in [LinkEvent(link)];
  }

  lemma AnyNone(k: Kind, table: LinkTable, intf: string, h: seq<Event>)
    requires forall e :: e in h ==> e.RouteEvent?
    ensures !AnyEntry(k, table, intf, h)
  {
  }

  lemma WalkHas(k: Kind, table: LinkTable, i: Iface, intf: string)
    ensures Has(k, table, i, intf) <==>
      || AnyEntry(k, table, intf, WalkOf(Bridges, table, i))
      || AnyEntry(k, table, intf, WalkOf(Bonds, table, i))
      || AnyEntry(k, table, intf, WalkOf(Main, table, i))
  {
    var link := i.link;
    var added, addrs, fdbs, neighs := [LinkEvent(link)], AddrEvents(i), NeighEvents(i.fdbs, link), NeighEvents(i.neighs, link);
    AnyLink(k, table, intf, link);
    AnyAddr(k, table, intf, i);
    AnyNeigh(k, table, intf, i.fdbs, link);
    AnyNeigh(k, table, intf, i.neighs, link);
    AnyNone(k, table, intf, []);
    assert k.Addrs? || k.SubIntfs? ==> forall n :: !SavedAs(k, table, n, link);
    hide AnyEntry, SavedAs, AddrEvents, NeighEvents, LinkFails, Tagged;
    AnyConcat(k, table, intf, added, addrs);
    AnyConcat(k, table, intf, fdbs, neighs);
    AnyConcat(k, table, intf, added + addrs, fdbs);
    AnyConcat(k, table, intf, added + addrs + fdbs, neighs);
  }

  lemma {:induction false} AnyWalk(k: Kind, pass: Pass, table: LinkTable, ifaces: seq<Iface>, intf: string)
    ensures AnyEntry(k, table, intf, Walk(pass, table, ifaces)) <==>
      exists i :: i in ifaces && AnyEntry(k, table, intf, WalkOf(pass, table, i))
  {
    hide WalkOf;
    AnyNone(k, table, intf, []);
    if ifaces != [] {
      var init, last := ifaces[..|ifaces| - 1], ifaces[|ifaces| - 1];
      assert ifaces == init + [last];
      AnyWalk(k, pass, table, init, intf);
      AnyConcat(k, table, intf, Walk(pass, table, init), WalkOf(pass, table, last));
      hide AnyEntry;
    }
  }

  /** A whole save has an entry exactly when a listed link gives one. */
  lemma HostHasExactly(k: Kind, table: LinkTable, ifaces: seq<Iface>, routes: seq<Route>, intf: string)
    ensures AnyEntry(k, table, intf, DumpEvents(table, ifaces, routes)) <==> HostHas(k, table, ifaces, intf)
  {
    var a, b, c := Walk(Bridges, table, ifaces), Walk(Bonds, table, ifaces), Walk(Main, table, ifaces);
    AnyWalk(k, Bridges, table, ifaces, intf);
    AnyWalk(k, Bonds, table, ifaces, intf);
    AnyWalk(k, Main, table, ifaces, intf);
    AnyNone(k, table, intf, RouteEvents(routes));
    hide AnyEntry, Walk, WalkOf, Has;
    AnyConcat(k, table, intf, a, b);
    AnyConcat(k, table, intf, a + b, c);
    AnyConcat(k, table, intf, a + b + c, RouteEvents(routes));
    forall i | i in ifaces
      ensures Has(k, table, i, intf) <==>
        || AnyEntry(k, table, intf, WalkOf(Bridges, table, i))
        || AnyEntry(k, table, intf, WalkOf(Bonds, table, i))
        || AnyEntry(k, table, intf, WalkOf(Main, table, i))
    {
      WalkHas(k, table, i, intf);
    }
  }
}
