/** The two forms of a dump agree: what the readers rebuild from the files of
    an interface is what the flat script says about it. */
module DumpReplay {
  import opened Text
  import opened IntfDump
  import opened IntfReplay

  // ----- which lines of the flat script are about an interface -----

  /** A name the kernel gives an interface. */
  predicate NameOK(name: string) {
    |name| < 16 && forall c :: c in name ==> c != ' ' && c != '\n' && c != '\r'
  }

  /** Address text as net prints it. */
  predicate TextOK(t: string) {
    |t| <= 256 && forall c :: c in t ==> c != '\n' && c != '\r'
  }

  predicate Framed(before: string, after: string, line: string) {
    |before| + |after| <= |line| && before <= line && after == line[|line| - |after|..]
  }

  ghost predicate VlanLineOf(name: string, line: string) {
    NameOK(name) && '.' in name && line == VlanLine(name)
  }

  /** The script line adds an entry of this kind to intf (a sub-interface of intf). */
  ghost predicate IsLineOf(k: Kind, intf: string, line: string) {
    if k.SubIntfs? then exists name :: VlanLineOf(name, line) && Parent(name) == intf
    else Framed(Before(k), After(k, intf), line)
  }

  ghost function Selected(k: Kind, intf: string, lines: seq<string>): seq<string> {
    if lines == [] then []
    else
      var last := lines[|lines| - 1];
      Selected(k, intf, lines[..|lines| - 1]) + if IsLineOf(k, intf, last) then [last] else []
  }

  // ----- the texts a trace leaves, line by line -----

  function Said(es: seq<Effect>): seq<string> {
    if es == [] then []
    else Said(es[..|es| - 1]) + (match es[|es| - 1] case Say(line) => [line] case _ => [])
  }

  predicate IsLog(e: Effect, dir: string, base: File) {
    e.Log? && e.dir == dir && e.base == base
  }

  /** Every record meant for a file, written or not. */
  function Logged(es: seq<Effect>, dir: string, base: File): seq<string> {
    if es == [] then []
    else
      var last := es[|es| - 1];
      Logged(es[..|es| - 1], dir, base) + if IsLog(last, dir, base) then [last.line] else []
  }

  function Made(dirs: set<string>, es: seq<Effect>): set<string> {
    if es == [] then dirs
    else Made(dirs, es[..|es| - 1]) + (match es[|es| - 1] case Mkdir(dir) => {dir} case _ => {})
  }

  /** The records that reach the file: its directory is there. */
  function Kept(dirs: set<string>, es: seq<Effect>, dir: string, base: File): seq<string> {
    if es == [] then []
    else
      var init, last := es[..|es| - 1], es[|es| - 1];
      Kept(dirs, init, dir, base) + if IsLog(last, dir, base) && dir in Made(dirs, init) then [last.line] else []
  }

  /** The records lost because the interface's directory was not made yet. */
  function Orphans(dirs: set<string>, es: seq<Effect>, dir: string, base: File): nat {
    if es == [] then 0
    else
      var init, last := es[..|es| - 1], es[|es| - 1];
      Orphans(dirs, init, dir, base) + if IsLog(last, dir, base) && dir !in Made(dirs, init) then 1 else 0
  }

  lemma {:induction false} KeptOrLost(dirs: set<string>, es: seq<Effect>, dir: string, base: File)
    ensures |Logged(es, dir, base)| == |Kept(dirs, es, dir, base)| + Orphans(dirs, es, dir, base)
    ensures Orphans(dirs, es, dir, base) == 0 ==> Kept(dirs, es, dir, base) == Logged(es, dir, base)
  {
    if es != [] {
      KeptOrLost(dirs, es[..|es| - 1], dir, base);
    }
  }

  predicate LogFile(base: File) {
    base.MembersFile? || base.SubIntfFile? || base.Ipv4Addr? || base.Ipv4Neigh? || base.Ipv4Route?
    || base.VxFdbs? || base.L2Fdbs?
  }

  /** Lines the scanner gives back, and no log file is ever written afresh. */
  predicate Tidy(e: Effect) {
    match e
    case Say(line) => GoodLine(line)
    case Log(_, base, line) => GoodLine(line) && LogFile(base)
    case Put(_, base, _) => !LogFile(base)
    case Mkdir(_) => true
  }

  predicate AllTidy(es: seq<Effect>) { forall e :: e in es ==> Tidy(e) }

  lemma FileNamesDistinct(a: File, b: File)
    ensures FileName(a) == FileName(b) ==> a == b
    ensures '/' !in FileName(a)
  {
  }

  lemma PathsDistinct(d1: string, b1: File, d2: string, b2: File)
    requires PathOf(d1, b1) == PathOf(d2, b2)
    ensures d1 == d2 && b1 == b2
  {
    hide FileName;
    FileNamesDistinct(b1, b2);
    FileNamesDistinct(b2, b1);
    LastAt(d1, '/', FileName(b1));
    LastAt(d2, '/', FileName(b2));
  }

  lemma {:induction false} RunDirs(path: string, es: seq<Effect>)
    ensures Run(Fresh(path), es).dirs == Made({path}, es)
  {
    if es != [] {
      RunDirs(path, es[..|es| - 1]);
    }
  }

  /** The flat script is the lines said, in order. */
  lemma {:induction false} ScriptLines(path: string, es: seq<Effect>)
    requires AllTidy(es)
    ensures Clean(Run(Fresh(path), es).script)
    ensures ScanLines(Run(Fresh(path), es).script) == Said(es)
  {
    if es != [] {
      var init, last := es[..|es| - 1], es[|es| - 1];
      ScriptLines(path, init);
      assert Tidy(last);
      if last.Say? {
        ScanAppend(Run(Fresh(path), init).script, last.line);
      }
    }
  }

  /** A log file is the records kept for it, in order. */
  lemma {:induction false} FileLines(path: string, es: seq<Effect>, dir: string, base: File)
    requires AllTidy(es) && LogFile(base)
    ensures var text := TextAt(Run(Fresh(path), es).files, PathOf(dir, base));
      Clean(text) && ScanLines(text) == Kept({path}, es, dir, base)
  {
    if es != [] {
      var init, last := es[..|es| - 1], es[|es| - 1];
      FileLines(path, init, dir, base);
      RunDirs(path, init);
      assert Tidy(last);
      var d := Run(Fresh(path), init);
      FileStep(d, last, dir, base);
    }
  }

  lemma FileStep(d: Dump, e: Effect, dir: string, base: File)
    requires Tidy(e) && LogFile(base)
    requires Clean(TextAt(d.files, PathOf(dir, base)))
    ensures var was, now := TextAt(d.files, PathOf(dir, base)), TextAt(Apply(d, e).files, PathOf(dir, base));
      && Clean(now)
      && ScanLines(now) == ScanLines(was) + if IsLog(e, dir, base) && dir in d.dirs then [e.line] else []
  {
    hide FileName, Clean, ScanLines;
    var f := PathOf(dir, base);
    if e.Put? && e.dir in d.dirs && PathOf(e.dir, e.base) == f {
      PathsDistinct(e.dir, e.base, dir, base);
      assert false;
    }
    if e.Log? && e.dir in d.dirs && PathOf(e.dir, e.base) == f {
      PathsDistinct(e.dir, e.base, dir, base);
      ScanAppend(TextAt(d.files, f), e.line);
    }
  }

  // ----- records and lines pair up -----

  ghost predicate Agree(k: Kind, intf: string, path: string, es: seq<Effect>) {
    Selected(k, intf, Said(es)) == Commands(k, intf, Logged(es, path + intf, FileOf(k)))
  }

  /** As many lines as records. */
  ghost predicate Paired(k: Kind, intf: string, path: string, es: seq<Effect>) {
    |Selected(k, intf, Said(es))| == |Logged(es, path + intf, FileOf(k))|
  }

  lemma {:induction false} CommandsLength(k: Kind, intf: string, records: seq<string>)
    ensures |Commands(k, intf, records)| == |records|
  {
    hide Command;
    if records != [] {
      CommandsLength(k, intf, records[..|records| - 1]);
    }
  }

  lemma AgreePaired(k: Kind, intf: string, path: string, es: seq<Effect>)
    requires Agree(k, intf, path, es)
    ensures Paired(k, intf, path, es)
  {
    CommandsLength(k, intf, Logged(es, path + intf, FileOf(k)));
  }

  lemma {:induction false} SaidConcat(a: seq<Effect>, b: seq<Effect>)
    ensures Said(a + b) == Said(a) + Said(b)
  {
    if b == [] {
      assert a + b == a;
    } else {
      assert (a + b)[..|a + b| - 1] == a + b[..|b| - 1];
      SaidConcat(a, b[..|b| - 1]);
    }
  }

  lemma {:induction false} LoggedConcat(a: seq<Effect>, b: seq<Effect>, dir: string, base: File)
    ensures Logged(a + b, dir, base) == Logged(a, dir, base) + Logged(b, dir, base)
  {
    if b == [] {
      assert a + b == a;
    } else {
      assert (a + b)[..|a + b| - 1] == a + b[..|b| - 1];
      LoggedConcat(a, b[..|b| - 1], dir, base);
    }
  }

  lemma {:induction false} SelectedConcat(k: Kind, intf: string, a: seq<string>, b: seq<string>)
    ensures Selected(k, intf, a + b) == Selected(k, intf, a) + Selected(k, intf, b)
  {
    hide IsLineOf;
    if b == [] {
      assert a + b == a;
    } else {
      assert (a + b)[..|a + b| - 1] == a + b[..|b| - 1];
      SelectedConcat(k, intf, a, b[..|b| - 1]);
    }
  }

  lemma {:induction false} CommandsConcat(k: Kind, intf: string, a: seq<string>, b: seq<string>)
    ensures Commands(k, intf, a + b) == Commands(k, intf, a) + Commands(k, intf, b)
  {
    hide Command;
    if b == [] {
      assert a + b == a;
    } else {
      assert (a + b)[..|a + b| - 1] == a + b[..|b| - 1];
      CommandsConcat(k, intf, a, b[..|b| - 1]);
    }
  }

  lemma SameConcat<T>(a: seq<T>, b: seq<T>, c: seq<T>, d: seq<T>)
    requires |a| == |c|
    ensures a + b == c + d <==> a == c && b == d
  {
    assert a == (a + b)[..|a|] && b == (a + b)[|a|..];
    assert c == (c + d)[..|c|] && d == (c + d)[|c|..];
  }

  lemma AgreeConcat(k: Kind, intf: string, path: string, a: seq<Effect>, b: seq<Effect>)
    requires Paired(k, intf, path, a) && Paired(k, intf, path, b)
    ensures Paired(k, intf, path, a + b)
    ensures Agree(k, intf, path, a + b) <==> Agree(k, intf, path, a) && Agree(k, intf, path, b)
  {
    hide Said, Logged, Selected, Commands, FileOf;
    CommandsLength(k, intf, Logged(a, path + intf, FileOf(k)));
    SameConcat(Selected(k, intf, Said(a)), Selected(k, intf, Said(b)),
      Commands(k, intf, Logged(a, path + intf, FileOf(k))), Commands(k, intf, Logged(b, path + intf, FileOf(k))));
    SaidConcat(a, b);
    LoggedConcat(a, b, path + intf, FileOf(k));
    SelectedConcat(k, intf, Said(a), Said(b));
    CommandsConcat(k, intf, Logged(a, path + intf, FileOf(k)), Logged(b, path + intf, FileOf(k)));
  }

  /** Neither a line nor a record of kind k for intf. */
  ghost predicate Quiet(k: Kind, intf: string, e: Effect) {
    match e
    case Say(line) => !IsLineOf(k, intf, line)
    case Log(_, base, _) => base != FileOf(k)
    case _ => true
  }

  lemma SelectedOne(k: Kind, intf: string, line: string)
    ensures Selected(k, intf, []) == []
    ensures Selected(k, intf, [line]) == if IsLineOf(k, intf, line) then [line] else []
  {
    hide IsLineOf;
    assert [line][..0] == [];
  }

  lemma CommandsOne(k: Kind, intf: string, record: string)
    ensures Commands(k, intf, []) == []
    ensures Commands(k, intf, [record]) == [Command(k, intf, record)]
  {
    hide Command;
    assert [record][..0] == [];
  }

  lemma EffectOne(e: Effect, dir: string, base: File)
    ensures Said([e]) == match e { case Say(line) => [line] case _ => [] }
    ensures Logged([e], dir, base) == if IsLog(e, dir, base) then [e.line] else []
  {
    assert [e][..0] == [];
  }

  lemma QuietOne(k: Kind, intf: string, path: string, e: Effect)
    requires Quiet(k, intf, e)
    ensures Selected(k, intf, Said([e])) == [] && Logged([e], path + intf, FileOf(k)) == []
  {
    hide IsLineOf, FileOf, Selected;
    SelectedOne(k, intf, "");
    EffectOne(e, path + intf, FileOf(k));
    if e.Say? {
      SelectedOne(k, intf, e.line);
    }
  }

  lemma {:induction false} AgreeQuiet(k: Kind, intf: string, path: string, es: seq<Effect>)
    requires forall e :: e in es ==> Quiet(k, intf, e)
    ensures Agree(k, intf, path, es)
    ensures Selected(k, intf, Said(es)) == [] && Logged(es, path + intf, FileOf(k)) == []
  {
    hide Quiet, FileOf, Command, Selected, Commands;
    SelectedOne(k, intf, "");
    CommandsOne(k, intf, "");
    if es != [] {
      var init, last := es[..|es| - 1], es[|es| - 1];
      AgreeQuiet(k, intf, path, init);
      QuietOne(k, intf, path, last);
      assert init + [last] == es;
      SaidConcat(init, [last]);
      SelectedConcat(k, intf, Said(init), Said([last]));
      LoggedConcat(init, [last], path + intf, FileOf(k));
    }
  }

  /** A line and the record written behind it, with nothing of note between. */
  lemma AgreeAround(k: Kind, intf: string, path: string, line: string, between: seq<Effect>,
                    dir: string, base: File, record: string)
    requires IsLineOf(k, intf, line) <==> dir == path + intf && base == FileOf(k)
    requires Selected(k, intf, Said(between)) == [] && Logged(between, path + intf, FileOf(k)) == []
    ensures var es := [Say(line)] + between + [Log(dir, base, record)];
      && Paired(k, intf, path, es)
      && (Agree(k, intf, path, es) <==> (IsLineOf(k, intf, line) ==> Command(k, intf, record) == line))
  {
    hide IsLineOf, FileOf, Command, Selected, Commands, Said, Logged;
    var say, log, d, b := Say(line), Log(dir, base, record), path + intf, FileOf(k);
    SaidConcat([say], between);
    SaidConcat([say] + between, [log]);
    LoggedConcat([say], between, d, b);
    LoggedConcat([say] + between, [log], d, b);
    SelectedConcat(k, intf, Said([say]), Said(between));
    EffectOne(say, d, b);
    EffectOne(log, d, b);
    SelectedOne(k, intf, line);
    CommandsOne(k, intf, record);
    var lines, chosen := [line] + Said(between), if IsLineOf(k, intf, line) then [line] else [];
    assert lines + [] == lines && chosen + [] == chosen;
    assert [] + [record] == [record] && [] + [] + [record] == [record];
  }

  // ----- what a line is about -----

  /** The word after a space-free word is found in one way. */
  lemma FirstWord(a: string, x: string, b: string, y: string)
    requires ' ' !in a && ' ' !in b && a + " " + x == b + " " + y
    ensures a == b && x == y
  {
    IndexAt(a, ' ', x);
    IndexAt(b, ' ', y);
    assert (a + " " + x)[..|a|] == a && (b + " " + y)[..|b|] == b;
    assert (a + " " + x)[|a| + 1..] == x && (b + " " + y)[|b| + 1..] == y;
  }

  predicate EndsIn(s: string, suffix: string) {
    |suffix| <= |s| && s[|s| - |suffix|..] == suffix
  }

  lemma DevNameUnique(x: string, m: string, n: string)
    requires ' ' !in m && ' ' !in n
    requires EndsIn(x, " dev " + m) && EndsIn(x, " dev " + n)
    ensures m == n
  {
    var front := x[..|x| - |m| - 1];
    assert x == x[..|x| - |m| - 5] + (" dev " + m);
    assert x == front + " " + m;
    var other := x[..|x| - |n| - 1];
    assert x == x[..|x| - |n| - 5] + (" dev " + n);
    assert x == other + " " + n;
    LastAt(front, ' ', m);
    LastAt(other, ' ', n);
  }

  /** The line of one record file is of no other kind and about no other interface. */
  lemma CommandIsLineOf(k: Kind, intf: string, k2: Kind, m: string, record: string)
    requires !k2.SubIntfs? && NameOK(m) && NameOK(intf)
    ensures IsLineOf(k, intf, Command(k2, m, record)) <==> k == k2 && m == intf
  {
    var line := Command(k2, m, record);
    var before, after := Before(k2), After(k2, m);
    ConcatAssociative(before, record, after);
    assert before <= line;
    assert line[|line| - |after|..] == after;
    hide Command, Before, After;
    if k != k2 {
      forall name | VlanLineOf(name, line) ensures Before(SubIntfs) <= line {
        VlanStart(name);
      }
      if Before(k) <= line {
        BeforesDiffer(k, k2, line);
      }
    } else if Framed(before, After(k, intf), line) {
      SameInterface(k, intf, m, line);
    }
  }

  function VlanRest(name: string): string
    requires '.' in name
  {
    "link " + Parent(name) + " type vlan id " + VlanId(name)
  }

  lemma VlanStart(name: string)
    requires '.' in name
    ensures VlanLine(name) == Before(SubIntfs) + (name + " " + VlanRest(name))
    ensures Before(SubIntfs) <= VlanLine(name)
    ensures VlanRest(name)[0] == 'l'
  {
    var p, v := Parent(name), VlanId(name);
    hide Parent, VlanId;
    assert " link " == " " + "link ";
    assert VlanLine(name) == Before(SubIntfs) + (name + " " + VlanRest(name));
  }

  lemma BeforesDiffer(k: Kind, k2: Kind, line: string)
    requires Before(k) <= line && Before(k2) <= line
    ensures k == k2
  {
    assert line[0] == Before(k)[0] == Before(k2)[0];
    assert line[3] == Before(k)[3] == Before(k2)[3];
    if line[0] == 'b' {
      assert line[12] == Before(k)[12] == Before(k2)[12];
    }
  }

  lemma SameInterface(k: Kind, intf: string, m: string, line: string)
    requires !k.SubIntfs? && NameOK(m) && NameOK(intf)
    requires EndsIn(line, After(k, m)) && EndsIn(line, After(k, intf))
    ensures m == intf
  {
    if k.Addrs? {
      DevNameUnique(line, m, intf);
    } else {
      var body := line[..|line| - 10];
      assert line[|line| - 10..] == " permanent" by {
        assert After(k, m)[|After(k, m)| - 10..] == " permanent";
      }
      assert line == body + " permanent";
      StripTail(body, " dev " + m, " permanent");
      StripTail(body, " dev " + intf, " permanent");
      DevNameUnique(body, m, intf);
    }
  }

  lemma StripTail(body: string, suffix: string, tail: string)
    requires EndsIn(body + tail, suffix + tail)
    ensures EndsIn(body, suffix)
  {
    var s, t := body + tail, suffix + tail;
    var cut := |s| - |t|;
    assert s[cut..][..|suffix|] == t[..|suffix|] == suffix;
    assert s[cut..][..|suffix|] == body[cut..];
  }

  // ----- lines about links -----

  /** A line about a link that adds no sub-interface. */
  ghost predicate LinkLine(line: string) {
    "ip link set " <= line || exists name :: TypedLine(name, line)
  }

  predicate TypedLine(name: string, line: string) {
    ' ' !in name && "ip link add " + name + " type" <= line
  }

  lemma TypedRest(name: string, line: string) returns (rest: string)
    requires TypedLine(name, line)
    ensures line == Before(SubIntfs) + (name + " " + rest) && |rest| > 0 && rest[0] == 't'
  {
    var typed := "ip link add " + name + " type";
    rest := "type" + line[|typed|..];
    assert " type" == " " + "type";
    assert line == typed + line[|typed|..];
  }

  lemma NotVlan(name: string, line: string)
    requires LinkLine(line)
    ensures !VlanLineOf(name, line)
  {
    if VlanLineOf(name, line) {
      VlanStart(name);
      assert line[8] == 'a';
      assert !("ip link set " <= line) by {
        assert "ip link set "[8] == 's';
      }
      var other :| TypedLine(other, line);
      var rest := TypedRest(other, line);
      SameTail(Before(SubIntfs), name + " " + VlanRest(name), other + " " + rest);
      FirstWord(name, VlanRest(name), other, rest);
      assert false;
    }
  }

  lemma SameTail(head: string, x: string, y: string)
    requires head + x == head + y
    ensures x == y
  {
    assert (head + x)[|head|..] == x && (head + y)[|head|..] == y;
  }

  lemma LinkLineQuiet(k: Kind, intf: string, line: string)
    requires LinkLine(line)
    ensures !IsLineOf(k, intf, line)
  {
    if k.SubIntfs? {
      forall name ensures !VlanLineOf(name, line) {
        NotVlan(name, line);
      }
    } else {
      LinkLineStart(line);
      hide LinkLine;
      assert Before(k)[0] != 'i' || Before(k)[3] != 'l';
    }
  }

  lemma LinkLineStart(line: string)
    requires LinkLine(line)
    ensures |line| > 3 && line[0] == 'i' && line[3] == 'l'
  {
    if !("ip link set " <= line) {
      var name :| TypedLine(name, line);
      assert "ip link add " <= line;
    }
  }

  /** What every link but a tagged one amounts to. */
  ghost predicate LinkEffect(e: Effect) {
    match e
    case Say(line) => LinkLine(line)
    case Log(_, base, _) => base == MembersFile
    case _ => true
  }

  lemma Typed(name: string, rest: string)
    requires NameOK(name)
    ensures LinkLine("ip link add " + name + " type" + rest)
  {
    assert TypedLine(name, "ip link add " + name + " type" + rest);
  }

  // ----- every event keeps lines and records paired -----

  predicate LinkOK(table: LinkTable, link: Link) {
    && NameOK(link.name) && link.mtu < 0x1_0000_0000
    && (match link.kind
        case Bond(modeName, mode) => TextOK(modeName)
        case Vxlan(id, src, vtep) => id < 0x1_0000_0000 && TextOK(src) && (vtep in table ==> NameOK(table[vtep].name))
        case _ => true)
    && (link.master in table ==> NameOK(table[link.master].name))
  }

  /** What the kernel's names and net's texts look like. */
  predicate EventOK(table: LinkTable, e: Event) {
    match e
    case LinkEvent(link) => LinkOK(table, link)
    case AddrEvent(ip, name) => TextOK(ip) && NameOK(name)
    case NeighEvent(n, link) => NameOK(link.name) && (n.ip.Some? ==> TextOK(n.ip.value))
    case RouteEvent(r) =>
      (r.dst.Some? ==> TextOK(r.dst.value)) && (r.gw.Some? ==> TextOK(r.gw.value))
      && (r.link in table ==> NameOK(table[r.link].name))
  }

  predicate Plain(s: string) { '\n' !in s && '\r' !in s }

  lemma PlainConcat(a: string, b: string)
    ensures Plain(a + b) <==> Plain(a) && Plain(b)
  {
  }

  lemma PlainGood(s: string)
    requires Plain(s) && |s| < MAX_TOKEN
    ensures GoodLine(s)
  {
    assert s != "" ==> s[|s| - 1] in s;
  }

  ghost predicate Harmless(es: seq<Effect>) {
    forall e :: e in es ==> LinkEffect(e) && Tidy(e)
  }

  lemma HarmlessConcat(a: seq<Effect>, b: seq<Effect>)
    requires Harmless(a) && Harmless(b)
    ensures Harmless(a + b)
  {
  }

  lemma SetLineHarmless(name: string, rest: string)
    requires NameOK(name) && Plain(rest) && |rest| < 1000
    ensures LinkEffect(Say("ip link set " + name + rest)) && Tidy(Say("ip link set " + name + rest))
  {
    var line := "ip link set " + name + rest;
    assert line == "ip link set " + (name + rest);
    PlainConcat("ip link set " + name, rest);
    PlainConcat("ip link set ", name);
  }

  lemma AddLineHarmless(name: string, rest: string)
    requires NameOK(name) && Plain(rest) && |rest| < 1000
    ensures LinkEffect(Say("ip link add " + name + " type" + rest)) && Tidy(Say("ip link add " + name + " type" + rest))
  {
    Typed(name, rest);
    PlainConcat("ip link add " + name + " type", rest);
    PlainConcat("ip link add " + name, " type");
    PlainConcat("ip link add ", name);
  }

  lemma UpHarmless(up: bool, name: string)
    requires NameOK(name)
    ensures Harmless(UpIf(up, name)) && Harmless([Say(UpLine(name))])
  {
    SetLineHarmless(name, " up");
  }

  lemma DecPlain(n: nat)
    requires n < 0x1_0000_0000
    ensures Plain(Dec(n)) && |Dec(n)| <= 10
  {
    assert Pow10(10) == 10000000000;
    DecLength(n, 10);
  }

  lemma MtuHarmless(dir: string, link: Link)
    requires NameOK(link.name) && link.mtu < 0x1_0000_0000
    ensures Harmless(MtuEffects(dir, link))
  {
    DecPlain(link.mtu);
    PlainConcat(" mtu ", Dec(link.mtu));
    SetLineHarmless(link.name, " mtu " + Dec(link.mtu));
    ConcatAssociative("ip link set " + link.name, " mtu ", Dec(link.mtu));
  }

  lemma BridgeHarmless(path: string, link: Link)
    requires NameOK(link.name)
    ensures Harmless(BridgeEffects(path, link))
  {
    AddLineHarmless(link.name, " bridge");
    ConcatAssociative("ip link add " + link.name, " type", " bridge");
    assert " type" + " bridge" == " type bridge";
    UpHarmless(link.up, link.name);
  }

  lemma BondHarmless(path: string, link: Link)
    requires NameOK(link.name) && link.mtu < 0x1_0000_0000 && link.kind.Bond? && TextOK(link.kind.modeName)
    ensures Harmless(BondEffects(path, link))
  {
    AddLineHarmless(link.name, " bond");
    ConcatAssociative("ip link add " + link.name, " type", " bond");
    assert " type" + " bond" == " type bond";
    PlainConcat(" type bond mode ", link.kind.modeName);
    SetLineHarmless(link.name, " type bond mode " + link.kind.modeName);
    ConcatAssociative("ip link set " + link.name, " type bond mode ", link.kind.modeName);
    MtuHarmless(path + link.name, link);
    var dir := path + link.name;
    var made := [Say("ip link add " + link.name + " type bond"),
      Say("ip link set " + link.name + " type bond mode " + link.kind.modeName),
      Mkdir(dir), Put(dir, TypeFile, "bond"), Put(dir, ModeFile, Dec(link.kind.mode))];
    assert BondEffects(path, link) == made + MtuEffects(dir, link);
    hide LinkLine, GoodLine, MtuEffects, Plain, NameOK, Dec;
    assert Harmless(made);
    HarmlessConcat(made, MtuEffects(dir, link));
  }

  lemma DeviceHarmless(path: string, link: Link)
    requires NameOK(link.name) && link.mtu < 0x1_0000_0000
    ensures Harmless(DeviceEffects(path, link))
  {
    MtuHarmless(path + link.name, link);
  }

  lemma Extend(p: string, a: string, b: string)
    requires p <= a && Plain(a) && Plain(b)
    ensures p <= a + b && Plain(a + b)
  {
  }

  lemma VxlanLineHarmless(link: Link, lower: Link)
    requires NameOK(link.name) && NameOK(lower.name)
    requires link.kind.Vxlan? && link.kind.id < 0x1_0000_0000 && TextOK(link.kind.src)
    ensures LinkEffect(Say(VxlanLine(link, lower))) && Tidy(Say(VxlanLine(link, lower)))
  {
    var id, src, p := Dec(link.kind.id), link.kind.src, "ip link add " + link.name + " type";
    DecPlain(link.kind.id);
    var line := "ip link add " + link.name + " type vxlan id ";
    PlainConcat("ip link add ", link.name);
    assert line == p + " vxlan id ";
    Extend(p, p, " vxlan id ");
    assert Plain(src) && Plain(lower.name) && |line| < 100 && ' ' !in link.name;
    assert Plain(" local ") && Plain(" dev ") && Plain(" dstport 4789");
    hide NameOK, TextOK, Plain;
    Extend(p, line, id);
    Extend(p, line + id, " local ");
    Extend(p, line + id + " local ", src);
    Extend(p, line + id + " local " + src, " dev ");
    Extend(p, line + id + " local " + src + " dev ", lower.name);
    Extend(p, line + id + " local " + src + " dev " + lower.name, " dstport 4789");
    assert TypedLine(link.name, VxlanLine(link, lower));
    PlainGood(VxlanLine(link, lower));
  }

  lemma VxlanHarmless(path: string, link: Link, lower: Link)
    requires NameOK(link.name) && NameOK(lower.name)
    requires link.kind.Vxlan? && link.kind.id < 0x1_0000_0000 && TextOK(link.kind.src)
    ensures Harmless(VxlanEffects(path, link, lower))
  {
    VxlanLineHarmless(link, lower);
    UpHarmless(true, link.name);
    hide VxlanLine, UpLine, LinkLine, GoodLine;
    assert Harmless(LowerEffects(path, link, lower));
  }

  lemma MasterHarmless(path: string, table: LinkTable, link: Link)
    requires LinkOK(table, link)
    ensures Harmless(MasterEffects(path, table, link))
  {
    if link.master > 0 && link.master in table {
      var master := table[link.master];
      PlainGood(link.name);
      SetLineHarmless(link.name, " down");
      assert Harmless(EnslaveEffects(path, link, master));
      PlainConcat(" master ", master.name);
      SetLineHarmless(link.name, " master " + master.name);
      ConcatAssociative("ip link set " + link.name, " master ", master.name);
      UpHarmless(true, link.name);
    }
  }

  lemma UntaggedHarmless(path: string, table: LinkTable, link: Link)
    requires LinkOK(table, link)
    requires link.kind.Bridge? || '.' !in link.name
    ensures Harmless(LinkEffects(path, table, link))
  {
    hide BridgeEffects, VxlanEffects, BondEffects, DeviceEffects, MasterEffects, UpIf, Harmless, NameOK, TextOK;
    if link.kind.Bridge? {
      BridgeHarmless(path, link);
    } else if !CreateFails(table, link) {
      match link.kind {
        case Vxlan(_, _, vtep) => VxlanHarmless(path, link, table[vtep]);
        case Bond(_, _) => BondHarmless(path, link);
        case _ => DeviceHarmless(path, link);
      }
      MasterHarmless(path, table, link);
      UpHarmless(link.up, link.name);
      HarmlessConcat(CreateEffects(path, table, link), UpIf(link.up, link.name));
      HarmlessConcat(CreateEffects(path, table, link) + UpIf(link.up, link.name), MasterEffects(path, table, link));
    } else {
      NoEffects();
    }
  }

  lemma NoEffects()
    ensures Harmless([])
  {
  }

  lemma HarmlessAgrees(k: Kind, intf: string, path: string, es: seq<Effect>)
    requires Harmless(es)
    ensures Agree(k, intf, path, es) && AllTidy(es)
    ensures Selected(k, intf, Said(es)) == [] && Logged(es, path + intf, FileOf(k)) == []
  {
    forall e | e in es ensures Quiet(k, intf, e) {
      assert LinkEffect(e) && Tidy(e);
      if e.Say? {
        LinkLineQuiet(k, intf, e.line);
      }
    }
    AgreeQuiet(k, intf, path, es);
  }
}
