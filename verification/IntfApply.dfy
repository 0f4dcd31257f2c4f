/** `apply --per-intf`: the commands rebuilt from all the files of one interface. */
module IntfApply {
  import opened Text
  import opened IntfDump
  import opened IntfReplay

  function LinesOf(files: map<string, string>, path: string, intf: string, base: File): seq<string> {
    ScanLines(TextAt(files, PathOf(path + "/" + intf, base)))
  }

  /** The first line of a file; None when there is none. */
  function FirstOf(files: map<string, string>, path: string, intf: string, base: File): Option<string> {
    var lines := LinesOf(files, path, intf, base);
    if lines == [] then None else Some(lines[0])
  }

  function FileThere(files: map<string, string>, path: string, intf: string, base: File): bool {
    PathOf(path + "/" + intf, base) in files
  }

  // ----- what each step runs -----

  datatype Step = SetDev | Mtu | Records(kind: Kind) | Routes | Master

  function SetUp(name: string): string { "ip link set " + name + " up" }

  function RouteCommands(lines: seq<string>): seq<string> {
    if lines == [] then []
    else RouteCommands(lines[..|lines| - 1]) + ["ip route replace " + lines[|lines| - 1] + " proto static"]
  }

  function BridgeCommands(name: string): seq<string> { ["ip link add " + name + " type bridge ", SetUp(name)] }

  function BondCommands(files: map<string, string>, path: string, name: string): seq<string> {
    ["ip link add " + name + " type bond "]
    + (if !FileThere(files, path, name, ModeFile) then []
       else
         var mode := FirstOf(files, path, name, ModeFile);
         ["ip link set " + name + " type bond mode " + if mode.Some? then mode.value else ""])
    + [SetUp(name)]
  }

  function VxlanCommands(name: string, lines: seq<string>): seq<string>
    requires forall line :: line in lines ==> |Split(line, '|')| >= 3
  {
    if lines == [] then []
    else
      var last := lines[|lines| - 1];
      var token := Split(last, '|');
      VxlanCommands(name, lines[..|lines| - 1])
      + ["ip link add " + name + " type vxlan id " + token[0] + " local " + token[1] + " dev " + token[2] + " dst 4789",
         SetUp(name)]
  }

  function SetMasterCommands(intf: string, master: string): seq<string> {
    ["ip link set " + intf + " down", "ip link set " + intf + " master " + master, SetUp(intf)]
  }

  function MasterTokens(files: map<string, string>, path: string, intf: string): seq<string> {
    match FirstOf(files, path, intf, MasterFile)
    case None => []
    case Some(line) => Split(line, '|')
  }

  /** The tokens are there that the readers ask for; the process stops on a missing one. */
  predicate Tokened(files: map<string, string>, path: string, intf: string) {
    var master := MasterTokens(files, path, intf);
    && (forall r :: r in LinesOf(files, path, intf, SubIntfFile) ==> |Split(r, '|')| >= 3)
    && (master != [] ==> |master| >= 2)
    && (master != [] && master[1] == "vxlan" ==>
          forall line :: line in LinesOf(files, path, master[0], InfoFile) ==> |Split(line, '|')| >= 3)
  }

  function MasterCommands(files: map<string, string>, path: string, intf: string): seq<string>
    requires Tokened(files, path, intf)
  {
    var token := MasterTokens(files, path, intf);
    if token == [] then []
    else if token[1] == "bridge" then BridgeCommands(token[0]) + SetMasterCommands(intf, token[0])
    else if token[1] == "vxlan" then VxlanCommands(token[0], LinesOf(files, path, token[0], InfoFile))
    else if token[1] == "bond" then BondCommands(files, path, token[0]) + SetMasterCommands(intf, token[0])
    else []
  }

  function Output(files: map<string, string>, path: string, intf: string, step: Step): seq<string>
    requires Tokened(files, path, intf)
  {
    match step
    case SetDev => [SetUp(intf)]
    case Mtu =>
      (match FirstOf(files, path, intf, MtuFile)
       case None => []
       case Some(mtu) => ["ip link set dev " + intf + " mtu " + mtu])
    case Records(k) => WithTrailers(k, intf, LinesOf(files, path, intf, FileOf(k)))
    case Routes => RouteCommands(LinesOf(files, path, intf, Ipv4Route))
    case Master => MasterCommands(files, path, intf)
  }

  function Outputs(files: map<string, string>, path: string, intf: string, steps: seq<Step>): seq<string>
    requires Tokened(files, path, intf)
  {
    if steps == [] then []
    else Outputs(files, path, intf, steps[..|steps| - 1]) + Output(files, path, intf, steps[|steps| - 1])
  }

  /** The steps for each type of interface. */
  function Steps(itype: string): seq<Step> {
    if itype == "phy" || itype == "bond" then
      [SetDev, Mtu, Records(Addrs), Records(L2FdbEntries), Records(Neighs), Routes, Records(SubIntfs), Master]
    else if itype == "subintf" then
      [SetDev, Records(Addrs), Records(Neighs), Routes, Records(SubIntfs), Master]
    else if itype == "bridge" then [SetDev, Records(Addrs), Records(Neighs), Routes, Master]
    else if itype == "vxlan" then [SetDev, Records(Addrs), Records(VxFdbEntries), Records(Neighs), Routes, Master]
    else []
  }

  /** The records of a kind are read again for interfaces of this type. */
  predicate Replays(itype: string, k: Kind) {
    match k
    case Addrs => itype in {"phy", "bond", "subintf", "bridge", "vxlan"}
    case Neighs => itype in {"phy", "bond", "subintf", "bridge", "vxlan"}
    case L2FdbEntries => itype in {"phy", "bond"}
    case VxFdbEntries => itype == "vxlan"
    case SubIntfs => itype in {"phy", "bond", "subintf"}
  }

  function PerInterface(files: map<string, string>, path: string, intf: string): seq<string>
    requires Tokened(files, path, intf)
  {
    var itype := FirstOf(files, path, intf, TypeFile);
    if itype.None? then [] else Outputs(files, path, intf, Steps(itype.value))
  }

  // ----- the readers -----

  method AddMTU(files: map<string, string>, path: string, intf: string) returns (cmds: seq<string>)
    requires Tokened(files, path, intf)
    ensures cmds == Output(files, path, intf, Mtu)
  {
    var lines := LinesOf(files, path, intf, MtuFile);
    cmds := if lines == [] then [] else ["ip link set dev " + intf + " mtu " + lines[0]];
  }

  method AddRoutes(files: map<string, string>, path: string, intf: string) returns (cmds: seq<string>)
    ensures cmds == RouteCommands(LinesOf(files, path, intf, Ipv4Route))
  {
    hide LinesOf;
    var lines := LinesOf(files, path, intf, Ipv4Route);
    cmds := [];
    for i := 0 to |lines|
      invariant cmds == RouteCommands(lines[..i])
    {
      assert lines[..i + 1][..i] == lines[..i];
      cmds := cmds + ["ip route replace " + lines[i] + " proto static"];
    }
    assert lines[..|lines|] == lines;
  }

  method AddVxlan(files: map<string, string>, path: string, name: string) returns (cmds: seq<string>)
    requires forall line :: line in LinesOf(files, path, name, InfoFile) ==> |Split(line, '|')| >= 3
    ensures cmds == VxlanCommands(name, LinesOf(files, path, name, InfoFile))
  {
    hide LinesOf, Split;
    var lines := LinesOf(files, path, name, InfoFile);
    cmds := [];
    for i := 0 to |lines|
      invariant cmds == VxlanCommands(name, lines[..i])
    {
      assert lines[i] in lines && lines[..i + 1][..i] == lines[..i];
      var token := Split(lines[i], '|');
      var add := "ip link add " + name + " type vxlan id " + token[0] + " local " + token[1] + " dev " + token[2] + " dst 4789";
      cmds := cmds + [add, SetUp(name)];
    }
    assert lines[..|lines|] == lines;
  }

  method AddBond(files: map<string, string>, path: string, name: string) returns (cmds: seq<string>)
    ensures cmds == BondCommands(files, path, name)
  {
    cmds := ["ip link add " + name + " type bond "];
    if FileThere(files, path, name, ModeFile) {
      var lines, mode := LinesOf(files, path, name, ModeFile), "";
      if lines != [] {
        mode := lines[0];
      }
      cmds := cmds + ["ip link set " + name + " type bond mode " + mode];
    }
    cmds := cmds + [SetUp(name)];
  }

  method AddMaster(files: map<string, string>, path: string, intf: string) returns (cmds: seq<string>)
    requires Tokened(files, path, intf)
    ensures cmds == MasterCommands(files, path, intf)
  {
    hide LinesOf, Split;
    var token := MasterTokens(files, path, intf);
    cmds := [];
    if token == [] {
      return;
    }
    if token[1] == "bridge" {
      cmds := BridgeCommands(token[0]) + SetMasterCommands(intf, token[0]);
    } else if token[1] == "vxlan" {
      cmds := AddVxlan(files, path, token[0]);
    } else if token[1] == "bond" {
      cmds := AddBond(files, path, token[0]);
      cmds := cmds + SetMasterCommands(intf, token[0]);
    }
  }

  method ReadRecords(files: map<string, string>, path: string, intf: string, k: Kind) returns (cmds: seq<string>)
    requires Tokened(files, path, intf)
    ensures cmds == WithTrailers(k, intf, LinesOf(files, path, intf, FileOf(k)))
  {
    hide ScanLines, Split, WithTrailers, FirstOf, PathOf;
    cmds := Replay(files, path, intf, k);
  }

  /** One more step behind those that are done. */
  method Then(files: map<string, string>, path: string, intf: string, before: seq<string>, step: Step, ghost done: seq<Step>)
    returns (cmds: seq<string>, ghost now: seq<Step>)
    requires Tokened(files, path, intf) && before == Outputs(files, path, intf, done)
    ensures now == done + [step] && cmds == Outputs(files, path, intf, now)
  {
    hide Tokened, LinesOf, MasterCommands, RouteCommands, FirstOf, WithTrailers;
    now := done + [step];
    assert now[..|done|] == done;
    var more: seq<string>;
    match step {
      case SetDev => more := [SetUp(intf)];
      case Mtu => more := AddMTU(files, path, intf);
      case Records(k) => more := ReadRecords(files, path, intf, k);
      case Routes => more := AddRoutes(files, path, intf);
      case Master => more := AddMaster(files, path, intf);
    }
    cmds := before + more;
  }

  /** The branches by type; an interface without a type file, or of a type not
      known, runs nothing. */
  method ApplyIpConfigPerInterface(files: map<string, string>, path: string, intf: string) returns (cmds: seq<string>)
    requires Tokened(files, path, intf)
    ensures cmds == PerInterface(files, path, intf)
  {
    hide Tokened, FirstOf, Outputs;
    cmds := [];
    ghost var done: seq<Step> := [];
    NoOutputs(files, path, intf);
    var itype := FirstOf(files, path, intf, TypeFile);
    if itype.None? {
      return;
    }
    if itype.value == "phy" || itype.value == "bond" {
      cmds, done := Then(files, path, intf, cmds, SetDev, done);
      cmds, done := Then(files, path, intf, cmds, Mtu, done);
      cmds, done := Then(files, path, intf, cmds, Records(Addrs), done);
      cmds, done := Then(files, path, intf, cmds, Records(L2FdbEntries), done);
      cmds, done := Then(files, path, intf, cmds, Records(Neighs), done);
      cmds, done := Then(files, path, intf, cmds, Routes, done);
      cmds, done := Then(files, path, intf, cmds, Records(SubIntfs), done);
      cmds, done := Then(files, path, intf, cmds, Master, done);
    } else if itype.value == "subintf" {
      cmds, done := Then(files, path, intf, cmds, SetDev, done);
      cmds, done := Then(files, path, intf, cmds, Records(Addrs), done);
      cmds, done := Then(files, path, intf, cmds, Records(Neighs), done);
      cmds, done := Then(files, path, intf, cmds, Routes, done);
      cmds, done := Then(files, path, intf, cmds, Records(SubIntfs), done);
      cmds, done := Then(files, path, intf, cmds, Master, done);
    } else if itype.value == "bridge" {
      cmds, done := Then(files, path, intf, cmds, SetDev, done);
      cmds, done := Then(files, path, intf, cmds, Records(Addrs), done);
      cmds, done := Then(files, path, intf, cmds, Records(Neighs), done);
      cmds, done := Then(files, path, intf, cmds, Routes, done);
      cmds, done := Then(files, path, intf, cmds, Master, done);
    } else if itype.value == "vxlan" {
      cmds, done := Then(files, path, intf, cmds, SetDev, done);
      cmds, done := Then(files, path, intf, cmds, Records(Addrs), done);
      cmds, done := Then(files, path, intf, cmds, Records(VxFdbEntries), done);
      cmds, done := Then(files, path, intf, cmds, Records(Neighs), done);
      cmds, done := Then(files, path, intf, cmds, Routes, done);
      cmds, done := Then(files, path, intf, cmds, Master, done);
    }
    assert done == Steps(itype.value);
  }

  lemma NoOutputs(files: map<string, string>, path: string, intf: string)
    requires Tokened(files, path, intf)
    ensures Outputs(files, path, intf, []) == []
  {
  }
}
