/** `apply`: the commands rebuilt from the flat script and from the files of
    one interface. */
module IntfReplay {
  import opened Text
  import opened IntfDump

  /** The record files a reader turns back into commands, one command a line. */
  datatype Kind = Addrs | Neighs | VxFdbEntries | L2FdbEntries | SubIntfs

  function FileOf(k: Kind): File {
    match k
    case Addrs => Ipv4Addr
    case Neighs => Ipv4Neigh
    case VxFdbEntries => VxFdbs
    case L2FdbEntries => L2Fdbs
    case SubIntfs => SubIntfFile
  }

  function Before(k: Kind): string {
    match k
    case Addrs => "ip addr add "
    case Neighs => "ip neigh add "
    case VxFdbEntries => "bridge fdb append "
    case L2FdbEntries => "bridge fdb add "
    case SubIntfs => "ip link add "
  }

  function After(k: Kind, intf: string): string {
    match k
    case Addrs => " dev " + intf
    case SubIntfs => ""
    case _ => " dev " + intf + " permanent"
  }

  /** The command that adds what a record describes. A sub-interface record of
      fewer than three tokens stops the process. */
  function Command(k: Kind, intf: string, record: string): string {
    if k.SubIntfs? then
      var token := Split(record, '|');
      if |token| < 3 then "" else "ip link add " + token[0] + " link " + token[1] + " type vlan id " + token[2]
    else Before(k) + record + After(k, intf)
  }

  function Commands(k: Kind, intf: string, records: seq<string>): seq<string> {
    if records == [] then []
    else Commands(k, intf, records[..|records| - 1]) + [Command(k, intf, records[|records| - 1])]
  }

  /** What follows the add command: a sub-interface is also set up. */
  function Trailer(k: Kind, record: string): seq<string> {
    if k.SubIntfs? then ["ip link set " + Split(record, '|')[0] + " up"] else []
  }

  function WithTrailers(k: Kind, intf: string, records: seq<string>): seq<string> {
    if records == [] then []
    else
      var last := records[|records| - 1];
      WithTrailers(k, intf, records[..|records| - 1]) + [Command(k, intf, last)] + Trailer(k, last)
  }

  lemma TrailersSnoc(k: Kind, intf: string, records: seq<string>, i: nat)
    requires i < |records|
    ensures WithTrailers(k, intf, records[..i + 1])
         == WithTrailers(k, intf, records[..i]) + [Command(k, intf, records[i])] + Trailer(k, records[i])
  {
    assert records[..i + 1][..i] == records[..i];
  }

  /** Every reader runs the add commands in the order of the records; only the
      one of sub-interfaces runs a second command after each. */
  lemma {:induction false} CommandsOfReader(k: Kind, intf: string, records: seq<string>)
    ensures !k.SubIntfs? ==> WithTrailers(k, intf, records) == Commands(k, intf, records)
    ensures var all, adds := WithTrailers(k, intf, records), Commands(k, intf, records);
      k.SubIntfs? ==> |all| == 2 * |adds| && forall i :: 0 <= i < |adds| ==> all[2 * i] == adds[i]
  {
    hide Command;
    if records != [] {
      CommandsOfReader(k, intf, records[..|records| - 1]);
    }
  }

  lemma ScanNothing()
    ensures ScanLines("") == []
  {
  }

  /** addIpAddr, addNeigh, addVxFDBs, addL2FDBs and addSubIntf: each scans one
      file of the interface and runs a command for every line. */
  method Replay(files: map<string, string>, path: string, intf: string, k: Kind) returns (cmds: seq<string>)
    requires k.SubIntfs? ==>
      forall r :: r in ScanLines(TextAt(files, PathOf(path + "/" + intf, FileOf(k)))) ==> |Split(r, '|')| >= 3
    ensures cmds == WithTrailers(k, intf, ScanLines(TextAt(files, PathOf(path + "/" + intf, FileOf(k)))))
  {
    hide ScanLines;
    var file := PathOf(path + "/" + intf, FileOf(k));
    cmds := [];
    if file !in files {
      ScanNothing();
      return;
    }
    var lines := ScanLines(files[file]);
    for i := 0 to |lines|
      invariant cmds == WithTrailers(k, intf, lines[..i])
    {
      assert lines[i] in lines;
      TrailersSnoc(k, intf, lines, i);
      hide WithTrailers;
      if k.SubIntfs? {
        var token := Split(lines[i], '|');
        cmds := cmds + ["ip link add " + token[0] + " link " + token[1] + " type vlan id " + token[2]];
        cmds := cmds + ["ip link set " + token[0] + " up"];
      } else {
        cmds := cmds + [Before(k) + lines[i] + After(k, intf)];
      }
    }
    assert lines[..|lines|] == lines;
  }

  /** ApplyIpConfig runs the flat script line by line; a file that is not there
      runs nothing. */
  method ApplyIpConfig(files: map<string, string>, file: string) returns (cmds: seq<string>)
    ensures cmds == if file in files then ScanLines(files[file]) else []
  {
    cmds := [];
    if file !in files {
      return;
    }
    var rest := files[file];
    while rest != ""
      invariant cmds + ScanLines(rest) == ScanLines(files[file])
      decreases |rest|
    {
      var i := Index(rest, '\n');
      if i >= MAX_TOKEN {
        return;
      }
      ScanNothing();
      assert rest[..|rest|] == rest;
      var line := DropCR(rest[..i]);
      cmds := cmds + [line];
      rest := if i < |rest| then rest[i + 1..] else "";
    }
  }
}
