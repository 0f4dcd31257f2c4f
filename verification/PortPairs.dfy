/** The service-to-target port pairs of `create lb`: `80:32015`, `8080-8081:80`,
    `5000:5201-5300`. */
module PortPairs {
  import opened Text

  datatype Pair =
    | Skipped                                            // passed over
    | Malformed                                          // the whole list is refused
    | Maps(ports: seq<int>, low: int, high: int)

  /** strconv.Atoi on every text; None when one is not a number. */
  function Numbers(texts: seq<string>): Option<seq<int>> {
    if texts == [] then Some([])
    else
      var init, last := Numbers(texts[..|texts| - 1]), Atoi(texts[|texts| - 1]);
      if init.None? || last.None? then None else Some(init.value + [last.value])
  }

  function ParsePair(s: string): Pair {
    var pair := Split(s, ':');
    if |pair| != 2 then Skipped
    else
      var ports, range := Numbers(Split(pair[0], '-')), Split(pair[1], '-');
      if ports.None? then Malformed
      else if |range| > 2 then Skipped
      else
        var low, high := Atoi(range[0]), Atoi(range[|range| - 1]);
        if low.None? || high.None? || high.value < low.value then Malformed
        else Maps(ports.value, low.value, high.value)
  }

  /** uint16(n). */
  function ToPort(n: int): Port { ToUint16(n) }

  /** The target ports a pair stands for, cut to 16 bits one by one. */
  function Targets(low: int, high: int): (ts: seq<Port>)
    requires low <= high + 1
    ensures |ts| == high - low + 1
    ensures forall j :: 0 <= j < |ts| ==> ts[j] == ToPort(low + j)
  {
    seq<Port>(high - low + 1, j => ToPort(low + j))
  }

  type PortMap = map<Port, seq<Port>>

  function SetAll(m: PortMap, ports: seq<int>, targets: seq<Port>): PortMap {
    if ports == [] then m
    else SetAll(m, ports[..|ports| - 1], targets)[ToPort(ports[|ports| - 1]) := targets]
  }

  lemma ParsedRange(s: string)
    requires ParsePair(s).Maps?
    ensures ParsePair(s).low <= ParsePair(s).high
  {
  }

  function PortTable(list: seq<string>): Option<PortMap> {
    if list == [] then Some(map[])
    else
      var init, last := PortTable(list[..|list| - 1]), ParsePair(list[|list| - 1]);
      if init.None? || last.Malformed? then None
      else if last.Skipped? then init
      else
        ParsedRange(list[|list| - 1]);
        Some(SetAll(init.value, last.ports, Targets(last.low, last.high)))
  }

  lemma {:induction false} MalformedStays(list: seq<string>, i: nat)
    requires i < |list| && ParsePair(list[i]).Malformed?
    ensures PortTable(list).None?
  {
    hide ParsePair;
    if i < |list| - 1 {
      MalformedStays(list[..|list| - 1], i);
    }
  }

  method ParseServicePorts(texts: seq<string>) returns (r: Option<seq<int>>)
    ensures r == Numbers(texts)
  {
    var ports: seq<int> := [];
    for i := 0 to |texts|
      invariant Numbers(texts[..i]) == Some(ports)
    {
      assert texts[..i + 1][..i] == texts[..i];
      var port := Atoi(texts[i]);
      if port.None? {
        NotANumber(texts, i);
        return None;
      }
      ports := ports + [port.value];
    }
    assert texts[..|texts|] == texts;
    r := Some(ports);
  }

  lemma {:induction false} NotANumber(texts: seq<string>, i: nat)
    requires i < |texts| && Atoi(texts[i]).None?
    ensures Numbers(texts).None?
  {
    if i < |texts| - 1 {
      NotANumber(texts[..|texts| - 1], i);
    }
  }

  method ParseOnePair(s: string) returns (pair: Pair)
    ensures pair == ParsePair(s)
  {
    hide Split, Atoi, Numbers;
    var portPair := Split(s, ':');
    if |portPair| != 2 {
      return Skipped;
    }
    var portList := ParseServicePorts(Split(portPair[0], '-'));
    if portList.None? {
      return Malformed;
    }
    var range := Split(portPair[1], '-');
    var startTP, endTP := None, None;
    if |range| > 2 {
      return Skipped;
    } else if |range| == 2 {
      startTP := Atoi(range[0]);
      if startTP.None? {
        return Malformed;
      }
      endTP := Atoi(range[1]);
      if endTP.None? || endTP.value < startTP.value {
        return Malformed;
      }
    } else {
      startTP := Atoi(range[0]);
      if startTP.None? {
        return Malformed;
      }
      endTP := startTP;
    }
    pair := Maps(portList.value, startTP.value, endTP.value);
  }

  method GetPortPairList(list: seq<string>) returns (r: Option<PortMap>)
    ensures r == PortTable(list)
  {
    hide ParsePair;
    var result: PortMap := map[];
    for i := 0 to |list|
      invariant PortTable(list[..i]) == Some(result)
    {
      assert list[..i + 1][..i] == list[..i];
      var pair := ParseOnePair(list[i]);
      if pair.Malformed? {
        MalformedStays(list, i);
        return None;
      }
      if pair.Maps? {
        ParsedRange(list[i]);
        result := MapPorts(result, pair.ports, pair.low, pair.high);
      }
    }
    assert list[..|list|] == list;
    r := Some(result);
  }

  /** The two inner loops: every service port gets its own fresh target list. */
  method MapPorts(m: PortMap, ports: seq<int>, low: int, high: int) returns (result: PortMap)
    requires low <= high
    ensures result == SetAll(m, ports, Targets(low, high))
  {
    result := m;
    for i := 0 to |ports|
      invariant result == SetAll(m, ports[..i], Targets(low, high))
    {
      assert ports[..i + 1][..i] == ports[..i];
      var before, port := result, ToPort(ports[i]);
      result := result[port := []];
      for t := low to high + 1
        invariant result == before[port := Targets(low, t - 1)]
      {
        assert Targets(low, t) == Targets(low, t - 1) + [ToPort(t)];
        result := result[port := result[port] + [ToPort(t)]];
      }
    }
    assert ports[..|ports|] == ports;
  }

  // ----- what a pair means -----

  /** The two sides of the only ':'. */
  predicate Sides(s: string, services: string, targets: string) {
    s == services + ":" + targets && ':' !in services && ':' !in targets
  }

  lemma SidesSplit(s: string, services: string, targets: string)
    requires Sides(s, services, targets)
    ensures Split(s, ':') == [services, targets]
  {
    SplitCons(services, ':', targets);
    SplitOne(targets, ':');
  }

  /** A text is passed over for its colons exactly when it has no two sides. */
  lemma NoSides(s: string)
    ensures |Split(s, ':')| == 2 <==> exists a, b :: Sides(s, a, b)
  {
    var parts := Split(s, ':');
    if |parts| == 2 {
      JoinSplit(s, ':');
      assert Join(parts[1..], ':') == parts[1];
      assert parts[0] in parts && parts[1] in parts;
      assert Sides(s, parts[0], parts[1]);
    }
    if a, b :| Sides(s, a, b) {
      SidesSplit(s, a, b);
    }
  }

  predicate AllNumbers(texts: seq<string>) { forall t :: t in texts ==> Atoi(t).Some? }

  lemma {:induction false} NumbersAt(texts: seq<string>)
    ensures Numbers(texts).Some? <==> AllNumbers(texts)
    ensures Numbers(texts).Some? ==>
      && |Numbers(texts).value| == |texts|
      && forall i :: 0 <= i < |texts| ==> Atoi(texts[i]) == Some(Numbers(texts).value[i])
  {
    hide Atoi;
    if texts != [] {
      var init, last := texts[..|texts| - 1], texts[|texts| - 1];
      NumbersAt(init);
      assert texts == init + [last];
    }
  }

  /** One number, or two that do not go down. */
  predicate IsRange(range: seq<string>) {
    AllNumbers(range) && 1 <= |range| <= 2 && (|range| == 2 ==> Atoi(range[0]).value <= Atoi(range[1]).value)
  }

  /** What every text is, by its two sides: the service ports in front of the ':'
      with '-' between them, the target range behind it. */
  lemma PairExactly(s: string, services: string, targets: string)
    requires Sides(s, services, targets)
    ensures var ports, range := Split(services, '-'), Split(targets, '-');
      && (ParsePair(s).Malformed? <==> !AllNumbers(ports) || (|range| <= 2 && !IsRange(range)))
      && (ParsePair(s).Skipped? <==> AllNumbers(ports) && |range| > 2)
      && (ParsePair(s).Maps? ==>
            && |ParsePair(s).ports| == |ports|
            && (forall i :: 0 <= i < |ports| ==> Atoi(ports[i]) == Some(ParsePair(s).ports[i]))
            && Atoi(range[0]) == Some(ParsePair(s).low) && Atoi(range[|range| - 1]) == Some(ParsePair(s).high))
  {
    hide Atoi, Split, Numbers, AllNumbers, IsRange;
    SidesSplit(s, services, targets);
    NumbersAt(Split(services, '-'));
    if |Split(targets, '-')| <= 2 {
      RangeEnds(Split(targets, '-'));
    }
  }

  lemma RangeEnds(range: seq<string>)
    requires 1 <= |range| <= 2
    ensures var first, last := Atoi(range[0]), Atoi(range[|range| - 1]);
      IsRange(range) <==> first.Some? && last.Some? && first.value <= last.value
  {
    hide Atoi;
    assert range == if |range| == 1 then [range[0]] else [range[0], range[1]];
  }

  lemma SkippedExactly(s: string)
    ensures ParsePair(s).Skipped? <==>
      (forall a, b :: !Sides(s, a, b))
      || exists a, b :: Sides(s, a, b) && AllNumbers(Split(a, '-')) && |Split(b, '-')| > 2
  {
    NoSides(s);
    if a, b :| Sides(s, a, b) {
      PairExactly(s, a, b);
    }
    forall a, b | Sides(s, a, b)
      ensures ParsePair(s).Skipped? <==> AllNumbers(Split(a, '-')) && |Split(b, '-')| > 2
    {
      PairExactly(s, a, b);
    }
    hide Split, AllNumbers;
  }

  // ----- printing and reading a pair -----

  function Decs(ns: seq<nat>): (texts: seq<string>)
    ensures |texts| == |ns|
  {
    seq(|ns|, i requires 0 <= i < |ns| => Dec(ns[i]))
  }

  function PrintPair(ports: seq<nat>, targets: seq<nat>): string {
    Join(Decs(ports), '-') + ":" + Join(Decs(targets), '-')
  }

  lemma {:induction false} JoinFree(texts: seq<string>, sep: char, c: char)
    requires c != sep && forall t :: t in texts ==> c !in t
    ensures c !in Join(texts, sep)
  {
    if |texts| > 1 {
      assert texts[0] in texts && forall t :: t in texts[1..] ==> t in texts;
      JoinFree(texts[1..], sep, c);
    }
  }

  lemma DecsFree(ns: seq<nat>)
    ensures forall t :: t in Decs(ns) ==> '-' !in t && ':' !in t
  {
    forall i | 0 <= i < |ns| ensures '-' !in Dec(ns[i]) && ':' !in Dec(ns[i]) {
      assert IsDigits(Dec(ns[i])) && !IsDigit('-') && !IsDigit(':');
    }
  }

  /** A printed pair is read back: service ports in front, targets behind. */
  lemma ParsePrintPair(ports: seq<nat>, low: nat, high: nat)
    requires ports != [] && low <= high <= MAX_INT64 && forall p :: p in ports ==> p <= MAX_INT64
    ensures ParsePair(PrintPair(ports, [low, high])) == Maps(ports, low, high)
    ensures ParsePair(PrintPair(ports, [low])) == Maps(ports, low, low)
  {
    ParsePrintSides(ports, [low, high]);
    ParsePrintSides(ports, [low]);
  }

  lemma ParsePrintSides(ports: seq<nat>, range: seq<nat>)
    requires ports != [] && 1 <= |range| <= 2 && range[0] <= range[|range| - 1]
    requires (forall p :: p in ports ==> p <= MAX_INT64) && (forall t :: t in range ==> t <= MAX_INT64)
    ensures ParsePair(PrintPair(ports, range)) == Maps(ports, range[0], range[|range| - 1])
  {
    hide Atoi, Split, Join, Decs, ParsePair, Sides, PrintPair, AllNumbers, IsRange;
    var a, b, s := Decs(ports), Decs(range), PrintPair(ports, range);
    PrintedSide(ports);
    PrintedSide(range);
    DecsRead(ports);
    DecsRead(range);
    PrintedSides(ports, range);
    PairExactly(s, Join(a, '-'), Join(b, '-'));
    RangeEnds(b);
    assert ParsePair(s).ports == ports;
  }

  lemma PrintedSide(ns: seq<nat>)
    requires ns != []
    ensures ':' !in Join(Decs(ns), '-') && Split(Join(Decs(ns), '-'), '-') == Decs(ns)
  {
    hide Split, Join, Decs;
    DecsFree(ns);
    JoinFree(Decs(ns), '-', ':');
    SplitJoin(Decs(ns), '-');
  }

  lemma PrintedSides(ports: seq<nat>, range: seq<nat>)
    requires ports != [] && range != []
    ensures Sides(PrintPair(ports, range), Join(Decs(ports), '-'), Join(Decs(range), '-'))
  {
    PrintedSide(ports);
    PrintedSide(range);
    hide Split, Join, Decs;
  }

  lemma DecsRead(ns: seq<nat>)
    requires forall n :: n in ns ==> n <= MAX_INT64
    ensures forall i :: 0 <= i < |ns| ==> Atoi(Decs(ns)[i]) == Some(ns[i])
    ensures AllNumbers(Decs(ns))
  {
    hide Atoi, Dec;
    forall i | 0 <= i < |ns| ensures Atoi(Decs(ns)[i]) == Some(ns[i]) {
      assert ns[i] in ns;
      AtoiDec(ns[i]);
    }
  }

  // ----- what the table means -----

  /** '-' separates, so no number of a pair is negative. */
  lemma NotNegative(s: string)
    requires ParsePair(s).Maps?
    ensures forall n :: n in ParsePair(s).ports ==> n >= 0
    ensures 0 <= ParsePair(s).low <= ParsePair(s).high
    ensures |ParsePair(s).ports| >= 1
  {
    var pair := Split(s, ':');
    var front, range := Split(pair[0], '-'), Split(pair[1], '-');
    NumbersNotNegative(front);
    assert range[0] in range && range[|range| - 1] in range;
    AtoiNotNegative(range[0]);
    AtoiNotNegative(range[|range| - 1]);
  }

  lemma {:induction false} NumbersNotNegative(texts: seq<string>)
    requires Numbers(texts).Some? && forall t :: t in texts ==> '-' !in t
    ensures |Numbers(texts).value| == |texts|
    ensures forall n :: n in Numbers(texts).value ==> n >= 0
  {
    if texts != [] {
      NumbersNotNegative(texts[..|texts| - 1]);
      assert texts[|texts| - 1] in texts;
      AtoiNotNegative(texts[|texts| - 1]);
    }
  }

  /** A well-formed pair that names the 16-bit service port p. */
  ghost predicate Names(s: string, p: Port) {
    ParsePair(s).Maps? && exists n :: n in ParsePair(s).ports && ToPort(n) == p
  }

  lemma {:induction false} SetAllMeans(m: PortMap, ports: seq<int>, targets: seq<Port>, p: Port)
    ensures var named := exists n :: n in ports && ToPort(n) == p;
      && (p in SetAll(m, ports, targets) <==> named || p in m)
      && (named ==> SetAll(m, ports, targets)[p] == targets)
      && (!named && p in m ==> SetAll(m, ports, targets)[p] == m[p])
  {
    if ports != [] {
      var init, last := ports[..|ports| - 1], ports[|ports| - 1];
      SetAllMeans(m, init, targets, p);
      assert ports == init + [last];
      assert last in ports;
    }
  }

  /** The list is refused exactly when one of its pairs is malformed. */
  lemma {:induction false} RefusedExactly(list: seq<string>)
    ensures PortTable(list).None? <==> exists i :: 0 <= i < |list| && ParsePair(list[i]).Malformed?
  {
    hide ParsePair;
    if list != [] {
      var n := |list| - 1;
      RefusedExactly(list[..n]);
      if PortTable(list[..n]).None? {
        var i :| 0 <= i < n && ParsePair(list[..n][i]).Malformed?;
        assert ParsePair(list[i]).Malformed?;
      }
      if i :| 0 <= i < |list| && ParsePair(list[i]).Malformed? {
        MalformedStays(list, i);
      }
    }
  }

  /** The last pair of the list that names p. */
  ghost function LastNaming(list: seq<string>, p: Port): Option<nat> {
    if list == [] then None
    else
      var n := |list| - 1;
      if Names(list[n], p) then Some(n) else LastNaming(list[..n], p)
  }

  lemma {:induction false} LastNamingIsLast(list: seq<string>, p: Port)
    ensures match LastNaming(list, p)
      case None => forall j :: 0 <= j < |list| ==> !Names(list[j], p)
      case Some(i) => i < |list| && Names(list[i], p) && forall j :: i < j < |list| ==> !Names(list[j], p)
  {
    hide Names;
    if list != [] {
      var n := |list| - 1;
      LastNamingIsLast(list[..n], p);
      assert forall j :: 0 <= j < n ==> list[..n][j] == list[j];
    }
  }

  /** For every accepted list: a 16-bit port is in the table exactly when a
      well-formed pair names it, and it then has the targets of the last such pair. */
  lemma {:induction false} LastPairWins(list: seq<string>, p: Port)
    requires PortTable(list).Some?
    ensures var m, i := PortTable(list).value, LastNaming(list, p);
      && (p in m <==> i.Some?)
      && (p in m ==>
            && i.value < |list| && ParsePair(list[i.value]).Maps?
            && ParsePair(list[i.value]).low <= ParsePair(list[i.value]).high
            && m[p] == Targets(ParsePair(list[i.value]).low, ParsePair(list[i.value]).high))
  {
    LastNamingIsLast(list, p);
    if list != [] {
      var n := |list| - 1;
      var init, pair := list[..n], ParsePair(list[n]);
      LastNamingIsLast(init, p);
      LastPairWins(init, p);
      if pair.Maps? {
        SetAllMeans(PortTable(init).value, pair.ports, Targets(pair.low, pair.high), p);
      }
      hide ParsePair, SetAll, Targets;
      assert forall i :: 0 <= i < n ==> init[i] == list[i];
    }
  }

  /** Every target list is a non-empty run of consecutive ports, modulo 2^16. */
  lemma TargetsConsecutive(low: int, high: int)
    requires 0 <= low <= high
    ensures Targets(low, high) != [] && (low < 0x1_0000 ==> Targets(low, high)[0] == low)
    ensures forall j :: 0 <= j < |Targets(low, high)| ==> Targets(low, high)[j] == (Targets(low, high)[0] + j) % 0x1_0000
  {
  }

  lemma {:induction false} TableNonEmpty(list: seq<string>)
    requires PortTable(list).Some?
    ensures forall p :: p in PortTable(list).value ==> PortTable(list).value[p] != []
  {
    if list != [] {
      var init, last := list[..|list| - 1], ParsePair(list[|list| - 1]);
      TableNonEmpty(init);
      if last.Maps? {
        ParsedRange(list[|list| - 1]);
        var targets := Targets(last.low, last.high);
        hide ParsePair;
        forall p | p in PortTable(list).value ensures PortTable(list).value[p] != [] {
          SetAllMeans(PortTable(init).value, last.ports, targets, p);
        }
      }
    }
  }
}
