/** Firewall rules on the command line: the text of a rule becomes the rule
    `create firewall` posts and the query `delete firewall` sends; a rule read
    from a file becomes a delete query by a third way. */
module Firewall {
  import opened Text

  datatype Key =
    | Protocol | SourceIP | DestinationIP | PortName | MinSourcePort | MaxSourcePort
    | MinDestinationPort | MaxDestinationPort | Preference

  function NameOf(k: Key): string {
    match k
    case Protocol => "protocol"
    case SourceIP => "sourceIP"
    case DestinationIP => "destinationIP"
    case PortName => "portName"
    case MinSourcePort => "minSourcePort"
    case MaxSourcePort => "maxSourcePort"
    case MinDestinationPort => "minDestinationPort"
    case MaxDestinationPort => "maxDestinationPort"
    case Preference => "preference"
  }

  lemma NamesDistinct(a: Key, b: Key)
    requires NameOf(a) == NameOf(b)
    ensures a == b
  {
    var n, m := NameOf(a), NameOf(b);
    assert |n| == |m| && n[0] == m[0] && n[1] == m[1];
  }

  type Uint16 = n: nat | n < 0x1_0000

  type Uint8 = n: nat | n < 0x100

  datatype FwRule = FwRule(srcIP: string, dstIP: string, srcPortMin: Uint16, srcPortMax: Uint16,
                           dstPortMin: Uint16, dstPortMax: Uint16, proto: Uint8, inPort: string, pref: Uint16)

  const EMPTY := FwRule("", "", 0, 0, 0, 0, 0, "", 0)

  predicate IsText(k: Key) { k.SourceIP? || k.DestinationIP? || k.PortName? }

  predicate IsAddress(name: string) { name == "sourceIP" || name == "destinationIP" }

  /** The part of an argument before its first ':'. */
  function ArgName(arg: string): string { Split(arg, ':')[0] }

  /** Its value: the second part, or for an address everything behind the first ':'. */
  function ArgValue(arg: string): string
    requires |Split(arg, ':')| >= 2
  {
    var parts := Split(arg, ':');
    if IsAddress(parts[0]) then Join(parts[1..], ':') else parts[1]
  }

  // ----- the rule create posts -----

  /** The field of a rule a key sets, from an accepted value; numbers are cut to
      the field's width. */
  function SetField(r: FwRule, k: Key, value: string): Option<FwRule> {
    match k
    case SourceIP => Some(r.(srcIP := value))
    case DestinationIP => Some(r.(dstIP := value))
    case PortName => Some(r.(inPort := value))
    case Protocol => (match Atoi(value) case None => None case Some(n) => Some(r.(proto := ToUint8(n))))
    case MinSourcePort => (match Atoi(value) case None => None case Some(n) => Some(r.(srcPortMin := ToUint16(n))))
    case MaxSourcePort => (match Atoi(value) case None => None case Some(n) => Some(r.(srcPortMax := ToUint16(n))))
    case MinDestinationPort => (match Atoi(value) case None => None case Some(n) => Some(r.(dstPortMin := ToUint16(n))))
    case MaxDestinationPort => (match Atoi(value) case None => None case Some(n) => Some(r.(dstPortMax := ToUint16(n))))
    case Preference => (match Atoi(value) case None => None case Some(n) => Some(r.(pref := ToUint16(n))))
  }

  function KeyOf(name: string): (k: Option<Key>)
    ensures k.Some? ==> NameOf(k.value) == name
  {
    if name == "protocol" then Some(Protocol)
    else if name == "sourceIP" then Some(SourceIP)
    else if name == "destinationIP" then Some(DestinationIP)
    else if name == "portName" then Some(PortName)
    else if name == "minSourcePort" then Some(MinSourcePort)
    else if name == "maxSourcePort" then Some(MaxSourcePort)
    else if name == "minDestinationPort" then Some(MinDestinationPort)
    else if name == "maxDestinationPort" then Some(MaxDestinationPort)
    else if name == "preference" then Some(Preference)
    else None
  }

  lemma KeyOfName(k: Key)
    ensures KeyOf(NameOf(k)) == Some(k)
  {
    assert KeyOf(NameOf(k)).Some?;
    NamesDistinct(KeyOf(NameOf(k)).value, k);
  }

  /** An unknown key is passed over. */
  function ApplyArg(r: FwRule, arg: string): Option<FwRule> {
    if |Split(arg, ':')| < 2 then None
    else
      var k := KeyOf(ArgName(arg));
      if k.None? then Some(r) else SetField(r, k.value, ArgValue(arg))
  }

  function ApplyArgs(r: FwRule, args: seq<string>): Option<FwRule> {
    if args == [] then Some(r)
    else
      var init := ApplyArgs(r, args[..|args| - 1]);
      if init.None? then None else ApplyArg(init.value, args[|args| - 1])
  }

  lemma {:induction false} ApplyPrefix(r: FwRule, args: seq<string>, i: nat)
    requires i <= |args| && ApplyArgs(r, args[..i]).None?
    ensures ApplyArgs(r, args).None?
  {
    hide ApplyArg;
    if i == |args| {
      assert args[..i] == args;
    } else {
      assert args[..|args| - 1][..i] == args[..i];
      ApplyPrefix(r, args[..|args| - 1], i);
    }
  }

  lemma ApplyNext(r: FwRule, args: seq<string>, i: nat)
    requires i < |args| && ApplyArgs(r, args[..i]).Some?
    ensures ApplyArgs(r, args[..i + 1]) == ApplyArg(ApplyArgs(r, args[..i]).value, args[i])
    ensures ApplyArg(ApplyArgs(r, args[..i]).value, args[i]).None? ==> ApplyArgs(r, args).None?
  {
    hide ApplyArg;
    assert args[..i + 1][..i] == args[..i];
    if ApplyArg(ApplyArgs(r, args[..i]).value, args[i]).None? {
      ApplyPrefix(r, args, i + 1);
    }
  }

  lemma JoinOne(part: string, c: char)
    ensures Join([part], c) == part
  {
  }

  class FwRuleMod {
    var rule: FwRule

    constructor ()
      ensures rule == EMPTY
    {
      rule := EMPTY;
    }

    /** One turn of the loop. */
    method SetOne(arg: string) returns (ok: bool)
      modifies this
      ensures ok <==> ApplyArg(old(rule), arg).Some?
      ensures rule == if ok then ApplyArg(old(rule), arg).value else old(rule)
    {
      hide Split, Join, Atoi;
      var parts := Split(arg, ':');
      if |parts| < 2 {
        return false;
      }
      var name, value := parts[0], parts[1];
      JoinOne(value, ':');
      assert |parts| == 2 ==> parts[1..] == [value];
      if name == "sourceIP" || name == "destinationIP" {
        if |parts| > 2 {
          value := Join(parts[1..], ':');
        }
        if name == "sourceIP" {
          rule := rule.(srcIP := value);
        } else {
          rule := rule.(dstIP := value);
        }
      } else if name == "portName" {
        rule := rule.(inPort := value);
      } else if KeyOf(name).Some? {
        var n := Atoi(value);
        if n.None? {
          return false;
        }
        if name == "protocol" {
          rule := rule.(proto := ToUint8(n.value));
        } else if name == "minSourcePort" {
          rule := rule.(srcPortMin := ToUint16(n.value));
        } else if name == "maxSourcePort" {
          rule := rule.(srcPortMax := ToUint16(n.value));
        } else if name == "minDestinationPort" {
          rule := rule.(dstPortMin := ToUint16(n.value));
        } else if name == "maxDestinationPort" {
          rule := rule.(dstPortMax := ToUint16(n.value));
        } else {
          rule := rule.(pref := ToUint16(n.value));
        }
      }
      ok := true;
    }

    /** A bad argument stops the loop; the fields set before it stay set. */
    method GetFirewallRulePairList(args: seq<string>) returns (ok: bool)
      modifies this
      ensures ok <==> ApplyArgs(old(rule), args).Some?
      ensures ok ==> rule == ApplyArgs(old(rule), args).value
      ensures !ok ==> exists i ::
        0 <= i < |args| && ApplyArgs(old(rule), args[..i]) == Some(rule) && ApplyArg(rule, args[i]).None?
    {
      for i := 0 to |args|
        invariant ApplyArgs(old(rule), args[..i]) == Some(rule)
      {
        ApplyNext(old(rule), args, i);
        hide ApplyArg, ApplyArgs;
        var one := SetOne(args[i]);
        if !one {
          assert 0 <= i < |args| && ApplyArgs(old(rule), args[..i]) == Some(rule) && ApplyArg(rule, args[i]).None?;
          return false;
        }
      }
      assert args[..|args|] == args;
      ok := true;
    }
  }

  // ----- the two delete queries -----

  function TextQuery(args: seq<string>): Option<map<string, string>> {
    if args == [] then Some(map[])
    else
      var init, last := TextQuery(args[..|args| - 1]), args[|args| - 1];
      if init.None? || |Split(last, ':')| < 2 then None else Some(init.value[ArgName(last) := ArgValue(last)])
  }

  lemma {:induction false} ShortArgRefused(args: seq<string>, i: nat)
    requires i < |args| && |Split(args[i], ':')| < 2
    ensures TextQuery(args).None?
  {
    hide Split;
    if i < |args| - 1 {
      ShortArgRefused(args[..|args| - 1], i);
    }
  }

  /** The query made straight from the text: every key, the last value wins. */
  method MakeDeleteQuery(args: seq<string>) returns (r: Option<map<string, string>>)
    ensures r == TextQuery(args)
  {
    var query: map<string, string> := map[];
    for i := 0 to |args|
      invariant TextQuery(args[..i]) == Some(query)
    {
      assert args[..i + 1][..i] == args[..i];
      var parts := Split(args[i], ':');
      if |parts| < 2 {
        ShortArgRefused(args, i);
        return None;
      }
      hide Split;
      var value := parts[1];
      if parts[0] == "sourceIP" || parts[0] == "destinationIP" {
        if |parts| > 2 {
          value := Join(parts[1..], ':');
        }
      }
      query := query[parts[0] := value];
    }
    assert args[..|args|] == args;
    r := Some(query);
  }

  /** What a rule says about a key: an empty text or a zero says nothing. */
  function Said(r: FwRule, k: Key): Option<string> {
    match k
    case SourceIP => TextSaid(r.srcIP)
    case DestinationIP => TextSaid(r.dstIP)
    case PortName => TextSaid(r.inPort)
    case Protocol => NumberSaid(r.proto)
    case MinSourcePort => NumberSaid(r.srcPortMin)
    case MaxSourcePort => NumberSaid(r.srcPortMax)
    case MinDestinationPort => NumberSaid(r.dstPortMin)
    case MaxDestinationPort => NumberSaid(r.dstPortMax)
    case Preference => NumberSaid(r.pref)
  }

  function TextSaid(s: string): Option<string> { if s == "" then None else Some(s) }

  function NumberSaid(n: nat): Option<string> { if n == 0 then None else Some(Itoa(n)) }

  ghost predicate Says(q: map<string, string>, r: FwRule) {
    && (forall k: Key :: NameOf(k) in q <==> Said(r, k).Some?)
    && (forall k: Key :: NameOf(k) in q ==> Some(q[NameOf(k)]) == Said(r, k))
    && (forall name :: name in q ==> exists k: Key :: name == NameOf(k))
  }

  /** The query holds what the rule says about the keys done so far. */
  ghost predicate SaysOf(q: map<string, string>, r: FwRule, done: set<Key>) {
    && (forall k: Key :: NameOf(k) in q <==> k in done && Said(r, k).Some?)
    && (forall k: Key :: NameOf(k) in q ==> Some(q[NameOf(k)]) == Said(r, k))
    && (forall name :: name in q ==> exists k: Key :: name == NameOf(k))
  }

  lemma SayOne(q: map<string, string>, r: FwRule, done: set<Key>, k: Key, said: Option<string>)
    requires SaysOf(q, r, done) && said == Said(r, k)
    ensures SaysOf(if said.Some? then q[NameOf(k) := said.value] else q, r, done + {k})
  {
    hide NameOf, Said;
    forall j: Key | NameOf(j) == NameOf(k) ensures j == k {
      NamesDistinct(j, k);
    }
  }

  method MakeDeleteQueryOfRule(r: FwRule) returns (query: map<string, string>)
    ensures Says(query, r)
  {
    hide SaysOf, Itoa, Says;
    query := map[];
    NothingSaid(r);
    SayOne(query, r, {}, DestinationIP, TextSaid(r.dstIP));
    if r.dstIP != "" {
      query := query["destinationIP" := r.dstIP];
    }
    assert {} + {DestinationIP} == {DestinationIP};
    SayOne(query, r, {DestinationIP}, MinDestinationPort, NumberSaid(r.dstPortMin));
    if r.dstPortMin != 0 {
      query := query["minDestinationPort" := Itoa(r.dstPortMin)];
    }
    SayOne(query, r, {DestinationIP} + {MinDestinationPort}, MaxDestinationPort, NumberSaid(r.dstPortMax));
    if r.dstPortMax != 0 {
      query := query["maxDestinationPort" := Itoa(r.dstPortMax)];
    }
    query := AddPortAndNumbers(query, r);
    query := AddSource(query, r);
    AllSaid(query, r);
  }

  const DESTINATIONS: set<Key> := {DestinationIP} + {MinDestinationPort} + {MaxDestinationPort}
  const MIDDLES: set<Key> := {PortName} + {Preference} + {Protocol}

  method AddPortAndNumbers(q: map<string, string>, r: FwRule) returns (query: map<string, string>)
    requires SaysOf(q, r, DESTINATIONS)
    ensures SaysOf(query, r, DESTINATIONS + MIDDLES)
  {
    hide SaysOf, Itoa;
    var done := DESTINATIONS;
    query := q;
    SayOne(query, r, done, PortName, TextSaid(r.inPort));
    if r.inPort != "" {
      query := query["portName" := r.inPort];
    }
    SayOne(query, r, done + {PortName}, Preference, NumberSaid(r.pref));
    if r.pref != 0 {
      query := query["preference" := Itoa(r.pref)];
    }
    SayOne(query, r, done + {PortName} + {Preference}, Protocol, NumberSaid(r.proto));
    if r.proto != 0 {
      query := query["protocol" := Itoa(r.proto)];
    }
    assert done + {PortName} + {Preference} + {Protocol} == done + MIDDLES;
  }

  method AddSource(q: map<string, string>, r: FwRule) returns (query: map<string, string>)
    requires SaysOf(q, r, DESTINATIONS + MIDDLES)
    ensures SaysOf(query, r, DESTINATIONS + MIDDLES + {SourceIP} + {MaxSourcePort} + {MinSourcePort})
  {
    hide SaysOf, Itoa;
    var done := DESTINATIONS + MIDDLES;
    query := q;
    SayOne(query, r, done, SourceIP, TextSaid(r.srcIP));
    if r.srcIP != "" {
      query := query["sourceIP" := r.srcIP];
    }
    SayOne(query, r, done + {SourceIP}, MaxSourcePort, NumberSaid(r.srcPortMax));
    if r.srcPortMax != 0 {
      query := query["maxSourcePort" := Itoa(r.srcPortMax)];
    }
    SayOne(query, r, done + {SourceIP} + {MaxSourcePort}, MinSourcePort, NumberSaid(r.srcPortMin));
    if r.srcPortMin != 0 {
      query := query["minSourcePort" := Itoa(r.srcPortMin)];
    }
  }

  lemma NothingSaid(r: FwRule)
    ensures SaysOf(map[], r, {})
  {
  }

  lemma AllSaid(q: map<string, string>, r: FwRule)
    requires SaysOf(q, r, DESTINATIONS + MIDDLES + {SourceIP} + {MaxSourcePort} + {MinSourcePort})
    ensures Says(q, r)
  {
    hide NameOf, Said;
    forall k: Key ensures k in DESTINATIONS + MIDDLES + {SourceIP} + {MaxSourcePort} + {MinSourcePort} {
      assert k == DestinationIP || k == MinDestinationPort || k == MaxDestinationPort || k == PortName
        || k == Preference || k == Protocol || k == SourceIP || k == MaxSourcePort || k == MinSourcePort;
    }
  }

  // ----- create and delete name the same rule -----

  function LastValue(args: seq<string>, name: string): Option<string>
    requires forall a :: a in args ==> |Split(a, ':')| >= 2
  {
    if args == [] then None
    else
      var last := args[|args| - 1];
      if ArgName(last) == name then Some(ArgValue(last)) else LastValue(args[..|args| - 1], name)
  }

  function Width(k: Key): nat { if k.Protocol? then 0x100 else 0x1_0000 }

  /** A value both forms write alike: a text that is not empty, or a positive
      number in canonical decimal that fits the field. */
  predicate Proper(k: Key, value: string) {
    if IsText(k) then value != ""
    else Canonical(value) && value[0] != '0' && Val(value) < Width(k)
  }

  /** What a rule says about a key whose field was set from this value. */
  function SaidOf(k: Key, value: string): Option<string> {
    if IsText(k) then TextSaid(value)
    else if Atoi(value).None? then None
    else NumberSaid(Atoi(value).value % Width(k))
  }

  lemma SetFieldSaid(r: FwRule, k: Key, value: string, j: Key)
    requires SetField(r, k, value).Some?
    ensures Said(SetField(r, k, value).value, j) == if j == k then SaidOf(k, value) else Said(r, j)
  {
    hide Atoi, Itoa;
  }

  /** A number cut to a width prints as the text it came from. */
  lemma NumberKept(value: string, width: nat)
    requires width >= 1 && Atoi(value).Some?
    ensures NumberSaid(Atoi(value).value % width) == Some(value) <==>
      Canonical(value) && value[0] != '0' && Val(value) < width
  {
    var v := Atoi(value).value;
    if Canonical(value) && Val(value) < width {
      NumberRead(value);
      SmallMod(v, width);
    }
    hide Atoi;
    DecKept(value, v % width, width);
  }

  lemma SmallMod(v: int, width: nat)
    requires 0 <= v < width
    ensures v % width == v
  {
  }

  lemma DecKept(value: string, n: nat, width: nat)
    requires n < width && (Canonical(value) && Val(value) < width ==> n == Val(value))
    ensures NumberSaid(n) == Some(value) <==> Canonical(value) && value[0] != '0' && Val(value) < width
  {
    if Canonical(value) && value[0] != '0' && Val(value) < width {
      DecOfVal(value);
      assert Dec(0) == "0";
    }
    hide Dec;
  }

  lemma NumberRead(value: string)
    requires Canonical(value) && Atoi(value).Some?
    ensures Atoi(value).value == Val(value)
  {
    assert value[0] in value && IsDigit(value[0]);
  }

  lemma ProperSaid(k: Key, value: string)
    requires IsText(k) || Atoi(value).Some?
    ensures SaidOf(k, value) == Some(value) <==> Proper(k, value)
  {
    if !IsText(k) {
      NumberKept(value, Width(k));
      hide Dec, Atoi, Canonical, Width;
    }
  }

  predicate LongArgs(args: seq<string>) { forall a :: a in args ==> |Split(a, ':')| >= 2 }

  lemma {:induction false} TextQueryIsLast(args: seq<string>)
    requires TextQuery(args).Some?
    ensures LongArgs(args)
    ensures forall name :: name in TextQuery(args).value <==> LastValue(args, name).Some?
    ensures forall name :: name in TextQuery(args).value ==> Some(TextQuery(args).value[name]) == LastValue(args, name)
  {
    hide Split, ArgName, ArgValue;
    if args != [] {
      TextQueryIsLast(args[..|args| - 1]);
      assert args == args[..|args| - 1] + [args[|args| - 1]];
    }
  }

  lemma {:induction false} RuleIsLast(args: seq<string>, k: Key)
    requires ApplyArgs(EMPTY, args).Some?
    ensures LongArgs(args)
    ensures var last := LastValue(args, NameOf(k));
      && Said(ApplyArgs(EMPTY, args).value, k) == (if last.None? then None else SaidOf(k, last.value))
      && (last.Some? ==> IsText(k) || Atoi(last.value).Some?)
  {
    hide Atoi, Itoa, Split;
    if args != [] {
      var init, last := args[..|args| - 1], args[|args| - 1];
      RuleIsLast(init, k);
      assert args == init + [last];
      var r := ApplyArgs(EMPTY, init).value;
      var key := KeyOf(ArgName(last));
      KeyOfName(k);
      assert ArgName(last) == NameOf(k) <==> key == Some(k);
      if key.Some? {
        SetFieldSaid(r, key.value, ArgValue(last), k);
        hide NameOf, Said, SaidOf;
      }
    }
  }

  /** The text last given under a name, or none. */
  function TextGiven(args: seq<string>, name: string): string
    requires LongArgs(args)
  {
    match LastValue(args, name) case None => "" case Some(value) => value
  }

  /** The field is the number last given under a name, cut to the width, or 0. */
  predicate NumberGiven(args: seq<string>, name: string, width: nat, field: nat)
    requires LongArgs(args) && width > 0
  {
    match LastValue(args, name)
    case None => field == 0
    case Some(value) => Atoi(value).Some? && field == Atoi(value).value % width
  }

  lemma SameNumber(m: nat, n: nat)
    requires NumberSaid(m) == NumberSaid(n)
    ensures m == n
  {
    assert Val(Dec(m)) == m && Val(Dec(n)) == n;
  }

  lemma NumberField(args: seq<string>, k: Key, field: nat)
    requires ApplyArgs(EMPTY, args).Some? && LongArgs(args) && !IsText(k)
    requires Said(ApplyArgs(EMPTY, args).value, k) == NumberSaid(field)
    ensures NumberGiven(args, NameOf(k), Width(k), field)
  {
    RuleIsLast(args, k);
    var last := LastValue(args, NameOf(k));
    hide Atoi, ApplyArgs, LastValue, NameOf, Said;
    if last.Some? {
      WidthMod(Atoi(last.value).value, Width(k));
      SameNumber(field, Atoi(last.value).value % Width(k));
    } else {
      SameNumber(field, 0);
    }
  }

  lemma WidthMod(v: int, width: nat)
    requires width > 0
    ensures v % width >= 0
  {
  }

  /** Every field of the created rule is what was last given under its own name. */
  lemma RuleFieldsExactly(args: seq<string>)
    requires ApplyArgs(EMPTY, args).Some?
    ensures LongArgs(args)
    ensures var r := ApplyArgs(EMPTY, args).value;
      && r.srcIP == TextGiven(args, "sourceIP") && r.dstIP == TextGiven(args, "destinationIP")
      && r.inPort == TextGiven(args, "portName")
      && NumberGiven(args, "protocol", 0x100, r.proto) && NumberGiven(args, "preference", 0x1_0000, r.pref)
      && NumberGiven(args, "minSourcePort", 0x1_0000, r.srcPortMin)
      && NumberGiven(args, "maxSourcePort", 0x1_0000, r.srcPortMax)
      && NumberGiven(args, "minDestinationPort", 0x1_0000, r.dstPortMin)
      && NumberGiven(args, "maxDestinationPort", 0x1_0000, r.dstPortMax)
  {
    RuleIsLast(args, SourceIP);
    RuleIsLast(args, DestinationIP);
    RuleIsLast(args, PortName);
    hide ApplyArgs, LastValue, NumberGiven, Atoi, Itoa;
    var r := ApplyArgs(EMPTY, args).value;
    NumberField(args, Protocol, r.proto);
    NumberField(args, Preference, r.pref);
    NumberField(args, MinSourcePort, r.srcPortMin);
    NumberField(args, MaxSourcePort, r.srcPortMax);
    NumberField(args, MinDestinationPort, r.dstPortMin);
    NumberField(args, MaxDestinationPort, r.dstPortMax);
  }

  predicate AllKnown(args: seq<string>) { forall a :: a in args ==> KeyOf(ArgName(a)).Some? }

  ghost predicate LastProper(args: seq<string>)
    requires LongArgs(args)
  {
    forall k: Key :: LastValue(args, NameOf(k)).Some? ==> Proper(k, LastValue(args, NameOf(k)).value)
  }

  lemma {:induction false} NameHasLast(args: seq<string>, a: string)
    requires LongArgs(args) && a in args
    ensures LastValue(args, ArgName(a)).Some?
  {
    if ArgName(args[|args| - 1]) != ArgName(a) {
      NameHasLast(args[..|args| - 1], a);
    }
  }

  lemma {:induction false} LastHasArg(args: seq<string>, name: string) returns (a: string)
    requires LongArgs(args) && LastValue(args, name).Some?
    ensures a in args && ArgName(a) == name && LastValue(args, name).value == ArgValue(a)
  {
    a := args[|args| - 1];
    if ArgName(a) != name {
      a := LastHasArg(args[..|args| - 1], name);
    }
  }

  /** For every argument list create and delete accept: the query made from the
      created rule is the query made straight from the text exactly when every
      key is known and the last value of each key is proper. */
  lemma SameQueryExactly(args: seq<string>, q: map<string, string>)
    requires ApplyArgs(EMPTY, args).Some? && TextQuery(args).Some?
    requires Says(q, ApplyArgs(EMPTY, args).value)
    ensures LongArgs(args)
    ensures q == TextQuery(args).value <==> AllKnown(args) && LastProper(args)
  {
    var r, t := ApplyArgs(EMPTY, args).value, TextQuery(args).value;
    TextQueryIsLast(args);
    hide ApplyArgs, TextQuery, Said, SaidOf, LastValue, KeyOf, NameOf, Proper, Split, IsText, Atoi, LongArgs;
    forall k: Key
      ensures Said(r, k) == LastValue(args, NameOf(k)) <==>
        LastValue(args, NameOf(k)).Some? ==> Proper(k, LastValue(args, NameOf(k)).value)
    {
      RuleIsLast(args, k);
      if LastValue(args, NameOf(k)).Some? {
        ProperSaid(k, LastValue(args, NameOf(k)).value);
      }
    }
    if AllKnown(args) && LastProper(args) {
      ProperGivesSame(args, q, r, t);
    }
    if q == t {
      SameGivesKnown(args, q, r);
      forall k: Key | LastValue(args, NameOf(k)).Some?
        ensures Proper(k, LastValue(args, NameOf(k)).value)
      {
        assert NameOf(k) in t;
      }
    }
  }

  lemma ProperGivesSame(args: seq<string>, q: map<string, string>, r: FwRule, t: map<string, string>)
    requires LongArgs(args) && AllKnown(args) && Says(q, r)
    requires forall k: Key :: Said(r, k) == LastValue(args, NameOf(k))
    requires forall name :: name in t <==> LastValue(args, name).Some?
    requires forall name :: name in t ==> Some(t[name]) == LastValue(args, name)
    ensures q == t
  {
    hide Said, LastValue, NameOf, Split, LongArgs;
    forall name | name in t ensures name in q && q[name] == t[name] {
      var a := LastHasArg(args, name);
      var k := KeyOf(ArgName(a)).value;
      assert NameOf(k) == name;
    }
    forall name | name in q ensures name in t {
      var k: Key :| name == NameOf(k);
    }
  }

  lemma SameGivesKnown(args: seq<string>, q: map<string, string>, r: FwRule)
    requires LongArgs(args) && Says(q, r)
    requires forall name :: name in q <==> LastValue(args, name).Some?
    ensures AllKnown(args)
  {
    hide Said, LastValue, Split, LongArgs;
    forall a | a in args ensures KeyOf(ArgName(a)).Some? {
      NameHasLast(args, a);
      var k: Key :| ArgName(a) == NameOf(k);
      KeyOfName(k);
    }
  }

  predicate ProperArg(arg: string) {
    && |Split(arg, ':')| >= 2 && KeyOf(ArgName(arg)).Some?
    && Proper(KeyOf(ArgName(arg)).value, ArgValue(arg))
  }

  /** Proper arguments of known keys, in any number and order: create and delete
      both accept them and name the same rule. */
  lemma ProperArgsAgree(args: seq<string>)
    requires forall a :: a in args ==> ProperArg(a)
    ensures ApplyArgs(EMPTY, args).Some? && TextQuery(args).Some?
    ensures LongArgs(args) && AllKnown(args) && LastProper(args)
    ensures forall q :: Says(q, ApplyArgs(EMPTY, args).value) ==> q == TextQuery(args).value
  {
    ProperArgsAccepted(args);
    forall k: Key | LastValue(args, NameOf(k)).Some? ensures Proper(k, LastValue(args, NameOf(k)).value) {
      var a := LastHasArg(args, NameOf(k));
      assert ProperArg(a);
      KeyOfName(k);
    }
    forall q | Says(q, ApplyArgs(EMPTY, args).value) ensures q == TextQuery(args).value {
      SameQueryExactly(args, q);
    }
  }

  lemma ProperIsNumber(k: Key, value: string)
    requires !IsText(k) && Proper(k, value)
    ensures Atoi(value).Some?
  {
    assert value[0] in value && IsDigit(value[0]);
  }

  lemma {:induction false} ProperArgsAccepted(args: seq<string>)
    requires forall a :: a in args ==> ProperArg(a)
    ensures ApplyArgs(EMPTY, args).Some? && TextQuery(args).Some?
  {
    if args != [] {
      var init, last := args[..|args| - 1], args[|args| - 1];
      ProperArgsAccepted(init);
      assert ProperArg(last);
      var k, value := KeyOf(ArgName(last)).value, ArgValue(last);
      if !IsText(k) {
        ProperIsNumber(k, value);
      }
      hide Split, ArgName, KeyOf, Canonical, Atoi, Proper;
      assert SetField(ApplyArgs(EMPTY, init).value, k, value).Some?;
    }
  }

  /** What one argument says of its key. */
  lemma OneArg(name: string, value: string)
    requires ':' !in name && ':' !in value
    ensures var arg := name + ":" + value;
      |Split(arg, ':')| >= 2 && ArgName(arg) == name && ArgValue(arg) == value
  {
    SplitCons(name, ':', value);
    SplitOne(value, ':');
    JoinOne(value, ':');
  }

  /** An address is all that stands behind the first ':', whatever is in it. */
  lemma AddressArg(name: string, value: string)
    requires IsAddress(name)
    ensures var arg := name + ":" + value;
      |Split(arg, ':')| >= 2 && ArgName(arg) == name && ArgValue(arg) == value
  {
    assert ':' !in "sourceIP" && ':' !in "destinationIP";
    SplitCons(name, ':', value);
    assert Split(name + ":" + value, ':') == [name] + Split(value, ':');
    JoinSplit(value, ':');
  }

  /** Of any other argument only the text between its first two colons counts. */
  lemma CutArg(name: string, value: string, more: string)
    requires ':' !in name && !IsAddress(name) && ':' !in value
    ensures var arg := name + ":" + value + ":" + more;
      |Split(arg, ':')| >= 2 && ArgName(arg) == name && ArgValue(arg) == value
  {
    hide Split, Join;
    var arg, rest := name + ":" + value + ":" + more, value + ":" + more;
    SplitCons(name, ':', rest);
    SplitCons(value, ':', more);
    ConcatAssociative(name + ":", value + ":", more);
    ConcatAssociative(name + ":", value, ":");
    assert arg == name + ":" + rest;
    var parts := Split(arg, ':');
    assert parts == [name] + ([value] + Split(more, ':'));
    assert parts[0] == name && parts[1] == value;
  }

  /** One accepted argument that names an unknown key, or a value that is not
      proper, already makes the two queries differ. */
  lemma OneArgDiffers(name: string, value: string, q: map<string, string>)
    requires ':' !in name && ':' !in value && ApplyArgs(EMPTY, [name + ":" + value]).Some?
    requires Says(q, ApplyArgs(EMPTY, [name + ":" + value]).value)
    requires KeyOf(name).None? || !Proper(KeyOf(name).value, value)
    ensures TextQuery([name + ":" + value]) == Some(map[name := value]) && q != map[name := value]
  {
    var arg := name + ":" + value;
    OneArg(name, value);
    hide Split, ArgName, ArgValue, ApplyArgs, Says, Proper;
    assert [arg][..0] == [] && arg in [arg];
    assert TextQuery([arg]) == Some(map[name := value]);
    SameQueryExactly([arg], q);
    assert LastValue([arg], name) == Some(value);
  }

  lemma ZeroSix()
    ensures Atoi("06") == Some(6) && !Proper(Protocol, "06")
  {
    var s := "06";
    assert IsDigits(s[..1]) && IsDigits(s[..0]);
    assert s[..1][..0] == [];
    assert Val(s[..0]) == 0;
    assert Val(s[..1]) == 0;
    assert Val(s) == 6;
  }

  lemma ZeroSixAccepted()
    ensures ApplyArgs(EMPTY, ["protocol" + ":" + "06"]).Some?
  {
    OneArg("protocol", "06");
    ZeroSix();
    hide Split, ArgName, ArgValue, Atoi;
    var args := ["protocol" + ":" + "06"];
    assert args[..0] == [];
    assert ApplyArgs(EMPTY, []) == Some(EMPTY);
  }

  /** protocol:06 is created as 6 and deleted as 06. */
  lemma LeadingZeroDiffers(q: map<string, string>)
    ensures var args := ["protocol" + ":" + "06"];
      && ApplyArgs(EMPTY, args).Some? && TextQuery(args).Some?
      && (Says(q, ApplyArgs(EMPTY, args).value) ==> q != TextQuery(args).value)
  {
    ZeroSix();
    ZeroSixAccepted();
    OneArg("protocol", "06");
    hide ApplyArgs, Says, Split, ArgName, ArgValue, Atoi, Proper;
    var args := ["protocol" + ":" + "06"];
    assert args[..0] == [];
    if Says(q, ApplyArgs(EMPTY, args).value) {
      OneArgDiffers("protocol", "06", q);
    }
  }
}
