/** `create lb`: from validated options to one posted request per protocol. The
    protocol map and the port map are walked in any order, as Go's are. */
module LoadBalancer {
  import opened Text
  import opened LBOptions
  import opened PortPairs
  import opened Endpoints

  datatype Service = Service(
    externalIP: string, protocol: string, port: Port, portMax: Port, sel: int, mode: int, security: int, oper: int,
    pdDisagg: bool)

  datatype Model = Model(
    service: Service, endpoints: seq<Endpoint>, secondaryIPs: seq<string>, srcIPs: seq<string>)

  function ProtoPairs(o: Options): map<string, seq<string>> {
    var m0: map<string, seq<string>> := map[];
    var m1 := if o.tcp != [] then m0["tcp" := o.tcp] else m0;
    var m2 := if o.udp != [] then m1["udp" := o.udp] else m1;
    var m3 := if o.sctp != [] then m2["sctp" := o.sctp] else m2;
    if o.icmp then m3["icmp" := ["0:0"]] else m3
  }

  // ----- the smaller and the larger service port -----

  predicate IsLow(m: PortMap, p: Port) { p in m && forall q :: q in m ==> p <= q }

  predicate IsHigh(m: PortMap, p: Port) { p in m && forall q :: q in m ==> q <= p }

  lemma {:induction false} HasLowAndHigh(m: PortMap)
    requires m != map[]
    ensures (exists p :: IsLow(m, p)) && (exists p :: IsHigh(m, p))
    decreases |m|
  {
    var p :| p in m;
    var rest := m - {p};
    if rest == map[] {
      assert m.Keys == rest.Keys + {p};
      assert IsLow(m, p) && IsHigh(m, p);
    } else {
      assert m.Keys == rest.Keys + {p};
      assert |rest.Keys| < |m.Keys|;
      HasLowAndHigh(rest);
      var low :| IsLow(rest, low);
      var high :| IsHigh(rest, high);
      assert IsLow(m, if p < low then p else low);
      assert IsHigh(m, if p > high then p else high);
    }
  }

  ghost function Low(m: PortMap): (p: Port)
    requires m != map[]
    ensures IsLow(m, p)
  {
    HasLowAndHigh(m);
    var p :| IsLow(m, p);
    p
  }

  ghost function High(m: PortMap): (p: Port)
    requires m != map[]
    ensures IsHigh(m, p)
  {
    HasLowAndHigh(m);
    var p :| IsHigh(m, p);
    p
  }

  lemma LowIs(m: PortMap, p: Port)
    requires IsLow(m, p)
    ensures m != map[] && p == Low(m)
  {
  }

  lemma HighIs(m: PortMap, p: Port)
    requires IsHigh(m, p)
    ensures m != map[] && p == High(m)
  {
  }

  /** The ports walked so far, kept in order. */
  predicate Walked(done: set<Port>, first: bool, low: Port, high: Port) {
    if !first then done == {} && low == high == 0
    else (done == {low} && high == 0) || (done == {low, high} && low < high)
  }

  lemma WalkedSize(done: set<Port>, left: set<Port>, all: set<Port>, first: bool, low: Port, high: Port)
    requires Walked(done, first, low, high) && done + left == all && done !! left && |all| <= 2 && left != {}
    ensures !first || (done == {low} && high == 0)
  {
    assert |all| == |done| + |left|;
    assert low < high ==> |{low, high}| == 2;
  }

  lemma WalkNone()
    ensures Walked({}, false, 0, 0)
  {
  }

  /** One more port, when at most one has been seen. */
  lemma WalkOne(done: set<Port>, first: bool, low: Port, high: Port, p: Port)
    requires Walked(done, first, low, high) && p !in done
    requires !first || (done == {low} && high == 0)
    ensures Walked(done + {p}, true, if first && low < p then low else p,
                   if !first then high else if low < p then p else low)
    ensures first ==> p != low
  {
    if first && p < low {
      assert done + {p} == {p, low};
    } else if first {
      assert done + {p} == {low, p};
    } else {
      assert done + {p} == {p};
    }
  }

  /** The walk over the port map that keeps the two ports in order. */
  method ServicePorts(m: PortMap) returns (startSPort: Port, endSPort: Port)
    requires 1 <= |m| <= 2
    ensures startSPort == Low(m)
    ensures endSPort == if |m| == 1 then 0 else High(m)
  {
    hide Low, High, Walked;
    startSPort, endSPort := 0, 0;
    var first, left := false, m.Keys;
    ghost var done: set<Port> := {};
    WalkNone();
    while left != {}
      invariant done + left == m.Keys && done !! left
      invariant Walked(done, first, startSPort, endSPort)
      decreases left
    {
      WalkedSize(done, left, m.Keys, first, startSPort, endSPort);
      var sPort :| sPort in left;
      WalkOne(done, first, startSPort, endSPort, sPort);
      left := left - {sPort};
      done := done + {sPort};
      if !first {
        startSPort, first := sPort, true;
      } else if sPort > startSPort {
        endSPort := sPort;
      } else {
        endSPort := startSPort;
        startSPort := sPort;
      }
    }
    WalkedAll(m, first, startSPort, endSPort);
  }

  lemma WalkedAll(m: PortMap, first: bool, low: Port, high: Port)
    requires 1 <= |m| <= 2 && Walked(m.Keys, first, low, high)
    ensures low == Low(m) && high == if |m| == 1 then 0 else High(m)
  {
    hide Low, High;
    assert |m.Keys| == |m|;
    assert forall p :: p in m <==> p in m.Keys;
    LowIs(m, low);
    if m.Keys == {low, high} && low < high {
      HighIs(m, high);
    }
  }

  // ----- one request -----

  /** The endpoints with what was given beside them; None when the texts do not fit together. */
  datatype Prepared = Prepared(eps: seq<EndpointSpec>, roles: seq<int>, nixl: seq<int>)
  {
    predicate Aligned() { |roles| == |nixl| == |eps| }
  }

  function Prepare(o: Options): (r: Option<Prepared>)
    ensures r.Some? ==> r.value.Aligned()
  {
    var eps := ParseEndpoints(o.endpoints);
    if eps.None? then None
    else
      var roles, nixl := AlignedRoles(o.epRoles, |eps.value|), AlignedPorts(o.nixlPorts, |eps.value|);
      if roles.None? || nixl.None? then None else Some(Prepared(eps.value, roles.value, nixl.value))
  }

  function Oper(o: Options): int { if o.attach then 1 else if o.detach then 2 else 0 }

  function ServiceFor(o: Options, proto: string, port: Port, portMax: Port): Service {
    Service(o.externalIP, proto, port, portMax, SelectToNum(o.select), ModeToNum(o.mode), SecStringToNum(o.security),
            Oper(o), o.pd.disagg)
  }

  /** The request of one protocol, or None when its port pairs cannot be used. */
  ghost function Request(o: Options, p: Prepared, proto: string, pairs: seq<string>): Option<Model>
    requires p.Aligned()
  {
    var table := PortTable(pairs);
    if table.None? || table.value == map[] || |table.value| > 2 then None
    else
      var m := table.value;
      var port := Low(m);
      if o.mode == "dsr" && p.eps != [] && exists t :: t in m[port] && t != port then None
      else
        Some(Model(ServiceFor(o, proto, port, if |m| == 1 then 0 else High(m)),
                   Product(p.eps, p.roles, p.nixl, m[port]), o.secIPs, o.sources))
  }

  method BuildRequest(o: Options, p: Prepared, proto: string, pairs: seq<string>) returns (r: Option<Model>)
    requires p.Aligned()
    ensures r == Request(o, p, proto, pairs)
  {
    hide PortTable, Product, ServiceFor;
    var table := GetPortPairList(pairs);
    if table.None? || |table.value| <= 0 || |table.value| > 2 {
      return None;
    }
    var m := table.value;
    var startSPort, endSPort := ServicePorts(m);
    var endpoints := BuildEndpoints(p.eps, p.roles, p.nixl, m[startSPort], o.mode == "dsr", startSPort);
    if endpoints.None? {
      return None;
    }
    r := Some(Model(ServiceFor(o, proto, startSPort, endSPort), endpoints.value, o.secIPs, o.sources));
  }

  // ----- the run -----

  datatype Answer = NoAnswer | Status(code: int)

  datatype Outcome = Done | InvalidArgument | FeatureUnavailable | Unavailable | Rejected(code: int)

  /** m is the request of its own protocol. */
  ghost predicate IsRequest(o: Options, m: Model) {
    var p, proto := Prepare(o), m.service.protocol;
    p.Some? && proto in ProtoPairs(o) && Request(o, p.value, proto, ProtoPairs(o)[proto]) == Some(m)
  }

  ghost predicate Buildable(o: Options) {
    && Validate(o).Accepted?
    && !(o.sctp == [] && o.secIPs != [])
    && Prepare(o).Some?
    && forall proto :: proto in ProtoPairs(o) ==>
         Request(o, Prepare(o).value, proto, ProtoPairs(o)[proto]).Some?
  }

  predicate DistinctProtocols(posted: seq<Model>) {
    forall i, j :: 0 <= i < j < |posted| ==> posted[i].service.protocol != posted[j].service.protocol
  }

  ghost predicate PostedOnly(o: Options, posted: seq<Model>) {
    DistinctProtocols(posted) && forall m :: m in posted ==> IsRequest(o, m)
  }

  function Protocols(posted: seq<Model>): set<string> { set m | m in posted :: m.service.protocol }

  /** The requests are posted one after the other; answers is what comes back for
      each, and features whether the gateway offers what the options need. */
  method CreateLB(o: Options, features: bool, answers: nat -> Answer) returns (outcome: Outcome, posted: seq<Model>)
    ensures PostedOnly(o, posted)
    ensures posted != [] ==> Validate(o).Accepted?
    ensures o.pd.disagg ==> forall m :: m in posted ==> HasEndpointOf(m, PREFILL) && HasEndpointOf(m, DECODE)
    ensures outcome.Done? ==> Protocols(posted) == ProtoPairs(o).Keys
    ensures outcome.Done? ==> forall i :: 0 <= i < |posted| ==> answers(i) == Status(200)
    ensures outcome.FeatureUnavailable? <==> Validate(o).Accepted? && !features
    ensures outcome.FeatureUnavailable? || Validate(o).Refused? ==> posted == []
    ensures outcome.Unavailable? ==> posted != [] && answers(|posted| - 1) == NoAnswer
    ensures outcome.Rejected? ==> posted != [] && answers(|posted| - 1) == Status(outcome.code) && outcome.code != 200
    ensures features && (forall i :: answers(i) == Status(200)) ==> (outcome.Done? <==> Buildable(o))
  {
    posted := [];
    hide Validate, Prepare, Request, ProtoPairs;
    var verdict := ValidateLBAIOptions(o);
    if verdict.Refused? {
      return InvalidArgument, [];
    }
    if !features {
      return FeatureUnavailable, [];
    }
    if o.sctp == [] && o.secIPs != [] {
      return InvalidArgument, [];
    }
    var prepared := PrepareEndpoints(o);
    if prepared.None? {
      return InvalidArgument, [];
    }
    var pairs := ProtoPairs(o);
    var left := pairs.Keys;
    while left != {}
      invariant left <= pairs.Keys
      invariant PostedOnly(o, posted) && Protocols(posted) == pairs.Keys - left
      invariant forall i :: 0 <= i < |posted| ==> answers(i) == Status(200)
      invariant forall proto :: proto in pairs.Keys - left ==> Request(o, prepared.value, proto, pairs[proto]).Some?
      invariant o.pd.disagg ==> forall m :: m in posted ==> HasEndpointOf(m, PREFILL) && HasEndpointOf(m, DECODE)
      decreases left
    {
      var proto :| proto in left;
      left := left - {proto};
      var request := BuildRequest(o, prepared.value, proto, pairs[proto]);
      if request.None? {
        return InvalidArgument, posted;
      }
      RequestProtocol(o, prepared.value, proto, pairs[proto]);
      var answer := answers(|posted|);
      PostOne(o, posted, request.value);
      if o.pd.disagg {
        DisaggPostsBothRoles(o, request.value);
      }
      posted := posted + [request.value];
      match answer {
        case NoAnswer => return Unavailable, posted;
        case Status(code) =>
          if code != 200 {
            return Rejected(code), posted;
          }
      }
    }
    outcome := Done;
  }

  method PrepareEndpoints(o: Options) returns (r: Option<Prepared>)
    ensures r == Prepare(o)
  {
    hide ParseEndpoints, AlignedRoles, AlignedPorts;
    var eps := GetEndpointList(o.endpoints);
    if eps.None? {
      return None;
    }
    var roles := ParseEndpointRoles(o.epRoles, |eps.value|);
    if roles.None? {
      return None;
    }
    var nixl := AlignNixlPorts(o.nixlPorts, |eps.value|);
    if nixl.None? {
      return None;
    }
    r := Some(Prepared(eps.value, roles.value, nixl.value));
  }

  lemma RequestProtocol(o: Options, p: Prepared, proto: string, pairs: seq<string>)
    requires p.Aligned() && Request(o, p, proto, pairs).Some?
    ensures Request(o, p, proto, pairs).value.service.protocol == proto
  {
  }

  lemma PostOne(o: Options, posted: seq<Model>, m: Model)
    requires PostedOnly(o, posted) && IsRequest(o, m) && m.service.protocol !in Protocols(posted)
    ensures PostedOnly(o, posted + [m]) && Protocols(posted + [m]) == Protocols(posted) + {m.service.protocol}
  {
    hide IsRequest;
    assert forall x :: x in posted ==> x.service.protocol in Protocols(posted);
  }

  // ----- what is posted -----

  /** Two successful runs post the same requests, one for each protocol, whatever
      the order the maps were walked in. */
  lemma OrderIndependent(o: Options, a: seq<Model>, b: seq<Model>)
    requires PostedOnly(o, a) && PostedOnly(o, b)
    requires Protocols(a) == ProtoPairs(o).Keys && Protocols(b) == ProtoPairs(o).Keys
    ensures multiset(a) == multiset(b) && |a| == |ProtoPairs(o)|
  {
    hide Request, ProtoPairs, Prepare;
    PostedOncePerProtocol(a);
    SameRequests(o, a, b);
    SameRequests(o, b, a);
    CountOnce(a);
    CountOnce(b);
    forall m ensures multiset(a)[m] == multiset(b)[m] {
      assert m in a <==> m in multiset(a);
      assert m in b <==> m in multiset(b);
    }
  }

  lemma SameRequests(o: Options, a: seq<Model>, b: seq<Model>)
    requires PostedOnly(o, a) && PostedOnly(o, b) && Protocols(a) <= Protocols(b)
    ensures forall m :: m in a ==> m in b
  {
    forall m | m in a ensures m in b {
      assert m.service.protocol in Protocols(a);
      var n :| n in b && n.service.protocol == m.service.protocol;
      assert IsRequest(o, m) && IsRequest(o, n);
    }
  }

  lemma {:induction false} PostedOncePerProtocol(posted: seq<Model>)
    requires DistinctProtocols(posted)
    ensures |Protocols(posted)| == |posted|
  {
    if posted != [] {
      var init, last := posted[..|posted| - 1], posted[|posted| - 1];
      PostedOncePerProtocol(init);
      assert posted == init + [last];
      assert Protocols(posted) == Protocols(init) + {last.service.protocol};
      assert last.service.protocol !in Protocols(init);
    }
  }

  lemma {:induction false} CountOnce(posted: seq<Model>)
    requires DistinctProtocols(posted)
    ensures forall m :: m in posted ==> multiset(posted)[m] == 1
  {
    if posted != [] {
      var init, last := posted[..|posted| - 1], posted[|posted| - 1];
      CountOnce(init);
      assert posted == init + [last];
      assert last !in init;
    }
  }

  /** The ports of a posted request: the smaller key of the port map, and the
      larger one, or 0 when there is only one; in terms of the flag text, the
      16-bit ports its well-formed pairs name. */
  lemma PostedPorts(o: Options, m: Model)
    requires IsRequest(o, m)
    ensures var pairs := ProtoPairs(o)[m.service.protocol];
      && LastNaming(pairs, m.service.port).Some?
      && (forall p: Port :: LastNaming(pairs, p).Some? ==>
            p == m.service.port || (p == m.service.portMax && m.service.port < m.service.portMax))
      && (m.service.portMax != 0 ==> LastNaming(pairs, m.service.portMax).Some? && m.service.port < m.service.portMax)
  {
    var pairs := ProtoPairs(o)[m.service.protocol];
    var table := PortTable(pairs).value;
    forall p: Port ensures LastNaming(pairs, p).Some? <==> p in table {
      LastPairWins(pairs, p);
    }
    var low, high := Low(table), High(table);
    hide PortTable, LastNaming, Product;
    if |table| == 1 {
      OneKey(table, low);
    } else {
      TwoKeys(table, low, high);
    }
  }

  lemma OneKey(m: PortMap, p: Port)
    requires |m| == 1 && p in m
    ensures m.Keys == {p}
  {
    assert |m.Keys - {p}| == 0;
  }

  lemma TwoKeys(m: PortMap, low: Port, high: Port)
    requires |m| == 2 && IsLow(m, low) && IsHigh(m, high)
    ensures m.Keys == {low, high} && low < high
  {
    assert |m.Keys - {low}| == 1;
    var other :| other in m.Keys - {low};
    assert |m.Keys - {low} - {other}| == 0;
    assert m.Keys == {low, other};
  }

  /** The target ports of a posted request. */
  function TargetsOf(o: Options, m: Model): seq<Port>
    requires IsRequest(o, m)
  {
    var table := PortTable(ProtoPairs(o)[m.service.protocol]).value;
    table[m.service.port]
  }

  /** They are those of the last pair that names the request's port. */
  lemma TargetsOfLastPair(o: Options, m: Model) returns (last: nat, pair: Pair)
    requires IsRequest(o, m)
    ensures m.service.protocol in ProtoPairs(o)
    ensures var pairs := ProtoPairs(o)[m.service.protocol];
      && LastNaming(pairs, m.service.port) == Some(last)
      && last < |pairs| && ParsePair(pairs[last]) == pair
    ensures pair.Maps? && pair.low <= pair.high && TargetsOf(o, m) == Targets(pair.low, pair.high)
  {
    var pairs := ProtoPairs(o)[m.service.protocol];
    LastPairWins(pairs, m.service.port);
    last := LastNaming(pairs, m.service.port).value;
    pair := ParsePair(pairs[last]);
  }

  lemma ProductOf(o: Options, m: Model)
    requires IsRequest(o, m)
    ensures Prepare(o).Some? && TargetsOf(o, m) != []
    ensures m.endpoints
         == Product(Prepare(o).value.eps, Prepare(o).value.roles, Prepare(o).value.nixl, TargetsOf(o, m))
  {
    TableNonEmpty(ProtoPairs(o)[m.service.protocol]);
    hide Product;
  }

  /** The entries are the full product: entry i * t + j is endpoint i at target port j. */
  predicate EntryAt(entries: seq<Endpoint>, p: Prepared, targets: seq<Port>, i: nat, j: nat)
    requires p.Aligned() && i < |p.eps| && j < |targets|
  {
    && |entries| == |p.eps| * |targets|
    && i * |targets| + j < |entries|
    && entries[i * |targets| + j]
       == Endpoint(p.eps[i].ip, targets[j], p.eps[i].weight, p.roles[i], p.nixl[i])
  }

  /** Every posted endpoint list is the full product of the given endpoints and
      the target ports. */
  lemma PostedEndpoints(o: Options, m: Model, i: nat, j: nat)
    requires IsRequest(o, m) && Prepare(o).Some?
    requires i < |Prepare(o).value.eps| && j < |TargetsOf(o, m)|
    ensures EntryAt(m.endpoints, Prepare(o).value, TargetsOf(o, m), i, j)
  {
    ProductOf(o, m);
    var p, targets := Prepare(o).value, TargetsOf(o, m);
    hide Prepare, Product, IsRequest, TargetsOf;
    ProductAt(p.eps, p.roles, p.nixl, targets, i, j);
  }

  /** The endpoint is the i-th of the command line, with the role and the NIXL
      port given in the same place. */
  predicate FromFlags(o: Options, e: Endpoint, i: nat)
    requires i < |o.endpoints|
  {
    && ParseEndpoint(o.endpoints[i]) == Some(EndpointSpec(e.ip, e.weight))
    && (if o.epRoles == [] then e.role == NORMAL
        else |o.epRoles| == |o.endpoints| && EpRoleToNum(o.epRoles[i]) == Some(e.role))
    && (if o.nixlPorts == [] then e.nixlPort == 0
        else |o.nixlPorts| == |o.endpoints| && IsInt32Of(e.nixlPort, o.nixlPorts[i]))
  }

  lemma PreparedFromFlags(o: Options, i: nat)
    requires Prepare(o).Some? && i < |Prepare(o).value.eps|
    ensures |Prepare(o).value.eps| == |o.endpoints|
    ensures var p := Prepare(o).value;
      forall target: Port :: FromFlags(o, Endpoint(p.eps[i].ip, target, p.eps[i].weight, p.roles[i], p.nixl[i]), i)
  {
    EndpointsAt(o.endpoints);
    RolesAligned(o.epRoles, |Prepare(o).value.eps|);
    PortsAligned(o.nixlPorts, |Prepare(o).value.eps|);
    hide ParseEndpoint, ParseEndpoints, AlignedRoles, AlignedPorts, EpRoleToNum, IsInt32Of;
  }

  /** Entry i * t + j of a posted request is the i-th --endpoints text with the
      i-th --ep-role word and the i-th --nixl-port, at its j-th target port. */
  lemma PostedFromFlags(o: Options, m: Model, i: nat, j: nat)
    requires IsRequest(o, m) && i < |o.endpoints| && j < |TargetsOf(o, m)|
    ensures EntryFromFlags(o, m.endpoints, TargetsOf(o, m), i, j)
  {
    ProductOf(o, m);
    PreparedLength(o);
    hide IsRequest, TargetsOf, Prepare, FromFlags;
    PreparedFromFlags(o, i);
    PostedEndpoints(o, m, i, j);
  }

  predicate EntryFromFlags(o: Options, entries: seq<Endpoint>, targets: seq<Port>, i: nat, j: nat)
    requires i < |o.endpoints| && j < |targets|
  {
    && |entries| == |o.endpoints| * |targets|
    && i * |targets| + j < |entries|
    && FromFlags(o, entries[i * |targets| + j], i)
    && entries[i * |targets| + j].targetPort == targets[j]
  }

  lemma PreparedLength(o: Options)
    requires Prepare(o).Some?
    ensures |Prepare(o).value.eps| == |o.endpoints|
  {
    EndpointsAt(o.endpoints);
  }

  /** The pairs given for a protocol. */
  function PairsFor(o: Options, proto: string): seq<string> {
    if proto == "tcp" then o.tcp
    else if proto == "udp" then o.udp
    else if proto == "sctp" then o.sctp
    else if proto == "icmp" && o.icmp then ["0:0"]
    else []
  }

  /** Each protocol is requested with the pairs of its own flag, and only when
      there are any. */
  lemma ProtoPairsExactly(o: Options, proto: string)
    ensures proto in ProtoPairs(o) <==> PairsFor(o, proto) != []
    ensures proto in ProtoPairs(o) ==> ProtoPairs(o)[proto] == PairsFor(o, proto)
  {
  }

  /** What a posted request says besides its ports and endpoints. */
  lemma PostedService(o: Options, m: Model)
    requires IsRequest(o, m)
    ensures PairsFor(o, m.service.protocol) != []
    ensures m.service.externalIP == o.externalIP && m.service.pdDisagg == o.pd.disagg
    ensures m.secondaryIPs == o.secIPs && m.srcIPs == o.sources
    ensures m.service.oper == 1 <==> o.attach
    ensures m.service.oper == 2 <==> o.detach && !o.attach
    ensures m.service.oper in {0, 1, 2}
    ensures m.service.mode == 4 <==> o.mode == "fullproxy"
    ensures m.service.mode == 3 <==> o.mode == "dsr"
    ensures m.service.security == 1 <==> o.security in {"https", "tls"}
    ensures m.service.security == 2 <==> o.security in {"e2ehttps", "e2etls"}
    ensures m.service.sel == SelectToNum(o.select)
  {
    ProtoPairsExactly(o, m.service.protocol);
    hide PortTable, Product, SelectToNum, Prepare, ProtoPairs;
  }

  ghost predicate HasEndpointOf(m: Model, role: int) {
    exists k :: 0 <= k < |m.endpoints| && m.endpoints[k].role == role
  }

  lemma RoleIsAligned(o: Options, role: int) returns (i: nat)
    requires Prepare(o).Some? && HasRole(o.epRoles, role)
    ensures i < |Prepare(o).value.eps| && Prepare(o).value.roles[i] == role
  {
    hide EpRoleToNum, ParseEndpoints, AlignedPorts;
    i :| 0 <= i < |o.epRoles| && EpRoleToNum(o.epRoles[i]) == Some(role);
  }

  lemma RoleIsPosted(o: Options, m: Model, role: int)
    requires IsRequest(o, m) && HasRole(o.epRoles, role)
    ensures HasEndpointOf(m, role)
  {
    ProductOf(o, m);
    hide Prepare, IsRequest, HasRole, TargetsOf;
    var i := RoleIsAligned(o, role);
    var k := FirstEntry(o, m, i);
  }

  lemma FirstEntry(o: Options, m: Model, i: nat) returns (k: nat)
    requires IsRequest(o, m) && Prepare(o).Some? && i < |Prepare(o).value.eps| && TargetsOf(o, m) != []
    ensures k < |m.endpoints| && m.endpoints[k].role == Prepare(o).value.roles[i]
  {
    hide Prepare, IsRequest, TargetsOf;
    PostedEndpoints(o, m, i, 0);
    k := i * |TargetsOf(o, m)| + 0;
  }

  /** Every request posted for an accepted --pd-disagg carries a prefill and a
      decode endpoint. */
  lemma DisaggPostsBothRoles(o: Options, m: Model)
    requires Validate(o).Accepted? && o.pd.disagg && IsRequest(o, m)
    ensures HasEndpointOf(m, PREFILL) && HasEndpointOf(m, DECODE)
  {
    DisaggHasBothRoles(o);
    hide Validate, IsRequest, HasRole;
    RoleIsPosted(o, m, PREFILL);
    RoleIsPosted(o, m, DECODE);
  }
}
