/** The endpoints of `create lb`: `ip:weight` texts, with the roles and NIXL
    ports given beside them in the same order. */
module Endpoints {
  import opened Text
  import opened PortPairs

  type Weight = n: nat | n < 0x100

  datatype EndpointSpec = EndpointSpec(ip: string, weight: Weight)

  /** The weight stands behind the last ':', so an IPv6 address keeps its own. */
  function ParseEndpoint(s: string): Option<EndpointSpec> {
    var i := LastIndex(s, ':');
    if i < 0 then None
    else
      var weight := Atoi(s[i + 1..]);
      if weight.None? then None else Some(EndpointSpec(s[..i], ToUint8(weight.value)))
  }

  function ParseEndpoints(list: seq<string>): Option<seq<EndpointSpec>> {
    if list == [] then Some([])
    else
      var init, last := ParseEndpoints(list[..|list| - 1]), ParseEndpoint(list[|list| - 1]);
      if init.None? || last.None? then None else Some(init.value + [last.value])
  }

  lemma {:induction false} BadEndpointStays(list: seq<string>, i: nat)
    requires i < |list| && ParseEndpoint(list[i]).None?
    ensures ParseEndpoints(list).None?
  {
    if i < |list| - 1 {
      BadEndpointStays(list[..|list| - 1], i);
    }
  }

  lemma EndpointsNext(list: seq<string>, i: nat)
    requires i < |list|
    ensures var init, last := ParseEndpoints(list[..i]), ParseEndpoint(list[i]);
      ParseEndpoints(list[..i + 1]) == if init.None? || last.None? then None else Some(init.value + [last.value])
  {
    assert list[..i + 1][..i] == list[..i];
  }

  /** The endpoints in the places of their texts. */
  lemma {:induction false} EndpointsAt(list: seq<string>)
    ensures ParseEndpoints(list).Some? <==> forall i :: 0 <= i < |list| ==> ParseEndpoint(list[i]).Some?
    ensures ParseEndpoints(list).Some? ==>
      && |ParseEndpoints(list).value| == |list|
      && forall i :: 0 <= i < |list| ==> ParseEndpoint(list[i]) == Some(ParseEndpoints(list).value[i])
  {
    hide ParseEndpoint;
    if list != [] {
      var n := |list| - 1;
      EndpointsAt(list[..n]);
      assert forall i :: 0 <= i < n ==> list[..n][i] == list[i];
      if ParseEndpoints(list).None? && ParseEndpoint(list[n]).Some? {
        var i :| 0 <= i < n && ParseEndpoint(list[..n][i]).None?;
        assert ParseEndpoint(list[i]).None?;
      }
    }
  }

  method GetEndpointList(list: seq<string>) returns (r: Option<seq<EndpointSpec>>)
    ensures r == ParseEndpoints(list)
  {
    hide Atoi, LastIndex;
    var result: seq<EndpointSpec> := [];
    for i := 0 to |list|
      invariant ParseEndpoints(list[..i]) == Some(result)
    {
      EndpointsNext(list, i);
      hide ParseEndpoints;
      var weightIdx := LastIndex(list[i], ':');
      if weightIdx < 0 {
        BadEndpointStays(list, i);
        return None;
      }
      var weight := Atoi(list[i][weightIdx + 1..]);
      if weight.None? {
        BadEndpointStays(list, i);
        return None;
      }
      result := result + [EndpointSpec(list[i][..weightIdx], ToUint8(weight.value))];
    }
    assert list[..|list|] == list;
    r := Some(result);
  }

  // ----- roles -----

  /** strings.ToLower, as far as a comparison with ASCII words can tell: the
      dotted capital I and the Kelvin sign lower to ASCII letters. */
  function Lower(c: char): char {
    if 'A' <= c <= 'Z' then c + 32 as char
    else if c == '\U{130}' then 'i'
    else if c == '\U{212A}' then 'k'
    else c
  }

  function ToLower(s: string): string { seq(|s|, i requires 0 <= i < |s| => Lower(s[i])) }

  const NORMAL := 0
  const PREFILL := 1
  const DECODE := 2

  function EpRoleToNum(role: string): (r: Option<int>)
    ensures r.Some? ==> r.value in {NORMAL, PREFILL, DECODE}
  {
    var word := ToLower(TrimSpace(role));
    if word == "" || word == "normal" || word == "0" then Some(NORMAL)
    else if word == "prefill" || word == "1" then Some(PREFILL)
    else if word == "decode" || word == "2" then Some(DECODE)
    else None
  }

  function Nothing(n: nat): (out: seq<int>)
    ensures |out| == n && forall i :: 0 <= i < n ==> out[i] == 0
  {
    seq(n, i => 0)
  }

  /** Roles lie beside the endpoints one for one, or are all normal when none is given. */
  method ParseEndpointRoles(roles: seq<string>, epCount: nat) returns (r: Option<seq<int>>)
    ensures r == AlignedRoles(roles, epCount)
    ensures r.None? <==> roles != [] && (|roles| != epCount || exists i :: 0 <= i < |roles| && EpRoleToNum(roles[i]).None?)
    ensures r.Some? ==> |r.value| == epCount
    ensures r.Some? && roles == [] ==> forall i :: 0 <= i < epCount ==> r.value[i] == NORMAL
    ensures r.Some? && roles != [] ==> forall i :: 0 <= i < epCount ==> EpRoleToNum(roles[i]) == Some(r.value[i])
  {
    RolesAligned(roles, epCount);
    hide EpRoleToNum;
    var out := new int[epCount](_ => 0);
    if |roles| == 0 {
      assert out[..] == Nothing(epCount);
      return Some(out[..]);
    }
    if |roles| != epCount {
      return None;
    }
    for i := 0 to |roles|
      invariant forall j :: 0 <= j < i ==> EpRoleToNum(roles[j]) == Some(out[j])
    {
      var n := EpRoleToNum(roles[i]);
      if n.None? {
        return None;
      }
      out[i] := n.value;
    }
    assert out[..] == seq(|roles|, i requires 0 <= i < |roles| => RoleNumber(roles[i]));
    r := Some(out[..]);
  }

  function RoleNumber(role: string): int { if EpRoleToNum(role).Some? then EpRoleToNum(role).value else 0 }

  function AlignedRoles(roles: seq<string>, epCount: nat): Option<seq<int>> {
    if roles == [] then Some(Nothing(epCount))
    else if |roles| != epCount || exists i :: 0 <= i < |roles| && EpRoleToNum(roles[i]).None? then None
    else Some(seq(|roles|, i requires 0 <= i < |roles| => RoleNumber(roles[i])))
  }

  /** Each endpoint has the role of the word in its place. */
  lemma RolesAligned(roles: seq<string>, epCount: nat)
    ensures var r := AlignedRoles(roles, epCount);
      && (r.None? <==> roles != [] && (|roles| != epCount || exists i :: 0 <= i < |roles| && EpRoleToNum(roles[i]).None?))
      && (r.Some? ==> |r.value| == epCount)
      && (r.Some? && roles == [] ==> forall i :: 0 <= i < epCount ==> r.value[i] == NORMAL)
      && (r.Some? && roles != [] ==> forall i :: 0 <= i < epCount ==> EpRoleToNum(roles[i]) == Some(r.value[i]))
  {
    hide EpRoleToNum;
  }

  /** What the words mean, in any case and with any space around them. */
  lemma RoleWords(role: string)
    ensures EpRoleToNum(role) == Some(NORMAL) <==> ToLower(TrimSpace(role)) in {"", "normal", "0"}
    ensures EpRoleToNum(role) == Some(PREFILL) <==> ToLower(TrimSpace(role)) in {"prefill", "1"}
    ensures EpRoleToNum(role) == Some(DECODE) <==> ToLower(TrimSpace(role)) in {"decode", "2"}
    ensures EpRoleToNum("prefill") == Some(1) && EpRoleToNum("decode") == Some(2) && EpRoleToNum("normal") == Some(0)
  {
    AsciiLower("prefill");
    AsciiLower("decode");
    AsciiLower("normal");
    hide TrimSpace, ToLower;
  }

  lemma AsciiLower(word: string)
    requires word != "" && forall c :: c in word ==> 'a' <= c <= 'z'
    ensures ToLower(TrimSpace(word)) == word
  {
    assert word[0] in word && word[|word| - 1] in word;
    assert TrimSpace(word) == word;
    forall i | 0 <= i < |word| ensures Lower(word[i]) == word[i] {
      assert word[i] in word;
    }
  }

  lemma PortsAligned(ports: seq<int>, epCount: nat)
    ensures var r := AlignedPorts(ports, epCount);
      && (r.None? <==> ports != [] && |ports| != epCount)
      && (r.Some? ==> |r.value| == epCount)
      && (r.Some? && ports == [] ==> forall i :: 0 <= i < epCount ==> r.value[i] == 0)
      && (r.Some? && ports != [] ==> forall i :: 0 <= i < epCount ==> IsInt32Of(r.value[i], ports[i]))
  {
    forall i | 0 <= i < |ports| ensures IsInt32Of(ToInt32(ports[i]), ports[i]) {
      Int32Of(ports[i]);
    }
    hide ToInt32;
  }

  method AlignNixlPorts(ports: seq<int>, epCount: nat) returns (r: Option<seq<int>>)
    ensures r == AlignedPorts(ports, epCount)
    ensures r.None? <==> ports != [] && |ports| != epCount
    ensures r.Some? ==> |r.value| == epCount
    ensures r.Some? && ports == [] ==> forall i :: 0 <= i < epCount ==> r.value[i] == 0
    ensures r.Some? && ports != [] ==> forall i :: 0 <= i < epCount ==> IsInt32Of(r.value[i], ports[i])
  {
    PortsAligned(ports, epCount);
    var out := new int[epCount](_ => 0);
    if |ports| == 0 {
      assert out[..] == Nothing(epCount);
      return Some(out[..]);
    }
    if |ports| != epCount {
      return None;
    }
    for i := 0 to |ports|
      invariant forall j :: 0 <= j < i ==> out[j] == ToInt32(ports[j])
    {
      out[i] := ToInt32(ports[i]);
    }
    assert out[..] == seq(|ports|, i requires 0 <= i < |ports| => ToInt32(ports[i]));
    r := Some(out[..]);
  }

  function AlignedPorts(ports: seq<int>, epCount: nat): Option<seq<int>> {
    if ports == [] then Some(Nothing(epCount))
    else if |ports| != epCount then None
    else Some(seq(|ports|, i requires 0 <= i < |ports| => ToInt32(ports[i])))
  }

  // ----- round trip -----

  function PrintEndpoint(ep: EndpointSpec): string { ep.ip + ":" + Dec(ep.weight) }

  function PrintEndpoints(eps: seq<EndpointSpec>): (list: seq<string>)
    ensures |list| == |eps|
  {
    seq(|eps|, i requires 0 <= i < |eps| => PrintEndpoint(eps[i]))
  }

  lemma ParsePrintEndpoint(ep: EndpointSpec)
    ensures ParseEndpoint(PrintEndpoint(ep)) == Some(ep)
  {
    hide Dec, LastIndex, Atoi;
    var weight := Dec(ep.weight);
    assert IsDigits(weight) && !IsDigit(':');
    LastAt(ep.ip, ':', weight);
    AtoiDec(ep.weight);
    assert PrintEndpoint(ep) == ep.ip + [':'] + weight;
  }

  /** Printed endpoints parse back in order, whatever the addresses look like. */
  lemma {:induction false} ParsePrintEndpoints(eps: seq<EndpointSpec>)
    ensures ParseEndpoints(PrintEndpoints(eps)) == Some(eps)
  {
    hide ParseEndpoint, PrintEndpoint;
    if eps != [] {
      var init, last := eps[..|eps| - 1], eps[|eps| - 1];
      ParsePrintEndpoints(init);
      ParsePrintEndpoint(last);
      assert PrintEndpoints(eps)[..|eps| - 1] == PrintEndpoints(init);
      assert eps == init + [last];
    }
  }

  // ----- the product with the target ports -----

  datatype Endpoint = Endpoint(ip: string, targetPort: Port, weight: Weight, role: int, nixlPort: int)

  function Row(ep: EndpointSpec, role: int, nixl: int, targets: seq<Port>): (row: seq<Endpoint>)
    ensures |row| == |targets|
    ensures forall j :: 0 <= j < |targets| ==> row[j] == Endpoint(ep.ip, targets[j], ep.weight, role, nixl)
  {
    seq(|targets|, j requires 0 <= j < |targets| => Endpoint(ep.ip, targets[j], ep.weight, role, nixl))
  }

  function Product(eps: seq<EndpointSpec>, roles: seq<int>, nixl: seq<int>, targets: seq<Port>): seq<Endpoint>
    requires |roles| == |nixl| == |eps|
  {
    if eps == [] then []
    else
      var n := |eps| - 1;
      Product(eps[..n], roles[..n], nixl[..n], targets) + Row(eps[n], roles[n], nixl[n], targets)
  }

  /** The posted list is the full product: entry i * m + j is endpoint i at target port j. */
  lemma {:induction false} ProductAt(eps: seq<EndpointSpec>, roles: seq<int>, nixl: seq<int>, targets: seq<Port>,
                                     i: nat, j: nat)
    requires |roles| == |nixl| == |eps| && i < |eps| && j < |targets|
    ensures |Product(eps, roles, nixl, targets)| == |eps| * |targets|
    ensures i * |targets| + j < |eps| * |targets|
    ensures Product(eps, roles, nixl, targets)[i * |targets| + j]
         == Endpoint(eps[i].ip, targets[j], eps[i].weight, roles[i], nixl[i])
  {
    ProductLength(eps, roles, nixl, targets);
    var n, m := |eps| - 1, |targets|;
    ProductLength(eps[..n], roles[..n], nixl[..n], targets);
    RowBound(i, j, n + 1, m);
    if i < n {
      RowBound(i, j, n, m);
      ProductAt(eps[..n], roles[..n], nixl[..n], targets, i, j);
    }
  }

  lemma {:induction false} RowBound(i: nat, j: nat, n: nat, m: nat)
    requires i < n && j < m
    ensures i * m + j < n * m
    decreases n
  {
    assert n * m == (n - 1) * m + m;
    if i < n - 1 {
      RowBound(i, j, n - 1, m);
    }
  }

  lemma {:induction false} ProductLength(eps: seq<EndpointSpec>, roles: seq<int>, nixl: seq<int>, targets: seq<Port>)
    requires |roles| == |nixl| == |eps|
    ensures |Product(eps, roles, nixl, targets)| == |eps| * |targets|
  {
    if eps != [] {
      var n := |eps| - 1;
      ProductLength(eps[..n], roles[..n], nixl[..n], targets);
      assert (n + 1) * |targets| == n * |targets| + |targets|;
    }
  }

  method BuildEndpoints(eps: seq<EndpointSpec>, roles: seq<int>, nixl: seq<int>, targets: seq<Port>, dsr: bool,
                        startSPort: Port) returns (r: Option<seq<Endpoint>>)
    requires |roles| == |nixl| == |eps|
    ensures r == if dsr && eps != [] && (exists t :: t in targets && t != startSPort) then None
                 else Some(Product(eps, roles, nixl, targets))
  {
    var out: seq<Endpoint> := [];
    for i := 0 to |eps|
      invariant out == Product(eps[..i], roles[..i], nixl[..i], targets)
      invariant i > 0 && dsr ==> forall t :: t in targets ==> t == startSPort
    {
      ghost var before := out;
      for j := 0 to |targets|
        invariant out == before + Row(eps[i], roles[i], nixl[i], targets)[..j]
        invariant dsr ==> forall k :: 0 <= k < j ==> targets[k] == startSPort
      {
        if dsr && targets[j] != startSPort {
          assert targets[j] in targets;
          return None;
        }
        out := out + [Endpoint(eps[i].ip, targets[j], eps[i].weight, roles[i], nixl[i])];
      }
      ghost var row := Row(eps[i], roles[i], nixl[i], targets);
      assert row[..|targets|] == row;
      assert eps[..i + 1][..i] == eps[..i] && roles[..i + 1][..i] == roles[..i] && nixl[..i + 1][..i] == nixl[..i];
    }
    assert eps[..|eps|] == eps && roles[..|eps|] == roles && nixl[..|eps|] == nixl;
    r := Some(out);
  }
}
