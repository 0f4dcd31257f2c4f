/** Per-model token quotas of a tenant: MODEL=TOKENS on the command line of
    `set ratelimit`, one sorted comma-separated cell in `get ratelimit`. */
module RateLimits {
  import opened Text
  import opened Sorting

  datatype Limit = Limit(model: string, tokens: int)

  function Print(l: Limit): string { l.model + "=" + Itoa(l.tokens) }

  // ----- parsing -----

  datatype LimitError = NotAPair | BarInModel | RepeatedModel | BadQuota

  /** strings.Cut at '=', both sides trimmed. */
  function ModelOf(value: string): string { TrimSpace(value[..Index(value, '=')]) }

  function QuotaOf(value: string): string
    requires '=' in value
  {
    TrimSpace(value[Index(value, '=') + 1..])
  }

  function ParseOne(value: string, seen: set<string>): Result<Limit, LimitError> {
    if '=' !in value || ModelOf(value) == "" || QuotaOf(value) == "" then Err(NotAPair)
    else if '|' in ModelOf(value) then Err(BarInModel)
    else if ModelOf(value) in seen then Err(RepeatedModel)
    else
      var tokens := Atoi(QuotaOf(value));
      if tokens.None? || tokens.value < 0 then Err(BadQuota) else Ok(Limit(ModelOf(value), tokens.value))
  }

  function Models(limits: seq<Limit>): set<string> { set l | l in limits :: l.model }

  function ParseLimits(values: seq<string>): Result<seq<Limit>, LimitError> {
    if values == [] then Ok([])
    else
      var init := ParseLimits(values[..|values| - 1]);
      if init.Err? then init
      else
        var last := ParseOne(values[|values| - 1], Models(init.value));
        if last.Err? then Err(last.error) else Ok(init.value + [last.value])
  }

  method ParseTenantModelLimits(values: seq<string>) returns (r: Result<seq<Limit>, LimitError>)
    ensures r == ParseLimits(values)
  {
    hide Atoi, TrimSpace, Trimmed, Index;
    var limits: seq<Limit> := [];
    var seen: set<string> := {};
    for i := 0 to |values|
      invariant ParseLimits(values[..i]) == Ok(limits)
      invariant seen == Models(limits)
    {
      ParsePrefix(values, i);
      var value := values[i];
      var cut := Index(value, '=');
      var model := TrimSpace(value[..cut]);
      if cut == |value| || model == "" || TrimSpace(value[cut + 1..]) == "" {
        assert ParseOne(value, seen) == Err(NotAPair) by {
          assert value[..|value|] == value;
        }
        return Err(NotAPair);
      }
      if '|' in model {
        return Err(BarInModel);
      }
      if model in seen {
        return Err(RepeatedModel);
      }
      var tokens := Atoi(TrimSpace(value[cut + 1..]));
      if tokens.None? || tokens.value < 0 {
        return Err(BadQuota);
      }
      seen := seen + {model};
      limits := limits + [Limit(model, tokens.value)];
    }
    assert values[..|values|] == values;
    r := Ok(limits);
  }

  /** An accepted prefix decides nothing but the next value; a refused one decides all. */
  lemma {:induction false} ParsePrefix(values: seq<string>, i: nat)
    requires i < |values| && ParseLimits(values[..i]).Ok?
    ensures var limits := ParseLimits(values[..i]).value;
      var next := ParseOne(values[i], Models(limits));
      && (next.Ok? ==> ParseLimits(values[..i + 1]) == Ok(limits + [next.value]))
      && (next.Err? ==> ParseLimits(values) == Err(next.error))
  {
    hide ParseOne;
    assert values[..i + 1][..i] == values[..i];
    var next := ParseOne(values[i], Models(ParseLimits(values[..i]).value));
    if next.Err? {
      RefusedStays(values, i + 1);
    }
  }

  lemma {:induction false} RefusedStays(values: seq<string>, n: nat)
    requires n <= |values| && ParseLimits(values[..n]).Err?
    ensures ParseLimits(values) == ParseLimits(values[..n])
  {
    hide ParseOne;
    if n == |values| {
      assert values[..n] == values;
    } else {
      var init := values[..|values| - 1];
      assert init[..n] == values[..n];
      RefusedStays(init, n);
    }
  }

  // ----- printing -----

  function PrintAll(limits: seq<Limit>): (values: seq<string>)
    ensures |values| == |limits|
  {
    seq(|limits|, i requires 0 <= i < |limits| => Print(limits[i]))
  }

  ghost predicate SortedForm(values: seq<string>, limits: seq<Limit>) {
    Ordered(values, (s: string) => s) && multiset(values) == multiset(PrintAll(limits))
  }

  method FormatTenantModelLimits(limits: seq<Limit>) returns (text: string)
    ensures exists values :: SortedForm(values, limits) && text == Join(values, ',')
  {
    hide Ordered, Join, Print;
    var a := new string[|limits|];
    for i := 0 to |limits|
      invariant a[..i] == PrintAll(limits)[..i]
    {
      a[i] := Print(limits[i]);
    }
    assert a[..] == PrintAll(limits);
    SortByKey(a, (s: string) => s);
    text := Join(a[..], ',');
    assert SortedForm(a[..], limits);
  }

  // ----- accepted lists -----

  predicate Good(l: Limit) {
    && l.model != "" && Trimmed(l.model) && '=' !in l.model && '|' !in l.model
    && 0 <= l.tokens <= MAX_INT64
  }

  predicate AllGood(limits: seq<Limit>) {
    && (forall l :: l in limits ==> Good(l))
    && (forall i, j :: 0 <= i < j < |limits| ==> limits[i].model != limits[j].model)
  }

  lemma ParsedIsGood(value: string, seen: set<string>)
    requires ParseOne(value, seen).Ok?
    ensures Good(ParseOne(value, seen).value) && ParseOne(value, seen).value.model !in seen
  {
    var front := value[..Index(value, '=')];
    assert forall c :: c in TrimSpace(front) ==> c in front;
  }

  /** Every accepted list is good: trimmed, distinct, bar-free models and quotas in range. */
  lemma {:induction false} AcceptedIsGood(values: seq<string>)
    requires ParseLimits(values).Ok?
    ensures AllGood(ParseLimits(values).value)
  {
    if values != [] {
      var init := values[..|values| - 1];
      AcceptedIsGood(init);
      var limits := ParseLimits(init).value;
      ParsedIsGood(values[|values| - 1], Models(limits));
      hide ParseOne, Good;
      assert forall l :: l in limits ==> l.model in Models(limits);
    }
  }

  lemma DigitsTrimmed(n: nat)
    ensures Trimmed(Dec(n)) && '=' !in Dec(n)
  {
    var s := Dec(n);
    assert IsDigit(s[0]) && IsDigit(s[|s| - 1]) by {
      assert s[0] in s && s[|s| - 1] in s;
    }
  }

  lemma ParsePrinted(l: Limit, seen: set<string>)
    requires Good(l)
    ensures ParseOne(Print(l), seen) == if l.model in seen then Err(RepeatedModel) else Ok(l)
  {
    var quota := Dec(l.tokens);
    DigitsTrimmed(l.tokens);
    AtoiDec(l.tokens);
    IndexAt(l.model, '=', quota);
    var value := Print(l);
    assert value[..|l.model|] == l.model && value[|l.model| + 1..] == quota;
    assert value[|l.model|] == '=' && '=' in value;
  }

  /** Parsing the printed pairs of a good list gives the list back. */
  lemma {:induction false} ParsePrintAll(limits: seq<Limit>)
    requires AllGood(limits)
    ensures ParseLimits(PrintAll(limits)) == Ok(limits)
  {
    hide ParseOne, Print, Good;
    if limits != [] {
      var n := |limits| - 1;
      var init, last := limits[..n], limits[n];
      assert PrintAll(limits)[..n] == PrintAll(init);
      ParsePrintAll(init);
      assert last in limits && last.model !in Models(init);
      ParsePrinted(last, Models(init));
      assert init + [last] == limits;
    }
  }

  lemma AcceptedRoundTrip(values: seq<string>)
    requires ParseLimits(values).Ok?
    ensures ParseLimits(PrintAll(ParseLimits(values).value)) == ParseLimits(values)
  {
    AcceptedIsGood(values);
    ParsePrintAll(ParseLimits(values).value);
  }

  // ----- what every value is -----

  /** A value without '=' is no pair; one with it is read from its two sides, the
      first reason that applies refusing it. */
  lemma OneExactly(value: string, model: string, quota: string, seen: set<string>)
    ensures '=' !in value ==> ParseOne(value, seen) == Err(NotAPair)
    ensures value == model + "=" + quota && '=' !in model ==>
      var m, q := TrimSpace(model), TrimSpace(quota);
      ParseOne(value, seen)
      == if m == "" || q == "" then Err(NotAPair)
         else if '|' in m then Err(BarInModel)
         else if m in seen then Err(RepeatedModel)
         else if Atoi(q).None? || Atoi(q).value < 0 then Err(BadQuota)
         else Ok(Limit(m, Atoi(q).value))
  {
    if value == model + "=" + quota && '=' !in model {
      IndexAt(model, '=', quota);
      assert value[..|model|] == model && value[|model| + 1..] == quota;
      assert value[|model|] == '=' && '=' in value;
    }
  }

  // ----- the sorted form -----

  /** The pair a printed text stands for. */
  function Unprint(value: string): Limit {
    var r := ParseOne(value, {});
    if r.Ok? then r.value else Limit("", 0)
  }

  function UnprintAll(values: seq<string>): (limits: seq<Limit>)
    ensures |limits| == |values|
  {
    seq(|values|, i requires 0 <= i < |values| => Unprint(values[i]))
  }

  function Removed<T>(t: seq<T>, i: nat): seq<T>
    requires i < |t|
  {
    t[..i] + t[i + 1..]
  }

  lemma Without<T>(t: seq<T>, i: nat)
    requires i < |t|
    ensures multiset(Removed(t, i)) == multiset(t) - multiset{t[i]}
    ensures multiset(t) == multiset(Removed(t, i)) + multiset{t[i]}
  {
    var front, back := t[..i], t[i + 1..];
    assert t == front + [t[i]] + back;
    assert multiset(t) == multiset(front) + multiset{t[i]} + multiset(back);
    TakeOne(multiset(t), multiset(front) + multiset(back), t[i]);
  }

  lemma TakeOne<T>(m: multiset<T>, rest: multiset<T>, x: T)
    requires m == rest + multiset{x}
    ensures rest == m - multiset{x}
  {
  }

  lemma UnprintRemoved(t: seq<string>, i: nat)
    requires i < |t|
    ensures multiset(UnprintAll(t)) == multiset(UnprintAll(Removed(t, i))) + multiset{Unprint(t[i])}
  {
    hide Unprint;
    Without(UnprintAll(t), i);
    assert Removed(UnprintAll(t), i) == UnprintAll(Removed(t, i));
  }

  lemma {:induction false} UnprintMultiset(s: seq<string>, t: seq<string>)
    requires multiset(s) == multiset(t)
    ensures multiset(UnprintAll(s)) == multiset(UnprintAll(t))
  {
    SameMultiset(s, t);
    if s != [] {
      assert s[0] in t;
      var i :| 0 <= i < |t| && t[i] == s[0];
      Without(t, i);
      Without(s, 0);
      hide Unprint, UnprintAll;
      UnprintMultiset(Removed(s, 0), Removed(t, i));
      UnprintRemoved(t, i);
      UnprintRemoved(s, 0);
    }
  }

  lemma UnprintPrinted(limits: seq<Limit>)
    requires AllGood(limits)
    ensures UnprintAll(PrintAll(limits)) == limits
  {
    forall i | 0 <= i < |limits| ensures Unprint(PrintAll(limits)[i]) == limits[i] {
      assert limits[i] in limits;
      ParsePrinted(limits[i], {});
    }
  }

  lemma {:induction false} CountDistinct(limits: seq<Limit>, l: Limit)
    requires AllGood(limits)
    ensures multiset(limits)[l] <= 1
  {
    if limits != [] {
      var n := |limits| - 1;
      assert limits == limits[..n] + [limits[n]];
      assert AllGood(limits[..n]) by {
        assert forall x :: x in limits[..n] ==> x in limits;
      }
      CountDistinct(limits[..n], l);
      if l == limits[n] {
        assert l !in limits[..n];
      }
    }
  }

  lemma CountTwice<T>(s: seq<T>, i: nat, j: nat)
    requires i < j < |s| && s[i] == s[j]
    ensures multiset(s)[s[i]] >= 2
  {
    Without(s, i);
    assert Removed(s, i)[j - 1] == s[j];
    assert s[j] in multiset(Removed(s, i));
  }

  /** A reordered good list is good. */
  lemma PermutedIsGood(limits: seq<Limit>, other: seq<Limit>)
    requires AllGood(limits) && multiset(other) == multiset(limits)
    ensures AllGood(other)
  {
    SameMultiset(other, limits);
    hide Good;
    forall i, j | 0 <= i < j < |other| ensures other[i].model != other[j].model {
      assert other[i] in limits && other[j] in limits;
      if other[i].model == other[j].model {
        CountTwice(other, i, j);
        CountDistinct(limits, other[i]);
      }
    }
  }

  /** Parsing the printed pairs in any order gives the same pairs in that order. */
  lemma ParsePermuted(limits: seq<Limit>, values: seq<string>)
    requires AllGood(limits) && multiset(values) == multiset(PrintAll(limits))
    ensures ParseLimits(values).Ok? && multiset(ParseLimits(values).value) == multiset(limits)
  {
    var other := UnprintAll(values);
    UnprintMultiset(values, PrintAll(limits));
    UnprintPrinted(limits);
    PermutedIsGood(limits, other);
    SameMultiset(values, PrintAll(limits));
    forall i | 0 <= i < |values| ensures Print(other[i]) == values[i] {
      assert values[i] in PrintAll(limits);
      var k :| 0 <= k < |limits| && PrintAll(limits)[k] == values[i];
      assert limits[k] in limits;
      ParsePrinted(limits[k], {});
    }
    assert PrintAll(other) == values;
    ParsePrintAll(other);
  }

  // ----- splitting the cell again -----

  /** Every piece of a value is a piece of the joined text. */
  lemma {:induction false} PiecesOfJoin(values: seq<string>, c: char, value: string, piece: string)
    requires value in values && piece in Split(value, c)
    ensures piece in Split(Join(values, c), c)
  {
    if |values| > 1 {
      SplitConcat(values[0], c, Join(values[1..], c));
      if value in values[1..] {
        PiecesOfJoin(values[1..], c, value, piece);
      }
    }
  }

  lemma {:induction false} PairlessRefused(values: seq<string>, v: string)
    requires v in values && '=' !in v
    ensures ParseLimits(values).Err?
  {
    if v in values[..|values| - 1] {
      PairlessRefused(values[..|values| - 1], v);
    }
  }

  predicate CommaFree(limits: seq<Limit>) { forall l :: l in limits ==> ',' !in l.model }

  lemma PrintedCommaFree(l: Limit)
    requires Good(l) && ',' !in l.model
    ensures ',' !in Print(l)
  {
    assert IsDigits(Dec(l.tokens));
    assert !IsDigit(',');
  }

  lemma CommaPiece(l: Limit) returns (piece: string)
    requires Good(l) && ',' in l.model
    ensures piece in Split(Print(l), ',') && '=' !in piece
  {
    hide Split, Itoa, Index, TrimSpace, Trimmed;
    var i := Index(l.model, ',');
    IndexOfMember(l.model, ',');
    piece := l.model[..i];
    var behind, quota := l.model[i + 1..], "=" + Itoa(l.tokens);
    assert l.model == piece + "," + behind;
    ConcatAssociative(piece + ",", behind, quota);
    ConcatAssociative(l.model, "=", Itoa(l.tokens));
    assert Print(l) == piece + "," + (behind + quota);
    SplitCons(piece, ',', behind + quota);
  }

  /** For every accepted list: splitting its sorted cell at ',' and parsing the
      pieces succeeds exactly when the list is not empty and no model holds a
      comma, and then gives the same models and quotas. */
  lemma SortedCellParses(limits: seq<Limit>, values: seq<string>)
    requires AllGood(limits) && multiset(values) == multiset(PrintAll(limits))
    ensures var r := ParseLimits(Split(Join(values, ','), ','));
      && (r.Ok? <==> limits != [] && CommaFree(limits))
      && (r.Ok? ==> multiset(r.value) == multiset(limits))
  {
    SameMultiset(values, PrintAll(limits));
    var pieces := Split(Join(values, ','), ',');
    if limits == [] {
      assert pieces == [""];
      PairlessRefused(pieces, "");
    } else if CommaFree(limits) {
      forall v | v in values ensures ',' !in v {
        var k :| 0 <= k < |limits| && PrintAll(limits)[k] == v;
        PrintedCommaFree(limits[k]);
      }
      SplitJoin(values, ',');
      ParsePermuted(limits, values);
    } else {
      var k :| 0 <= k < |limits| && ',' in limits[k].model;
      assert limits[k] in limits && PrintAll(limits)[k] in values;
      var piece := CommaPiece(limits[k]);
      PiecesOfJoin(values, ',', PrintAll(limits)[k], piece);
      PairlessRefused(pieces, piece);
    }
  }

  /** The cell is the same whatever sort is used. */
  lemma OneSortedForm(limits: seq<Limit>, v1: seq<string>, v2: seq<string>)
    requires SortedForm(v1, limits) && SortedForm(v2, limits)
    ensures v1 == v2
  {
    SortedOnce(v1, v2, (s: string) => s);
  }
}
