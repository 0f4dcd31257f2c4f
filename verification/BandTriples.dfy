/** One value for each priority band, written critical:standard:sheddable. */
module BandTriples {
  import opened Text

  type Uint32 = n: nat | n < 0x1_0000_0000

  datatype BandTriple = BandTriple(critical: Uint32, standard: Uint32, sheddable: Uint32)

  /** String, and the text MarshalText puts in JSON and YAML. */
  function Print(b: BandTriple): string {
    Dec(b.critical) + ":" + Dec(b.standard) + ":" + Dec(b.sheddable)
  }

  predicate IsNumber(part: string) { ParseUint32(part).Some? }

  function Number(part: string): Uint32
    requires IsNumber(part)
  {
    Val(part)
  }

  function Parse(s: string): Option<BandTriple> {
    var parts := Split(s, ':');
    if |parts| == 3 && IsNumber(parts[0]) && IsNumber(parts[1]) && IsNumber(parts[2])
    then Some(BandTriple(Number(parts[0]), Number(parts[1]), Number(parts[2])))
    else None
  }

  method ParseBandTriple(s: string) returns (r: Option<BandTriple>)
    ensures r == Parse(s)
  {
    var parts := Split(s, ':');
    if |parts| != 3 {
      return None;
    }
    var values := new Uint32[3](_ => 0);
    for i := 0 to |parts|
      invariant forall j :: 0 <= j < i ==> IsNumber(parts[j]) && values[j] == Number(parts[j])
    {
      var v := ParseUint32(parts[i]);
      if v.None? {
        return None;
      }
      values[i] := v.value;
    }
    r := Some(BandTriple(values[0], values[1], values[2]));
  }

  /** A flag value or a field of a decoded document. */
  class BandTripleVar {
    var value: BandTriple

    constructor (b: BandTriple)
      ensures value == b
    {
      value := b;
    }

    /** A text that does not parse leaves the receiver as it was. */
    method UnmarshalText(text: string) returns (ok: bool)
      modifies this
      ensures ok <==> Parse(text).Some?
      ensures value == if ok then Parse(text).value else old(value)
    {
      var parsed := ParseBandTriple(text);
      ok := parsed.Some?;
      if ok {
        value := parsed.value;
      }
    }
  }

  lemma ThreeParts(a: string, b: string, c: string)
    requires IsDigits(a) && IsDigits(b) && IsDigits(c)
    ensures Split(a + ":" + b + ":" + c, ':') == [a, b, c]
  {
    assert a + ":" + b + ":" + c == Join([a, b, c], ':') by {
      assert Join([b, c], ':') == b + ":" + c;
      assert [a, b, c][1..] == [b, c] && [b, c][1..] == [c];
    }
    SplitJoin([a, b, c], ':');
  }

  /** Parsing the printed form gives the triple back. */
  lemma ParsePrint(b: BandTriple)
    ensures Parse(Print(b)) == Some(b)
  {
    ThreeParts(Dec(b.critical), Dec(b.standard), Dec(b.sheddable));
  }

  predicate InRange(part: string) {
    part != "" && IsDigits(part) && Val(part) <= 0xFFFF_FFFF
  }

  ghost predicate ThreeNumbers(s: string, a: string, b: string, c: string) {
    s == a + ":" + b + ":" + c && InRange(a) && InRange(b) && InRange(c)
  }

  lemma ParsesTo(s: string, a: string, b: string, c: string)
    requires ThreeNumbers(s, a, b, c)
    ensures Parse(s) == Some(BandTriple(Val(a), Val(b), Val(c)))
  {
    ThreeParts(a, b, c);
  }

  lemma PartsOf(s: string)
    requires Parse(s).Some?
    ensures var parts := Split(s, ':'); ThreeNumbers(s, parts[0], parts[1], parts[2])
  {
    var parts := Split(s, ':');
    JoinSplit(s, ':');
    hide Split;
    var tail := parts[1..];
    assert Join(tail[1..], ':') == tail[1];
    assert Join(tail, ':') == tail[0] + ":" + tail[1];
    assert Join(parts, ':') == parts[0] + ":" + (parts[1] + ":" + parts[2]);
    assert s == parts[0] + ":" + parts[1] + ":" + parts[2];
  }

  /** A text is accepted exactly when it is three digit strings, each at most
      2^32 - 1, with ':' between them; it then parses to their values. */
  lemma AcceptsExactly(s: string)
    ensures Parse(s).Some? <==> exists a, b, c :: ThreeNumbers(s, a, b, c)
    ensures forall a, b, c :: ThreeNumbers(s, a, b, c) ==> Parse(s) == Some(BandTriple(Val(a), Val(b), Val(c)))
  {
    forall a, b, c | ThreeNumbers(s, a, b, c)
      ensures Parse(s) == Some(BandTriple(Val(a), Val(b), Val(c)))
    {
      ParsesTo(s, a, b, c);
    }
    hide Parse;
    if Parse(s).Some? {
      PartsOf(s);
    }
  }

  /** The printed form of a parsed text parses to the same triple, and is the
      text itself exactly when no number in it has a leading zero. */
  lemma PrintNormalizes(s: string, a: string, b: string, c: string)
    requires ThreeNumbers(s, a, b, c)
    ensures Parse(s).Some? && Parse(Print(Parse(s).value)) == Parse(s)
    ensures Print(Parse(s).value) == s <==> Canonical(a) && Canonical(b) && Canonical(c)
  {
    ParsesTo(s, a, b, c);
    var t := Parse(s).value;
    ParsePrint(t);
    ThreeParts(a, b, c);
    ThreeParts(Dec(t.critical), Dec(t.standard), Dec(t.sheddable));
    if Canonical(a) && Canonical(b) && Canonical(c) {
      DecOfVal(a);
      DecOfVal(b);
      DecOfVal(c);
    }
  }
}
