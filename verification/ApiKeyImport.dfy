/** Registering an existing credential: a bounded read of a file or of standard
    input, trimmed and checked. */
module ApiKeyImport {
  import opened Text

  const MIN_KEY := 16
  const MAX_KEY := 512
  const READ_LIMIT := MAX_KEY + 2

  // ----- white space in UTF-8 -----

  predicate IsAsciiSpace(b: Byte) { 0x09 <= b <= 0x0D || b == 0x20 }

  /** The two- and three-byte encodings of the other white-space runes. */
  predicate IsWideSpace(r: seq<Byte>) {
    if |r| == 2 then r[0] == 0xC2 && (r[1] == 0x85 || r[1] == 0xA0)
    else
      |r| == 3 &&
      ((r[0] == 0xE1 && r[1] == 0x9A && r[2] == 0x80) || (r[0] == 0xE2 && r[1] == 0x81 && r[2] == 0x9F)
       || (r[0] == 0xE3 && r[1] == 0x80 && r[2] == 0x80)
       || (r[0] == 0xE2 && r[1] == 0x80
           && (0x80 <= r[2] <= 0x8A || r[2] == 0xA8 || r[2] == 0xA9 || r[2] == 0xAF)))
  }

  /** The length of the white-space rune b starts with, 0 when it starts with none. */
  function SpaceAt(b: seq<Byte>): (n: nat)
    ensures n <= |b|
  {
    if |b| >= 1 && IsAsciiSpace(b[0]) then 1
    else if |b| >= 2 && IsWideSpace(b[..2]) then 2
    else if |b| >= 3 && IsWideSpace(b[..3]) then 3
    else 0
  }

  /** The length of the white-space rune b ends with. */
  function SpaceBefore(b: seq<Byte>): (n: nat)
    ensures n <= |b|
  {
    if |b| >= 1 && IsAsciiSpace(b[|b| - 1]) then 1
    else if |b| >= 2 && IsWideSpace(b[|b| - 2..]) then 2
    else if |b| >= 3 && IsWideSpace(b[|b| - 3..]) then 3
    else 0
  }

  /** How many bytes of white space b starts with. */
  function LeadingSpace(b: seq<Byte>): (n: nat)
    ensures n <= |b|
    decreases |b|
  {
    var n := SpaceAt(b);
    if n == 0 then 0 else n + LeadingSpace(b[n..])
  }

  function TrimRight(b: seq<Byte>): (t: seq<Byte>)
    ensures t <= b
    decreases |b|
  {
    var n := SpaceBefore(b);
    if n == 0 then b else TrimRight(b[..|b| - n])
  }

  /** strings.TrimSpace on the bytes of a string. */
  function TrimBytes(b: seq<Byte>): seq<Byte> { TrimRight(b[LeadingSpace(b)..]) }

  predicate Printable(b: Byte) { 0x21 <= b <= 0x7E }

  // ----- the import -----

  datatype Origin = Unreadable | Data(bytes: seq<Byte>)

  datatype Import =
    | NotRequested
    | Imported(key: seq<Byte>)
    | Usage           // both inputs named
    | Precondition    // the input could not be read
    | BadLength
    | BadCharacter

  function Limited(data: seq<Byte>): seq<Byte> {
    if |data| <= READ_LIMIT then data else data[..READ_LIMIT]
  }

  function Accept(data: seq<Byte>): Import {
    var key := TrimBytes(Limited(data));
    if |key| < MIN_KEY || |key| > MAX_KEY then BadLength
    else if forall b :: b in key ==> Printable(b) then Imported(key)
    else BadCharacter
  }

  /** file is the input --api-key-file names, None when the flag was not given. */
  method ReadImportedAPIKey(file: Option<Origin>, useStdin: bool, stdin: Origin) returns (r: Import)
    ensures r.NotRequested? <==> file.None? && !useStdin
    ensures r.Usage? <==> file.Some? && useStdin
    ensures !r.NotRequested? && !r.Usage? ==>
      var input := if file.Some? then file.value else stdin;
      r == if input.Unreadable? then Precondition else Accept(input.bytes)
  {
    if file.Some? && useStdin {
      return Usage;
    }
    if file.None? && !useStdin {
      return NotRequested;
    }
    var input := stdin;
    if file.Some? {
      input := file.value;
    }
    if input.Unreadable? {
      return Precondition;
    }
    var key := TrimBytes(Limited(input.bytes));
    if |key| < MIN_KEY || |key| > MAX_KEY {
      return BadLength;
    }
    hide TrimBytes, Limited;
    for i := 0 to |key|
      invariant forall j :: 0 <= j < i ==> Printable(key[j])
    {
      if key[i] < 0x21 || key[i] > 0x7E {
        assert key[i] in key;
        return BadCharacter;
      }
    }
    r := Imported(key);
  }

  // ----- an accepted key is never cut short -----

  /** The bytes up to the next white space or the end. */
  function Word(b: seq<Byte>): seq<Byte> {
    if b == [] || SpaceAt(b) > 0 then [] else [b[0]] + Word(b[1..])
  }

  function FirstWord(data: seq<Byte>): seq<Byte> { Word(data[LeadingSpace(data)..]) }

  predicate AllPrintable(b: seq<Byte>) { forall x :: x in b ==> Printable(x) }

  lemma PrintableNoSpace(b: seq<Byte>)
    requires b != [] && Printable(b[0])
    ensures SpaceAt(b) == 0
  {
  }

  lemma {:induction false} WordOfPrintable(key: seq<Byte>, rest: seq<Byte>)
    requires AllPrintable(key)
    ensures Word(key + rest) == key + Word(rest)
  {
    hide SpaceAt;
    if key == [] {
      assert key + rest == rest;
    } else {
      assert key[0] in key;
      PrintableNoSpace(key + rest);
      assert (key + rest)[1..] == key[1..] + rest;
      WordOfPrintable(key[1..], rest);
      assert key + Word(rest) == [key[0]] + (key[1..] + Word(rest));
    }
  }

  /** A white-space rune stays one when more bytes follow it. */
  lemma SpaceAtExtends(b: seq<Byte>, more: seq<Byte>)
    requires SpaceAt(b) > 0
    ensures SpaceAt(b + more) == SpaceAt(b)
  {
    assert |b| >= 2 ==> (b + more)[..2] == b[..2];
    assert |b| >= 3 ==> (b + more)[..3] == b[..3];
  }

  lemma {:induction false} LeadingSpaceExtends(b: seq<Byte>, more: seq<Byte>)
    requires LeadingSpace(b) < |b| && Printable(b[LeadingSpace(b)])
    ensures LeadingSpace(b + more) == LeadingSpace(b)
    decreases |b|
  {
    hide SpaceAt;
    var n := SpaceAt(b);
    if n > 0 {
      SpaceAtExtends(b, more);
      LeadingSpaceExtends(b[n..], more);
      assert (b + more)[n..] == b[n..] + more;
    } else {
      PrintableNoSpace(b + more);
    }
  }

  lemma RuneBefore(b: seq<Byte>)
    requires SpaceBefore(b) > 0
    ensures SpaceAt(b[|b| - SpaceBefore(b)..]) > 0
  {
    var n := SpaceBefore(b);
    var rune := b[|b| - n..];
    assert rune[0] == b[|b| - n] && rune[..n] == rune;
  }

  /** What TrimRight drops starts with white space. */
  lemma {:induction false} TrimmedTail(b: seq<Byte>)
    ensures var t := TrimRight(b); t == b || SpaceAt(b[|t|..]) > 0
    decreases |b|
  {
    hide SpaceAt, SpaceBefore;
    var n, t := SpaceBefore(b), TrimRight(b);
    if n > 0 {
      var shorter, rune := b[..|b| - n], b[|b| - n..];
      TrimmedTail(shorter);
      RuneBefore(b);
      if t != shorter {
        SpaceAtExtends(shorter[|t|..], rune);
        assert b[|t|..] == shorter[|t|..] + rune;
      }
    }
  }

  /** Where the accepted key lies in the input. */
  lemma AcceptedKey(data: seq<Byte>)
    requires Accept(data).Imported?
    ensures var key, k, read := Accept(data).key, LeadingSpace(data), Limited(data);
      && k + |key| <= |read|
      && key == data[k..k + |key|]
      && AllPrintable(key) && MIN_KEY <= |key| <= MAX_KEY
      && (k + |key| < |read| ==> SpaceAt(data[k + |key|..]) > 0)
  {
    hide SpaceAt, LeadingSpace, TrimRight;
    var read, key := Limited(data), Accept(data).key;
    var k := LeadingSpace(read);
    var more := data[|read|..];
    assert data == read + more && key == TrimRight(read[k..]);
    assert key[0] in key;
    hide Accept, Limited;
    KeyInRead(read, more, key, k);
  }

  lemma KeyInRead(read: seq<Byte>, more: seq<Byte>, key: seq<Byte>, k: nat)
    requires k == LeadingSpace(read) && key == TrimRight(read[k..]) && key != [] && Printable(key[0])
    ensures LeadingSpace(read + more) == k && k + |key| <= |read| && key == (read + more)[k..k + |key|]
    ensures k + |key| < |read| ==> SpaceAt((read + more)[k + |key|..]) > 0
  {
    hide SpaceAt, LeadingSpace, TrimRight;
    var tail, data := read[k..], read + more;
    assert key <= tail && read[k] == key[0];
    LeadingSpaceExtends(read, more);
    TrimmedTail(tail);
    assert data[k..k + |key|] == tail[..|key|];
    if k + |key| < |read| {
      var behind := read[k + |key|..];
      assert tail[|key|..] == behind;
      SpaceAtExtends(behind, more);
      assert data[k + |key|..] == behind + more;
    }
  }

  /** What lies behind the accepted key, and how far the first word goes on into it. */
  lemma BehindKey(data: seq<Byte>) returns (rest: seq<Byte>)
    requires Accept(data).Imported?
    ensures FirstWord(data) == Accept(data).key + Word(rest)
    ensures LeadingSpace(data) + |Accept(data).key| + |rest| == |data|
    ensures LeadingSpace(data) + |Accept(data).key| < |Limited(data)| ==> Word(rest) == []
    ensures Word(rest) == [] ==> rest == [] || SpaceAt(rest) > 0
  {
    hide SpaceAt, LeadingSpace, Accept;
    AcceptedKey(data);
    var key, k := Accept(data).key, LeadingSpace(data);
    rest := data[k + |key|..];
    assert data[k..] == data[k..k + |key|] + rest;
    WordOfPrintable(key, rest);
  }

  /** For every accepted input: the key is the whole first word exactly when
      the word, with the white space before it, fits the bounded read. */
  lemma WholeWordExactly(data: seq<Byte>)
    requires Accept(data).Imported?
    ensures Accept(data).key == FirstWord(data) <==> LeadingSpace(data) + |FirstWord(data)| <= READ_LIMIT
  {
    AcceptedKey(data);
    hide SpaceAt, LeadingSpace, Accept, Word, FirstWord;
    var rest := BehindKey(data);
  }

  /** With at most one byte of white space in front, no accepted key is cut short. */
  lemma NeverCutShort(data: seq<Byte>)
    requires Accept(data).Imported? && LeadingSpace(data) <= 1
    ensures Accept(data).key == FirstWord(data)
    ensures MIN_KEY <= |FirstWord(data)| <= MAX_KEY && AllPrintable(FirstWord(data))
  {
    hide SpaceAt, LeadingSpace, Accept, FirstWord, Word;
    AcceptedKey(data);
    var rest := BehindKey(data);
    LongEnough(data);
    NoWord();
    assert Accept(data).key + [] == Accept(data).key;
  }

  lemma LongEnough(data: seq<Byte>)
    ensures |Limited(data)| == if |data| <= READ_LIMIT then |data| else READ_LIMIT
  {
  }

  // ----- which inputs are imported -----

  /** The code point of a two- or three-byte encoding. */
  function CodePoint(r: seq<Byte>): int
    requires 2 <= |r| <= 3
  {
    var a: int, b: int, c: int := r[0], r[1], r[|r| - 1];
    if |r| == 2 then (a - 0xC0) * 0x40 + (b - 0x80)
    else ((a - 0xE0) * 0x40 + (b - 0x80)) * 0x40 + (c - 0x80)
  }

  /** A well-formed encoding in UTF-8 of two or three bytes. */
  predicate IsEncoding(r: seq<Byte>) {
    if |r| == 2 then 0xC2 <= r[0] <= 0xDF && 0x80 <= r[1] <= 0xBF
    else |r| == 3 && 0xE0 <= r[0] <= 0xEF && 0x80 <= r[1] <= 0xBF && 0x80 <= r[2] <= 0xBF
         && (r[0] == 0xE0 ==> r[1] >= 0xA0) && (r[0] == 0xED ==> r[1] < 0xA0)
  }

  function Rune(r: seq<Byte>): char
    requires IsEncoding(r)
  {
    assert 0x80 <= CodePoint(r) < 0xD800 || 0xE000 <= CodePoint(r) < 0x1_0000;
    CodePoint(r) as char
  }

  /** The wide white space is that of Unicode. */
  lemma WideSpaceExactly(r: seq<Byte>)
    ensures IsWideSpace(r) <==> IsEncoding(r) && IsSpace(Rune(r))
  {
  }

  predicate AsciiSpaces(b: seq<Byte>) { forall x :: x in b ==> x in {0x09, 0x0A, 0x0B, 0x0C, 0x0D, 0x20} }

  lemma {:induction false} SpacesThenKey(spaces: seq<Byte>, rest: seq<Byte>)
    requires AsciiSpaces(spaces) && (rest == [] || Printable(rest[0]))
    ensures LeadingSpace(spaces + rest) == |spaces|
    decreases |spaces|
  {
    if spaces == [] {
      assert spaces + rest == rest;
    } else {
      assert spaces[0] in spaces;
      assert (spaces + rest)[1..] == spaces[1..] + rest;
      assert forall x :: x in spaces[1..] ==> x in spaces;
      SpacesThenKey(spaces[1..], rest);
    }
  }

  lemma PrintableEnds(b: seq<Byte>)
    requires b != [] && Printable(b[|b| - 1])
    ensures SpaceBefore(b) == 0
  {
  }

  lemma {:induction false} KeyThenSpaces(key: seq<Byte>, spaces: seq<Byte>)
    requires AsciiSpaces(spaces) && (key == [] || Printable(key[|key| - 1]))
    ensures TrimRight(key + spaces) == key
    decreases |spaces|
  {
    hide IsWideSpace;
    var all := key + spaces;
    if spaces == [] {
      assert all == key;
      if key != [] {
        PrintableEnds(key);
      }
    } else {
      var n := |spaces| - 1;
      assert spaces[n] in spaces && all[|all| - 1] == spaces[n];
      assert all[..|all| - 1] == key + spaces[..n];
      assert forall x :: x in spaces[..n] ==> x in spaces;
      KeyThenSpaces(key, spaces[..n]);
    }
  }

  /** A key with ASCII white space around it, a newline at its end for instance, is
      imported as it is when all of it fits the bounded read. */
  lemma KeyFileImported(before: seq<Byte>, key: seq<Byte>, after: seq<Byte>)
    requires AsciiSpaces(before) && AsciiSpaces(after) && |before + key + after| <= READ_LIMIT
    ensures AllPrintable(key) ==>
      Accept(before + key + after) == if MIN_KEY <= |key| <= MAX_KEY then Imported(key) else BadLength
  {
    if AllPrintable(key) {
      var data := before + key + after;
      assert Limited(data) == data;
      if key != [] {
        assert key[0] in key && key[|key| - 1] in key;
        assert data == before + (key + after);
        SpacesThenKey(before, key + after);
        assert data[|before|..] == key + after;
        KeyThenSpaces(key, after);
      } else {
        var spaces := before + after;
        assert data == spaces && data == spaces + [];
        SpacesThenKey(spaces, []);
        assert data[|spaces|..] == [];
      }
      hide LeadingSpace, TrimRight;
    }
  }

  /** The two bytes beyond the longest key are for its newline. */
  lemma LongestKeyFile(key: seq<Byte>)
    requires |key| == MAX_KEY && AllPrintable(key)
    ensures Accept(key + [0x0A]) == Imported(key) && Accept(key + [0x0D, 0x0A]) == Imported(key)
  {
    KeyFileImported([], key, [0x0A]);
    KeyFileImported([], key, [0x0D, 0x0A]);
    assert [] + key + [0x0A] == key + [0x0A] && [] + key + [0x0D, 0x0A] == key + [0x0D, 0x0A];
  }

  /** Two bytes of white space before a longer word: its first 512 bytes are accepted. */
  lemma CutShort()
    ensures var data: seq<Byte> := [0x20, 0x20] + seq(600, i => 0x61);
      Accept(data).Imported? && Accept(data).key != FirstWord(data) && LeadingSpace(data) == 2
  {
    hide SpaceAt, LeadingSpace, TrimRight, Word;
    var letters: seq<Byte>, spaces: seq<Byte> := seq(600, i => 0x61), [0x20, 0x20];
    var data, part := spaces + letters, letters[..512];
    LettersNotTrimmed(part);
    SpacesThenKey(spaces, letters);
    SpacesThenKey(spaces, part);
    assert Limited(data) == spaces + part && (spaces + part)[2..] == part;
    assert data[2..] == letters + [];
    WordOfPrintable(letters, []);
    assert Word([]) == [] by {
      NoWord();
    }
  }

  lemma NoWord()
    ensures Word([]) == []
  {
  }

  lemma LettersNotTrimmed(b: seq<Byte>)
    requires b != [] && forall x :: x in b ==> x == 0x61
    ensures LeadingSpace(b) == 0 && TrimRight(b) == b
  {
    assert b[0] in b && b[|b| - 1] in b;
    PrintableNoSpace(b);
    PrintableEnds(b);
    hide SpaceAt, SpaceBefore;
  }
}
