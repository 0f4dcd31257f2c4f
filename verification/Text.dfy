/** The text functions of the Go standard library the commands are built on:
    splitting and joining on one character, decimal numbers, the order of
    strings and the line scanner. */
module Text {
  datatype Option<+T> = None | Some(value: T)

  datatype Result<+T, +E> = Ok(value: T) | Err(error: E)

  type Byte = b: int | 0 <= b < 256

  /** uint16. */
  type Port = n: nat | n < 0x1_0000

  lemma ConcatAssociative<T>(a: seq<T>, b: seq<T>, c: seq<T>)
    ensures a + b + c == a + (b + c)
  {
  }

  /** len of a string: its length in UTF-8. */
  function ByteLen(s: string): nat {
    if s == "" then 0
    else
      var c := s[0] as int;
      (if c < 0x80 then 1 else if c < 0x800 then 2 else if c < 0x1_0000 then 3 else 4) + ByteLen(s[1..])
  }

  lemma {:induction false} AsciiByteLen(s: string)
    requires forall c :: c in s ==> c < '\U{80}'
    ensures ByteLen(s) == |s|
  {
    if s != "" {
      assert s[0] in s && forall c :: c in s[1..] ==> c in s;
      AsciiByteLen(s[1..]);
    }
  }

  // ----- splitting and joining on one character -----

  /** The position of the first c in s, or |s|. */
  function Index(s: string, c: char): (i: nat)
    ensures i <= |s|
    ensures c !in s[..i]
    ensures i < |s| ==> s[i] == c
  {
    if s == [] || s[0] == c then 0 else 1 + Index(s[1..], c)
  }

  /** The position of the last c in s, or -1. */
  function LastIndex(s: string, c: char): (i: int)
    ensures -1 <= i < |s|
    ensures 0 <= i ==> s[i] == c
    ensures c !in s[i + 1..]
  {
    if s == [] then -1
    else if s[|s| - 1] == c then |s| - 1
    else LastIndex(s[..|s| - 1], c)
  }

  function Split(s: string, c: char): (parts: seq<string>)
    ensures |parts| >= 1
    ensures forall p :: p in parts ==> c !in p
    decreases |s|
  {
    var i := Index(s, c);
    if i == |s| then [s] else [s[..i]] + Split(s[i + 1..], c)
  }

  function Join(parts: seq<string>, c: char): string {
    if |parts| == 0 then ""
    else if |parts| == 1 then parts[0]
    else parts[0] + [c] + Join(parts[1..], c)
  }

  lemma {:induction false} IndexAt(a: string, c: char, rest: string)
    requires c !in a
    ensures Index(a + [c] + rest, c) == |a|
  {
    if a != [] {
      IndexAt(a[1..], c, rest);
      assert (a + [c] + rest)[1..] == a[1..] + [c] + rest;
    }
  }

  lemma {:induction false} IndexOfMember(s: string, c: char)
    requires c in s
    ensures Index(s, c) < |s|
  {
    if s[0] != c {
      IndexOfMember(s[1..], c);
    }
  }

  lemma {:induction false} LastAt(a: string, c: char, b: string)
    requires c !in b
    ensures LastIndex(a + [c] + b, c) == |a|
    ensures (a + [c] + b)[..|a|] == a
    ensures (a + [c] + b)[|a| + 1..] == b
  {
    var s := a + [c] + b;
    if b != [] {
      LastAt(a, c, b[..|b| - 1]);
      assert s[..|s| - 1] == a + [c] + b[..|b| - 1];
    }
  }

  lemma SplitCons(a: string, c: char, rest: string)
    requires c !in a
    ensures Split(a + [c] + rest, c) == [a] + Split(rest, c)
  {
    IndexAt(a, c, rest);
    var s := a + [c] + rest;
    assert s[..|a|] == a && s[|a| + 1..] == rest;
  }

  lemma SplitOne(a: string, c: char)
    requires c !in a
    ensures Split(a, c) == [a]
  {
    assert Index(a, c) == |a|;
  }

  /** Splitting undoes joining when no part holds the separator. */
  lemma {:induction false} SplitJoin(parts: seq<string>, c: char)
    requires |parts| >= 1
    requires forall p :: p in parts ==> c !in p
    ensures Split(Join(parts, c), c) == parts
  {
    hide Split;
    assert parts[0] in parts;
    if |parts| == 1 {
      SplitOne(parts[0], c);
    } else {
      assert forall p :: p in parts[1..] ==> p in parts;
      SplitCons(parts[0], c, Join(parts[1..], c));
      SplitJoin(parts[1..], c);
    }
  }

  /** Joining undoes splitting, for every text. */
  lemma {:induction false} JoinSplit(s: string, c: char)
    ensures Join(Split(s, c), c) == s
    decreases |s|
  {
    hide Split, Index;
    var i := Index(s, c);
    if i == |s| {
      assert s[..i] == s;
      SplitOne(s, c);
    } else {
      var head, rest := s[..i], s[i + 1..];
      assert s == head + [c] + rest;
      JoinSplit(rest, c);
      SplitCons(head, c, rest);
      var parts := Split(s, c);
      assert parts[0] == head && parts[1..] == Split(rest, c);
    }
  }

  /** Splitting around one separator. */
  lemma {:induction false} SplitConcat(a: string, c: char, b: string)
    ensures Split(a + [c] + b, c) == Split(a, c) + Split(b, c)
    decreases |a|
  {
    hide Split, Index;
    var i := Index(a, c);
    if i == |a| {
      assert c !in a by {
        assert a[..i] == a;
      }
      SplitOne(a, c);
      SplitCons(a, c, b);
    } else {
      var head, rest := a[..i], a[i + 1..];
      assert a == head + [c] + rest;
      assert a + [c] + b == head + [c] + (rest + [c] + b);
      SplitCons(head, c, rest + [c] + b);
      SplitCons(head, c, rest);
      SplitConcat(rest, c, b);
      assert [head] + (Split(rest, c) + Split(b, c)) == ([head] + Split(rest, c)) + Split(b, c);
    }
  }

  // ----- decimal numbers -----

  predicate IsDigit(c: char) { '0' <= c <= '9' }

  predicate IsDigits(s: string) { forall c :: c in s ==> IsDigit(c) }

  function Digit(d: nat): (c: char)
    requires d < 10
    ensures IsDigit(c)
  {
    '0' + d as char
  }

  /** The number a digit string names; leading zeros are allowed. */
  function Val(s: string): nat
    requires IsDigits(s)
  {
    if s == [] then 0
    else
      assert IsDigit(s[|s| - 1]);
      Val(s[..|s| - 1]) * 10 + (s[|s| - 1] as int - '0' as int)
  }

  /** Canonical decimal text: digits, and no leading zero except "0" itself. */
  predicate Canonical(s: string) {
    |s| >= 1 && IsDigits(s) && (|s| > 1 ==> s[0] != '0')
  }

  /** strconv.Itoa on a number that is not negative. */
  function Dec(n: nat): (s: string)
    ensures Canonical(s)
    ensures Val(s) == n
    ensures n > 0 ==> s[0] != '0'
  {
    if n < 10 then [Digit(n)]
    else
      var s := Dec(n / 10);
      assert (s + [Digit(n % 10)])[..|s|] == s;
      s + [Digit(n % 10)]
  }

  /** strconv.Itoa. */
  function Itoa(n: int): string {
    if n < 0 then "-" + Dec(-n) else Dec(n)
  }

  lemma {:induction false} LeadingDigit(s: string)
    requires Canonical(s) && |s| > 1
    ensures Val(s) >= 10
  {
    var init := s[..|s| - 1];
    assert IsDigit(s[|s| - 1]);
    if |init| > 1 {
      LeadingDigit(init);
    } else {
      assert IsDigit(init[0]) && init[0] != '0';
      assert init[..0] == [];
      assert Val(init) == init[0] as int - '0' as int;
    }
  }

  lemma DecStep(m: nat, d: nat)
    requires m >= 1 && d < 10
    ensures Dec(m * 10 + d) == Dec(m) + [Digit(d)]
  {
    var n := m * 10 + d;
    assert n / 10 == m && n % 10 == d;
  }

  lemma OneDigit(s: string)
    requires IsDigits(s) && |s| == 1
    ensures Dec(Val(s)) == s
  {
    assert s[..0] == [] && IsDigit(s[0]);
    assert Val(s) == s[0] as int - '0' as int;
  }

  /** Only one canonical text names a given number. */
  lemma {:induction false} DecOfVal(s: string)
    requires Canonical(s)
    ensures Dec(Val(s)) == s
  {
    var init, last := s[..|s| - 1], s[|s| - 1];
    assert IsDigit(last);
    assert s == init + [last];
    if |s| == 1 {
      OneDigit(s);
    } else {
      hide Dec;
      LeadingDigit(s);
      DecOfVal(init);
      DecStep(Val(init), last as int - '0' as int);
    }
  }

  function Pow10(w: nat): nat { if w == 0 then 1 else 10 * Pow10(w - 1) }

  lemma {:induction false} DecLength(n: nat, w: nat)
    requires w >= 1 && n < Pow10(w)
    ensures |Dec(n)| <= w
  {
    if n >= 10 {
      assert w > 1;
      DecLength(n / 10, w - 1);
    }
  }

  const MAX_INT64: int := 0x7FFF_FFFF_FFFF_FFFF

  /** strconv.Atoi and strconv.ParseInt(s, 10, 64): an optional sign, digits,
      and a value a signed 64-bit integer holds. */
  function Atoi(s: string): (r: Option<int>) {
    var signed := |s| > 0 && (s[0] == '-' || s[0] == '+');
    var body := if signed then s[1..] else s;
    if body == [] || !IsDigits(body) then None
    else
      var v: int := if signed && s[0] == '-' then -(Val(body) as int) else Val(body) as int;
      if -MAX_INT64 - 1 <= v <= MAX_INT64 then Some(v) else None
  }

  /** What Itoa prints of a 64-bit number, Atoi reads. */
  lemma AtoiItoa(n: int)
    requires -MAX_INT64 - 1 <= n <= MAX_INT64
    ensures Atoi(Itoa(n)) == Some(n)
  {
    if n < 0 {
      assert ("-" + Dec(-n))[1..] == Dec(-n);
    } else {
      AtoiDec(n);
    }
  }

  /** Digits are read as the number they name, when it fits. */
  lemma AtoiDigits(s: string)
    requires s != "" && IsDigits(s)
    ensures Atoi(s) == if Val(s) <= MAX_INT64 then Some(Val(s)) else None
  {
    assert IsDigit(s[0]);
  }

  lemma AtoiNotNegative(s: string)
    requires '-' !in s && Atoi(s).Some?
    ensures Atoi(s).value >= 0
  {
    if |s| > 0 {
      assert s[0] in s;
    }
  }

  lemma AtoiDec(n: nat)
    requires n <= MAX_INT64
    ensures Atoi(Dec(n)) == Some(n)
  {
    var s := Dec(n);
    assert s[0] in s;
  }

  /** strconv.ParseUint(s, 10, 32). */
  function ParseUint32(s: string): Option<nat> {
    if s == [] || !IsDigits(s) || Val(s) >= 0x1_0000_0000 then None else Some(Val(s))
  }

  // ----- Go's truncating integer conversions -----

  function ToUint8(n: int): nat { n % 0x100 }

  function ToUint16(n: int): nat { n % 0x1_0000 }

  /** int32(n): the low 32 bits, read in two's complement. */
  function ToInt32(n: int): int {
    var low := n % 0x1_0000_0000;
    if low < 0x8000_0000 then low else low - 0x1_0000_0000
  }

  /** w is the 32-bit two's complement number with the low bits of n. */
  predicate IsInt32Of(w: int, n: int) { -0x8000_0000 <= w < 0x8000_0000 && (n - w) % 0x1_0000_0000 == 0 }

  lemma Int32Of(n: int)
    ensures IsInt32Of(ToInt32(n), n)
  {
    var m := 0x1_0000_0000;
    var low := n % m;
    assert n - low == n / m * m;
    assert n - (low - m) == (n / m + 1) * m;
  }

  /** Numbers that fit a width are kept. */
  lemma WidthsKeep(n: int)
    ensures 0 <= n < 0x100 ==> ToUint8(n) == n
    ensures 0 <= n < 0x1_0000 ==> ToUint16(n) == n
    ensures -0x8000_0000 <= n < 0x8000_0000 ==> ToInt32(n) == n
    ensures 0 <= ToUint8(n) < 0x100 && (n - ToUint8(n)) % 0x100 == 0
    ensures 0 <= ToUint16(n) < 0x1_0000 && (n - ToUint16(n)) % 0x1_0000 == 0
  {
    assert n - n % 0x100 == n / 0x100 * 0x100;
    assert n - n % 0x1_0000 == n / 0x1_0000 * 0x1_0000;
  }

  // ----- the order of strings -----

  /** Go's a < b on strings. */
  predicate Less(a: string, b: string) {
    b != [] && (a == [] || a[0] < b[0] || (a[0] == b[0] && Less(a[1..], b[1..])))
  }

  predicate LessEq(a: string, b: string) { !Less(b, a) }

  lemma {:induction false} LessTotal(a: string, b: string)
    ensures Less(a, b) || a == b || Less(b, a)
    ensures !(Less(a, b) && Less(b, a))
    ensures !Less(a, a)
  {
    if a != [] {
      LessTotal(a[1..], a[1..]);
      if b != [] {
        LessTotal(a[1..], b[1..]);
        assert a == [a[0]] + a[1..] && b == [b[0]] + b[1..];
      }
    }
  }

  lemma {:induction false} LessTransitive(a: string, b: string, c: string)
    requires LessEq(a, b) && LessEq(b, c)
    ensures LessEq(a, c)
  {
    if a != [] && b != [] && c != [] {
      if a[0] == b[0] == c[0] {
        LessTransitive(a[1..], b[1..], c[1..]);
      }
    }
  }

  /** Texts of one length in front decide; behind an equal front, the rest does. */
  lemma {:induction false} LessConcat(x: string, y: string, s: string, t: string)
    requires |x| == |y|
    ensures Less(x + s, y + t) <==> Less(x, y) || (x == y && Less(s, t))
  {
    if x == [] {
      assert x + s == s && y + t == t;
    } else {
      assert (x + s)[1..] == x[1..] + s && (y + t)[1..] == y[1..] + t;
      assert x == [x[0]] + x[1..] && y == [y[0]] + y[1..];
      LessConcat(x[1..], y[1..], s, t);
    }
  }

  /** Digit strings of one length are ordered as the numbers they name. */
  lemma {:induction false} LessDigits(x: string, y: string)
    requires IsDigits(x) && IsDigits(y) && |x| == |y|
    ensures Less(x, y) <==> Val(x) < Val(y)
    ensures x == y <==> Val(x) == Val(y)
  {
    if x != [] {
      var n := |x| - 1;
      assert IsDigit(x[n]) && IsDigit(y[n]);
      assert x == x[..n] + [x[n]] && y == y[..n] + [y[n]];
      LessConcat(x[..n], y[..n], [x[n]], [y[n]]);
      LessDigits(x[..n], y[..n]);
    }
  }

  // ----- numbers without padding as texts -----

  /** A number without its last d digits. */
  function Cut(q: nat, d: nat): nat { if d == 0 then q else Cut(q / 10, d - 1) }

  lemma {:induction false} DecCut(q: nat, d: nat) returns (tail: string)
    requires d < |Dec(q)|
    ensures Dec(q) == Dec(Cut(q, d)) + tail && |tail| == d
  {
    tail := "";
    if d == 0 {
      assert Dec(q) == Dec(q) + "";
    } else {
      var more := DecCut(q / 10, d - 1);
      tail := more + [Digit(q % 10)];
      ConcatAssociative(Dec(Cut(q, d)), more, [Digit(q % 10)]);
    }
  }

  lemma ShorterFirst(p: nat, q: nat)
    requires |Dec(p)| < |Dec(q)|
    ensures Less(Dec(p), Dec(q)) <==> p <= Cut(q, |Dec(q)| - |Dec(p)|)
  {
    var d := |Dec(q)| - |Dec(p)|;
    var tail := DecCut(q, d);
    hide Dec, Cut;
    assert Dec(p) + "" == Dec(p);
    LessConcat(Dec(p), Dec(Cut(q, d)), "", tail);
    LessDigits(Dec(p), Dec(Cut(q, d)));
  }

  /** The longer number is cut to the digits of the shorter one, and comes after
      it when these are equal. */
  lemma DecOrder(p: nat, q: nat)
    ensures Less(Dec(p), Dec(q)) <==>
      if |Dec(p)| == |Dec(q)| then p < q
      else if |Dec(p)| < |Dec(q)| then p <= Cut(q, |Dec(q)| - |Dec(p)|)
      else Cut(p, |Dec(p)| - |Dec(q)|) < q
  {
    if |Dec(p)| == |Dec(q)| {
      LessDigits(Dec(p), Dec(q));
    } else if |Dec(p)| < |Dec(q)| {
      ShorterFirst(p, q);
    } else {
      ShorterFirst(q, p);
      LessTotal(Dec(p), Dec(q));
    }
  }

  /** A number with more digits is larger. */
  lemma {:induction false} MoreDigits(p: nat, q: nat)
    requires p <= q
    ensures |Dec(p)| <= |Dec(q)|
  {
    if p >= 10 {
      MoreDigits(p / 10, q / 10);
    }
  }

  // ----- fmt's %05d -----

  function Zeros(k: nat): (z: string)
    ensures |z| == k && forall c :: c in z ==> c == '0'
  {
    seq(k, i => '0')
  }

  function Pad5(n: nat): (s: string)
    ensures IsDigits(s)
  {
    var d := Dec(n);
    if |d| >= 5 then d else Zeros(5 - |d|) + d
  }

  lemma {:induction false} ValOfZeros(k: nat, s: string)
    requires IsDigits(s)
    ensures IsDigits(Zeros(k) + s) && Val(Zeros(k) + s) == Val(s)
    decreases k + |s|
  {
    var z := Zeros(k) + s;
    if s != [] {
      ValOfZeros(k, s[..|s| - 1]);
      assert z[..|z| - 1] == Zeros(k) + s[..|s| - 1];
    } else if k > 0 {
      ValOfZeros(k - 1, []);
      assert z[..|z| - 1] == Zeros(k - 1) + [];
    }
  }

  lemma Pad5OfUint16(n: nat)
    requires n < 0x1_0000
    ensures |Pad5(n)| == 5 && Val(Pad5(n)) == n
  {
    assert Pow10(5) == 100000;
    DecLength(n, 5);
    ValOfZeros(5 - |Dec(n)|, Dec(n));
  }

  /** Zero padding makes the order of strings the order of 16-bit numbers,
      whatever follows them. */
  lemma LessPad5(m: nat, n: nat, s: string, t: string)
    requires m < 0x1_0000 && n < 0x1_0000
    ensures Less(Pad5(m) + s, Pad5(n) + t) <==> m < n || (m == n && Less(s, t))
  {
    Pad5OfUint16(m);
    Pad5OfUint16(n);
    LessConcat(Pad5(m), Pad5(n), s, t);
    LessDigits(Pad5(m), Pad5(n));
  }

  // ----- white space -----

  /** unicode.IsSpace. */
  predicate IsSpace(c: char) {
    '\U{9}' <= c <= '\U{D}' || c == ' ' || c == '\U{85}' || c == '\U{A0}' || c == '\U{1680}' ||
    '\U{2000}' <= c <= '\U{200A}' || c == '\U{2028}' || c == '\U{2029}' || c == '\U{202F}' ||
    c == '\U{205F}' || c == '\U{3000}'
  }

  /** strings.TrimSpace. */
  function TrimSpace(s: string): (t: string)
    ensures Trimmed(t)
    ensures Trimmed(s) ==> t == s
    ensures forall c :: c in t ==> c in s
    decreases |s|
  {
    if s == [] then s
    else if IsSpace(s[0]) then TrimSpace(s[1..])
    else if IsSpace(s[|s| - 1]) then TrimSpace(s[..|s| - 1])
    else s
  }

  predicate AllSpace(s: string) { forall c :: c in s ==> IsSpace(c) }

  /** What is trimmed is the white space at both ends, and all of it. */
  lemma {:induction false} TrimSpaceCuts(s: string) returns (a: string, b: string)
    ensures s == a + TrimSpace(s) + b && AllSpace(a) && AllSpace(b)
    decreases |s|
  {
    hide IsSpace;
    a, b := "", "";
    if s != [] && IsSpace(s[0]) {
      var a1, b1 := TrimSpaceCuts(s[1..]);
      assert s == [s[0]] + s[1..];
      a, b := [s[0]] + a1, b1;
    } else if s != [] && IsSpace(s[|s| - 1]) {
      var init, last := s[..|s| - 1], [s[|s| - 1]];
      var a1, b1 := TrimSpaceCuts(init);
      assert s == init + last;
      a, b := a1, b1 + last;
    } else {
      assert s == "" + TrimSpace(s) + "";
    }
  }

  predicate Trimmed(s: string) {
    s != [] ==> !IsSpace(s[0]) && !IsSpace(s[|s| - 1])
  }

  // ----- bufio.Scanner -----

  /** The scanner's buffer: a line this long ends the scan with an error. */
  const MAX_TOKEN: nat := 65536

  function DropCR(line: string): string {
    if line != [] && line[|line| - 1] == '\r' then line[..|line| - 1] else line
  }

  /** The lines a bufio.Scanner delivers before it stops. */
  function ScanLines(s: string): seq<string>
    decreases |s|
  {
    if s == [] then []
    else
      var i := Index(s, '\n');
      if i >= MAX_TOKEN then []
      else if i == |s| then [DropCR(s)]
      else [DropCR(s[..i])] + ScanLines(s[i + 1..])
  }

  /** A line the scanner gives back as it was written. */
  predicate GoodLine(line: string) {
    |line| < MAX_TOKEN && '\n' !in line && DropCR(line) == line
  }

  /** A text made of terminated good lines. */
  predicate Clean(s: string)
    decreases |s|
  {
    s == [] || (var i := Index(s, '\n'); i < |s| && GoodLine(s[..i]) && Clean(s[i + 1..]))
  }

  lemma ScanCons(head: string, rest: string)
    requires GoodLine(head)
    ensures ScanLines(head + "\n" + rest) == [head] + ScanLines(rest)
    ensures Clean(head + "\n" + rest) <==> Clean(rest)
  {
    var all := head + "\n" + rest;
    IndexAt(head, '\n', rest);
    assert all == head + ['\n'] + rest;
    assert all[..|head|] == head && all[|head| + 1..] == rest;
  }

  lemma CleanParts(s: string) returns (head: string, rest: string)
    requires Clean(s) && s != []
    ensures s == head + "\n" + rest && GoodLine(head) && Clean(rest) && |rest| < |s|
  {
    var i := Index(s, '\n');
    head, rest := s[..i], s[i + 1..];
  }

  /** A line written behind a clean text is the one more line a scan finds. */
  lemma {:induction false} ScanAppend(s: string, line: string)
    requires Clean(s) && GoodLine(line)
    ensures Clean(s + line + "\n")
    ensures ScanLines(s + line + "\n") == ScanLines(s) + [line]
    decreases |s|
  {
    if s == [] {
      ScanCons(line, []);
      assert s + line + "\n" == line + "\n" + [];
    } else {
      var head, rest := CleanParts(s);
      ScanAppend(rest, line);
      ScanAppendStep(head, rest, line, ScanLines(rest));
    }
  }

  lemma ScanAppendStep(head: string, rest: string, line: string, lines: seq<string>)
    requires GoodLine(head) && Clean(rest + line + "\n")
    requires ScanLines(rest) == lines && ScanLines(rest + line + "\n") == lines + [line]
    ensures Clean(head + "\n" + rest + line + "\n")
    ensures ScanLines(head + "\n" + rest + line + "\n") == ScanLines(head + "\n" + rest) + [line]
  {
    ConcatAssociative(head + "\n", rest, line);
    ConcatAssociative(head + "\n", rest + line, "\n");
    ScanCons(head, rest);
    ScanCons(head, rest + line + "\n");
    ConcatAssociative([head], lines, [line]);
  }
}
