/** The session uplink-classifier table: entries grouped under their ident. */
module UlclTable {
  import opened Text
  import opened Sorting

  datatype Entry = Entry(ident: string, addr: string, qfi: nat)

  datatype Row = Row(tag: string, addr: string, qfi: string)

  function RowOf(tag: string, e: Entry): Row { Row(tag, e.addr, Dec(e.qfi)) }

  /** How many rows carry a tag. */
  function Labelled(data: seq<Row>, tag: string): nat {
    if data == [] then 0
    else Labelled(data[..|data| - 1], tag) + if data[|data| - 1].tag == tag then 1 else 0
  }

  function Copies(r: Row, n: nat): (rows: seq<Row>)
    ensures |rows| == n
  {
    seq(n, i => r)
  }

  /** An unlabelled row for each row of the table that has the ident, a
      labelled one when there is none. */
  function RowsFor(data: seq<Row>, e: Entry): seq<Row> {
    var n := Labelled(data, e.ident);
    if n == 0 then [RowOf(e.ident, e)] else Copies(RowOf("", e), n)
  }

  function Table(entries: seq<Entry>): seq<Row> {
    if entries == [] then []
    else
      var data := Table(entries[..|entries| - 1]);
      data + RowsFor(data, entries[|entries| - 1])
  }

  /** The row-grouping loop. The inner loop walks the rows there were when it
      started, whatever it appends meanwhile. */
  method GroupRows(entries: seq<Entry>) returns (data: seq<Row>)
    ensures data == Table(entries)
  {
    data := [];
    for i := 0 to |entries|
      invariant data == Table(entries[..i])
    {
      var e := entries[i];
      assert entries[..i + 1][..i] == entries[..i];
      if |data| == 0 {
        data := data + [RowOf(e.ident, e)];
      } else {
        var flag, ranged := true, data;
        for j := 0 to |ranged|
          invariant data == ranged + Copies(RowOf("", e), Labelled(ranged[..j], e.ident))
          invariant flag <==> Labelled(ranged[..j], e.ident) == 0
        {
          assert ranged[..j + 1][..j] == ranged[..j];
          if e.ident == ranged[j].tag {
            data := data + [RowOf("", e)];
            flag := false;
          }
        }
        assert ranged[..|ranged|] == ranged;
        if flag {
          data := data + [RowOf(e.ident, e)];
        }
      }
    }
    assert entries[..|entries|] == entries;
  }

  method PrintRows(entries: array<Entry>) returns (data: seq<Row>)
    modifies entries
    ensures multiset(entries[..]) == multiset(old(entries[..]))
    ensures Ordered(entries[..], (e: Entry) => e.ident)
    ensures data == Table(entries[..])
  {
    SortByKey(entries, (e: Entry) => e.ident);
    data := GroupRows(entries[..]);
  }

  predicate Seen(entries: seq<Entry>, i: nat)
    requires i < |entries|
  {
    exists j :: 0 <= j < i && entries[j].ident == entries[i].ident
  }

  predicate AllNamed(entries: seq<Entry>) { forall e :: e in entries ==> e.ident != "" }

  predicate Named(entries: seq<Entry>, ident: string) {
    exists e :: e in entries && e.ident == ident
  }

  lemma LabelledOne(data: seq<Row>, r: Row, tag: string)
    ensures Labelled(data + [r], tag) == Labelled(data, tag) + if r.tag == tag then 1 else 0
  {
    assert (data + [r])[..|data|] == data;
  }

  lemma TableSnoc(entries: seq<Entry>)
    requires entries != []
    ensures var was, last := Table(entries[..|entries| - 1]), entries[|entries| - 1];
      Table(entries) == was + RowsFor(was, last)
  {
  }

  lemma CopiesOne(r: Row)
    ensures Copies(r, 1) == [r]
  {
  }

  /** An ident labels one row once it has come, and none before. */
  lemma {:induction false} LabelledOnce(entries: seq<Entry>, tag: string)
    requires AllNamed(entries) && tag != ""
    ensures Labelled(Table(entries), tag) == if Named(entries, tag) then 1 else 0
  {
    if entries != [] {
      var rest, last := entries[..|entries| - 1], entries[|entries| - 1];
      assert entries == rest + [last];
      assert last in entries && forall e :: e in rest ==> e in entries;
      LabelledOnce(rest, tag);
      LabelledOnce(rest, last.ident);
      TableSnoc(entries);
      CopiesOne(RowOf("", last));
      hide Table, Labelled;
      LabelledOne(Table(rest), RowOf(last.ident, last), tag);
      LabelledOne(Table(rest), RowOf("", last), tag);
    }
  }

  /** The row an entry should have: labelled when its ident comes for the first time. */
  function RowAt(entries: seq<Entry>, i: nat): Row
    requires i < |entries|
  {
    Row(if Seen(entries, i) then "" else entries[i].ident, entries[i].addr, Dec(entries[i].qfi))
  }

  lemma RowAtPrefix(entries: seq<Entry>, n: nat, i: nat)
    requires i < n <= |entries|
    ensures RowAt(entries[..n], i) == RowAt(entries, i)
  {
    var front := entries[..n];
    if Seen(entries, i) {
      var j :| 0 <= j < i && entries[j].ident == entries[i].ident;
      assert front[j].ident == front[i].ident;
    }
    if Seen(front, i) {
      var j :| 0 <= j < i && front[j].ident == front[i].ident;
      assert entries[j].ident == entries[i].ident;
    }
  }

  lemma LastRow(entries: seq<Entry>)
    requires AllNamed(entries) && entries != []
    ensures Table(entries) == Table(entries[..|entries| - 1]) + [RowAt(entries, |entries| - 1)]
  {
    var rest, last := entries[..|entries| - 1], entries[|entries| - 1];
    assert last in entries && forall e :: e in rest ==> e in entries;
    LabelledOnce(rest, last.ident);
    SeenMeans(entries);
    TableSnoc(entries);
    CopiesOne(RowOf("", last));
  }

  /** For any list of non-empty idents: one row for each entry, in order, and
      each ident labels only the row of its first entry. */
  lemma {:induction false} OneRowEach(entries: seq<Entry>)
    requires AllNamed(entries)
    ensures |Table(entries)| == |entries|
    ensures forall i :: 0 <= i < |entries| ==> Table(entries)[i] == RowAt(entries, i)
  {
    if entries != [] {
      var n := |entries| - 1;
      var rest := entries[..n];
      assert AllNamed(rest) by {
        assert forall e :: e in rest ==> e in entries;
      }
      OneRowEach(rest);
      LastRow(entries);
      hide Table, RowAt, AllNamed;
      forall i | 0 <= i < n ensures Table(entries)[i] == RowAt(entries, i) {
        RowAtPrefix(entries, n, i);
        assert Table(rest)[i] == RowAt(rest, i);
      }
    }
  }

  lemma SeenMeans(entries: seq<Entry>)
    requires entries != []
    ensures var n := |entries| - 1;
      Seen(entries, n) <==> exists e :: e in entries[..n] && e.ident == entries[n].ident
  {
    var n := |entries| - 1;
    if Seen(entries, n) {
      var j :| 0 <= j < n && entries[j].ident == entries[n].ident;
      assert entries[..n][j] == entries[j];
    }
    if exists e :: e in entries[..n] && e.ident == entries[n].ident {
      var e :| e in entries[..n] && e.ident == entries[n].ident;
      var j :| 0 <= j < n && entries[..n][j] == e;
    }
  }

  // ----- entries without an ident -----

  function Nameless(entries: seq<Entry>): nat {
    if entries == [] then 0
    else Nameless(entries[..|entries| - 1]) + if entries[|entries| - 1].ident == "" then 1 else 0
  }

  function Pow2(n: nat): nat { if n == 0 then 1 else 2 * Pow2(n - 1) }

  /** How many rows a sorted list gives: each entry without an ident doubles
      the unlabelled rows before it. */
  function RowCount(nameless: nat, named: nat): nat {
    (if nameless == 0 then 0 else Pow2(nameless - 1)) + named
  }

  predicate NamelessFirst(entries: seq<Entry>) {
    forall i, j :: 0 <= i < j < |entries| && entries[j].ident == "" ==> entries[i].ident == ""
  }

  lemma SortedNamelessFirst(entries: seq<Entry>)
    requires Ordered(entries, (e: Entry) => e.ident)
    ensures NamelessFirst(entries)
  {
    var key := (e: Entry) => e.ident;
    forall i, j | 0 <= i < j < |entries| && entries[j].ident == "" ensures entries[i].ident == "" {
      assert LessEq(key(entries[i]), key(entries[j]));
    }
  }

  lemma {:induction false} LabelledCopies(data: seq<Row>, r: Row, n: nat, tag: string)
    ensures Labelled(data + Copies(r, n), tag) == Labelled(data, tag) + if r.tag == tag then n else 0
  {
    if n == 0 {
      assert data + Copies(r, n) == data;
    } else {
      LabelledCopies(data, r, n - 1, tag);
      LabelledOne(data + Copies(r, n - 1), r, tag);
      assert data + Copies(r, n) == data + Copies(r, n - 1) + [r];
    }
  }

  /** No list labels two rows with one ident. */
  lemma {:induction false} LabelledAtMostOnce(entries: seq<Entry>, tag: string)
    requires tag != ""
    ensures Labelled(Table(entries), tag) <= 1
  {
    if entries != [] {
      var rest, last := entries[..|entries| - 1], entries[|entries| - 1];
      var was := Table(rest);
      LabelledAtMostOnce(rest, tag);
      TableSnoc(entries);
      hide Table, Labelled;
      LabelledOne(was, RowOf(last.ident, last), tag);
      LabelledCopies(was, RowOf("", last), Labelled(was, last.ident), tag);
    }
  }

  lemma {:induction false} NamelessRows(entries: seq<Entry>)
    requires forall i :: 0 <= i < |entries| ==> entries[i].ident == ""
    ensures Nameless(entries) == |entries|
    ensures |Table(entries)| == Labelled(Table(entries), "") == RowCount(|entries|, 0)
  {
    if entries != [] {
      var rest, last := entries[..|entries| - 1], entries[|entries| - 1];
      var was := Table(rest);
      NamelessRows(rest);
      TableSnoc(entries);
      LabelledOne(was, RowOf("", last), "");
      LabelledCopies(was, RowOf("", last), Labelled(was, ""), "");
      Pow2Grows(|rest|);
    }
  }

  lemma {:induction false} RowsCounted(entries: seq<Entry>)
    requires NamelessFirst(entries)
    ensures Nameless(entries) <= |entries|
    ensures |Table(entries)| == RowCount(Nameless(entries), |entries| - Nameless(entries))
  {
    if entries != [] {
      var n := |entries| - 1;
      var rest, last := entries[..n], entries[n];
      if last.ident == "" {
        NamelessRows(entries);
      } else {
        assert NamelessFirst(rest);
        hide NamelessFirst;
        RowsCounted(rest);
        LabelledAtMostOnce(rest, last.ident);
        TableSnoc(entries);
        hide Table, Labelled;
        assert |RowsFor(Table(rest), last)| == 1;
        assert Nameless(entries) == Nameless(rest);
      }
    }
  }

  lemma {:induction false} Pow2Grows(n: nat)
    ensures Pow2(n) >= n + 1
  {
    if n > 0 {
      Pow2Grows(n - 1);
    }
  }

  /** The printed table has one row for each entry exactly when at most two
      entries have no ident. */
  lemma OneRowEachExactly(entries: seq<Entry>)
    requires Ordered(entries, (e: Entry) => e.ident)
    ensures |Table(entries)| == |entries| <==> Nameless(entries) <= 2
  {
    SortedNamelessFirst(entries);
    RowsCounted(entries);
    var e := Nameless(entries);
    if e >= 3 {
      Pow2Grows(e - 3);
      assert Pow2(e - 1) == 4 * Pow2(e - 3);
    }
  }
}
