/** What an accepted chain file guarantees: named columns and one quote per contract and date. */
module ChainImport {
  import opened Common
  import opened Civil
  import opened OptStore

  type Record = map<string, string>

  datatype Line = Line(number: nat, record: Record)

  // ------------------------------------------------------------ columns
  /** `{names[i]: parts[i] ...}`: a repeated name keeps its last cell, a short line lacks its tail. */
  function RecordOf(names: seq<string>, parts: seq<string>): Record {
    if names == [] || parts == [] then map[]
    else
      var n := Min(|names|, |parts|);
      RecordOf(names[..n - 1], parts[..n - 1])[names[n - 1] := parts[n - 1]]
  }

  /** The cell at the last place of a name. */
  ghost predicate LastCell(names: seq<string>, parts: seq<string>, name: string, part: string) {
    exists i :: IsLastCell(names, parts, name, part, i)
  }

  ghost predicate IsLastCell(names: seq<string>, parts: seq<string>, name: string, part: string, i: int) {
    var n := Min(|names|, |parts|);
    0 <= i < n && names[i] == name && parts[i] == part && forall j :: i < j < n ==> names[j] != name
  }

  lemma {:induction false} RecordCells(names: seq<string>, parts: seq<string>, name: string, part: string)
    ensures var r := RecordOf(names, parts); (name in r && r[name] == part) <==> LastCell(names, parts, name, part)
    decreases |names| + |parts|
  {
    if names != [] && parts != [] {
      var n := Min(|names|, |parts|);
      var fn, fp := names[..n - 1], parts[..n - 1];
      RecordCells(fn, fp, name, part);
      assert forall i :: 0 <= i < n - 1 ==> fn[i] == names[i] && fp[i] == parts[i];
      if names[n - 1] == name {
        LastPlace(names, parts, name, part);
      } else {
        if i :| IsLastCell(fn, fp, name, part, i) {
          assert IsLastCell(names, parts, name, part, i);
        }
        if i :| IsLastCell(names, parts, name, part, i) {
          assert IsLastCell(fn, fp, name, part, i);
        }
      }
    }
  }

  lemma LastPlace(names: seq<string>, parts: seq<string>, name: string, part: string)
    requires names != [] && parts != [] && names[Min(|names|, |parts|) - 1] == name
    ensures LastCell(names, parts, name, part) <==> parts[Min(|names|, |parts|) - 1] == part
  {
    var n := Min(|names|, |parts|);
    assert parts[n - 1] == part ==> IsLastCell(names, parts, name, part, n - 1);
  }

  /** Two orders of columns give the same record exactly when each name has the same last cell. */
  lemma ColumnOrderIsFree(names: seq<string>, parts: seq<string>, names': seq<string>, parts': seq<string>)
    ensures RecordOf(names, parts) == RecordOf(names', parts') <==>
      forall name, part :: LastCell(names, parts, name, part) <==> LastCell(names', parts', name, part)
  {
    hide LastCell, RecordOf;
    var a, b := RecordOf(names, parts), RecordOf(names', parts');
    if a == b {
      forall name, part ensures LastCell(names, parts, name, part) <==> LastCell(names', parts', name, part) {
        RecordCells(names, parts, name, part);
        RecordCells(names', parts', name, part);
      }
    } else if forall name, part :: LastCell(names, parts, name, part) <==> LastCell(names', parts', name, part) {
      SameCellsSameRecord(names, parts, names', parts');
    }
  }

  lemma SameCellsSameRecord(names: seq<string>, parts: seq<string>, names': seq<string>, parts': seq<string>)
    requires forall name, part :: LastCell(names, parts, name, part) <==> LastCell(names', parts', name, part)
    ensures RecordOf(names, parts) == RecordOf(names', parts')
  {
    hide LastCell, RecordOf;
    var a, b := RecordOf(names, parts), RecordOf(names', parts');
    forall k | k in a ensures k in b && b[k] == a[k] {
      RecordCells(names, parts, k, a[k]);
      RecordCells(names', parts', k, a[k]);
    }
    forall k | k in b ensures k in a {
      RecordCells(names, parts, k, b[k]);
      RecordCells(names', parts', k, b[k]);
    }
  }

  /** With distinct names every cell is the last of its name, so any order will do. */
  lemma DistinctNamesAnyOrder(names: seq<string>, parts: seq<string>, names': seq<string>, parts': seq<string>)
    requires Distinct(names) && Distinct(names')
    requires forall name, part :: Cell(names, parts, name, part) <==> Cell(names', parts', name, part)
    ensures RecordOf(names, parts) == RecordOf(names', parts')
  {
    hide LastCell, RecordOf, Distinct, Cell;
    ColumnOrderIsFree(names, parts, names', parts');
    forall name, part ensures LastCell(names, parts, name, part) <==> LastCell(names', parts', name, part) {
      OnlyCell(names, parts, name, part);
      OnlyCell(names', parts', name, part);
    }
  }

  ghost predicate Cell(names: seq<string>, parts: seq<string>, name: string, part: string) {
    exists i :: 0 <= i < Min(|names|, |parts|) && names[i] == name && parts[i] == part
  }

  lemma OnlyCell(names: seq<string>, parts: seq<string>, name: string, part: string)
    requires Distinct(names)
    ensures LastCell(names, parts, name, part) <==> Cell(names, parts, name, part)
  {
    if i :| 0 <= i < Min(|names|, |parts|) && names[i] == name && parts[i] == part {
      assert IsLastCell(names, parts, name, part, i);
    }
  }

  predicate Blank(parts: seq<string>) { forall p :: p in parts ==> p == "" }

  /** One record per line that is not blank, in file order; the header is line 1. */
  function Records(names: seq<string>, lines: seq<seq<string>>): seq<Line> {
    if lines == [] then []
    else
      var before, parts := Records(names, lines[..|lines| - 1]), lines[|lines| - 1];
      if Blank(parts) then before else before + [Line(|lines| + 1, RecordOf(names, parts))]
  }

  /** A record stands for a line of the file that has something in it, under that line's number. */
  ghost predicate StandsFor(l: Line, names: seq<string>, lines: seq<seq<string>>, i: int) {
    && 0 <= i < |lines| && l.number == i + 2 && l.record == RecordOf(names, lines[i])
    && exists j :: 0 <= j < |lines[i]| && lines[i][j] != ""
  }

  /** Every line with something in it gives exactly one record, in file order; the header is line 1. */
  lemma {:induction false} RecordsExactly(names: seq<string>, lines: seq<seq<string>>)
    ensures var r := Records(names, lines);
            && (forall n :: 0 <= n < |r| ==> StandsFor(r[n], names, lines, r[n].number - 2))
            && (forall m, n :: 0 <= m < n < |r| ==> r[m].number < r[n].number)
            && (forall i, j :: 0 <= i < |lines| && 0 <= j < |lines[i]| && lines[i][j] != "" ==>
                  Line(i + 2, RecordOf(names, lines[i])) in r)
  {
    hide RecordOf;
    if lines != [] {
      var front, last := lines[..|lines| - 1], lines[|lines| - 1];
      var before, r := Records(names, front), Records(names, lines);
      RecordsExactly(names, front);
      assert forall i :: 0 <= i < |front| ==> front[i] == lines[i];
      forall n | 0 <= n < |before| ensures StandsFor(before[n], names, lines, before[n].number - 2) {
        assert StandsFor(before[n], names, front, before[n].number - 2);
      }
      if !Blank(last) {
        var p :| p in last && p != "";
        var j :| 0 <= j < |last| && last[j] == p;
        assert StandsFor(r[|before|], names, lines, |front|);
      }
      forall i, j | 0 <= i < |lines| && 0 <= j < |lines[i]| && lines[i][j] != ""
        ensures Line(i + 2, RecordOf(names, lines[i])) in r
      {
        if i < |front| {
          assert front[i][j] != "";
          assert Line(i + 2, RecordOf(names, lines[i])) in before;
        } else {
          assert last[j] in last;
          assert r[|before|] == Line(i + 2, RecordOf(names, lines[i]));
        }
      }
    }
  }

  /** Header and cells arrive stripped, and header names in lower case. */
  method RowsFromCsv(names: seq<string>, lines: seq<seq<string>>, required: seq<string>)
      returns (r: Option<seq<Line>>)
    ensures r.Some? <==> forall c :: c in required ==> c in names
    ensures r.Some? ==> r.value == Records(names, lines)
  {
    if exists c :: c in required && c !in names {
      return None;
    }
    var out := [];
    for i := 0 to |lines|
      invariant out == Records(names, lines[..i])
    {
      assert lines[..i + 1][..i] == lines[..i];
      if !Blank(lines[i]) {
        out := out + [Line(i + 2, RecordOf(names, lines[i]))];
      }
    }
    assert lines[..|lines|] == lines;
    r := Some(out);
  }

  // ------------------------------------------------------------ duplicates
  datatype Contract = Contract(symbol: string, date: RealDate, expiration: RealDate, strike: real, right: Right)

  function ContractOf(r: ChainRow): Contract { Contract(r.symbol, r.date, r.expiration, r.strike, r.right) }

  ghost predicate NoDupes(rows: seq<ChainRow>) {
    forall i, j :: 0 <= i < j < |rows| ==> ContractOf(rows[i]) != ContractOf(rows[j])
  }

  /** One contract is one symbol, date, expiration, strike and right. */
  lemma ContractExactly(a: ChainRow, b: ChainRow)
    ensures ContractOf(a) == ContractOf(b) <==>
      a.symbol == b.symbol && a.date == b.date && a.expiration == b.expiration && a.strike == b.strike
      && a.right == b.right
  {
  }

  /** The first row that quotes a contract again, and (counting from 1) the row that quoted it before. */
  method CheckDupes(rows: seq<ChainRow>) returns (again: Option<(nat, nat)>)
    ensures again.None? <==> NoDupes(rows)
    ensures again.Some? ==>
      var (i, first) := again.value;
      && 1 <= first <= i < |rows| && NoDupes(rows[..i])
      && ContractOf(rows[first - 1]) == ContractOf(rows[i])
  {
    var seen: map<Contract, nat> := map[];
    for i := 0 to |rows|
      invariant NoDupes(rows[..i])
      invariant forall c :: c in seen ==> 1 <= seen[c] <= i && ContractOf(rows[seen[c] - 1]) == c
      invariant forall j :: 0 <= j < i ==> ContractOf(rows[j]) in seen
    {
      var key := ContractOf(rows[i]);
      if key in seen {
        return Some((i, seen[key]));
      }
      seen := seen[key := i + 1];
    }
    assert rows[..|rows|] == rows;
    again := None;
  }

  // ------------------------------------------------------------ accepted files in the store
  /** A strike the store can tell apart from every other: a whole number of thousandths. */
  predicate Thousandths(strike: real) { (strike * 1000.0).Floor as real == strike * 1000.0 }

  ghost predicate OwnKeys(rows: seq<ChainRow>) {
    forall i, j :: 0 <= i < j < |rows| ==> RowKey(rows[i]) != RowKey(rows[j])
  }

  lemma ThousandthsKept(a: real, b: real)
    requires Thousandths(a) && Thousandths(b) && StrikeKey(a) == StrikeKey(b)
    ensures a == b
  {
  }

  lemma AcceptedKeysDiffer(rows: seq<ChainRow>, underlying: string)
    requires NoDupes(rows) && Importable(rows, underlying)
    requires forall i :: 0 <= i < |rows| ==> Thousandths(rows[i].strike)
    ensures OwnKeys(rows)
  {
    hide Thousandths, StrikeKey, Ymd, WeekdayOf;
    forall i, j | 0 <= i < j < |rows| ensures RowKey(rows[i]) != RowKey(rows[j]) {
      var a, b := rows[i], rows[j];
      YmdKeepsOrder(a.date, b.date);
      YmdKeepsOrder(a.expiration, b.expiration);
      assert ContractOf(a) != ContractOf(b);
      if StrikeKey(a.strike) == StrikeKey(b.strike) {
        ThousandthsKept(a.strike, b.strike);
      }
    }
  }

  lemma {:induction false} FileMapKeys(rows: seq<ChainRow>, sid: nat)
    ensures forall k :: k in FileMap(rows, sid) <==> exists i :: 0 <= i < |rows| && RowKey(rows[i]) == k
    ensures |FileMap(rows, sid)| <= |rows|
  {
    hide KeyOf, RowEntry, FileMap, RowKey;
    if rows == [] {
      EmptyFile(sid);
    } else {
      var front, last := rows[..|rows| - 1], rows[|rows| - 1];
      FileMapKeys(front, sid);
      EntriesSnoc(rows, sid);
      forall k | k in FileMap(rows, sid) ensures exists i :: 0 <= i < |rows| && RowKey(rows[i]) == k {
        if k == RowKey(last) {
          assert RowKey(rows[|rows| - 1]) == k;
        } else {
          var i :| 0 <= i < |front| && RowKey(front[i]) == k;
          assert RowKey(rows[i]) == k;
        }
      }
      forall i | 0 <= i < |rows| ensures RowKey(rows[i]) in FileMap(rows, sid) {
        assert i < |front| ==> RowKey(front[i]) in FileMap(front, sid);
      }
      GrowsBy(FileMap(front, sid), RowKey(last), RowEntry(last, sid).row);
    }
  }

  lemma GrowsBy(m: Opt, k: OptKey, v: OptRow)
    ensures |m[k := v]| == |m| + if k in m then 0 else 1
  {
    assert m[k := v].Keys == m.Keys + {k};
  }

  /** A file gains one stored row per parsed row exactly when no two rows share a store key. */
  lemma {:induction false} OneRowEach(rows: seq<ChainRow>, sid: nat)
    ensures |FileMap(rows, sid)| == |rows| <==> OwnKeys(rows)
  {
    hide KeyOf, RowEntry, FileMap, RowKey;
    if rows == [] {
      EmptyFile(sid);
    } else {
      var front, last := rows[..|rows| - 1], rows[|rows| - 1];
      OneRowEach(front, sid);
      FileMapKeys(front, sid);
      EntriesSnoc(rows, sid);
      GrowsBy(FileMap(front, sid), RowKey(last), RowEntry(last, sid).row);
      if RowKey(last) in FileMap(front, sid) {
        var i :| 0 <= i < |front| && RowKey(front[i]) == RowKey(last);
        assert rows[i] == front[i];
      } else {
        forall i | 0 <= i < |front| ensures RowKey(rows[i]) != RowKey(last) {
          assert rows[i] == front[i];
        }
        if OwnKeys(front) {
          forall i, j | 0 <= i < j < |rows| ensures RowKey(rows[i]) != RowKey(rows[j]) {
            assert j < |front| ==> front[i] == rows[i] && front[j] == rows[j];
          }
        }
      }
      if OwnKeys(rows) {
        assert forall i, j :: 0 <= i < j < |front| ==> front[i] == rows[i] && front[j] == rows[j];
      }
    }
  }

  /** ... and then each row's own quote is what the store holds. */
  lemma {:induction false} EachRowIsKept(rows: seq<ChainRow>, sid: nat, n: nat)
    requires OwnKeys(rows) && n < |rows|
    ensures RowKey(rows[n]) in FileMap(rows, sid)
    ensures FileMap(rows, sid)[RowKey(rows[n])] == RowEntry(rows[n], sid).row
  {
    hide KeyOf, RowEntry, FileMap, RowKey;
    var front, last := rows[..|rows| - 1], rows[|rows| - 1];
    EntriesSnoc(rows, sid);
    if n < |front| {
      assert rows[n] == front[n];
      assert forall i, j :: 0 <= i < j < |front| ==> front[i] == rows[i] && front[j] == rows[j];
      EachRowIsKept(front, sid, n);
    }
  }

  /** An accepted file with strikes in whole thousandths loses no row. */
  lemma AcceptedFileIsWhole(o: Opt, rows: seq<ChainRow>, underlying: string, sid: nat, n: nat)
    requires NoDupes(rows) && Importable(rows, underlying) && n < |rows|
    requires forall i :: 0 <= i < |rows| ==> Thousandths(rows[i].strike)
    ensures |FileMap(rows, sid)| == |rows|
    ensures var after := Upsert(o, Entries(rows, sid));
            RowKey(rows[n]) in after && after[RowKey(rows[n])] == RowEntry(rows[n], sid).row
  {
    hide RowEntry, RowKey, Thousandths, WeekdayOf, Upsert, Entries;
    AcceptedKeysDiffer(rows, underlying);
    OneRowEach(rows, sid);
    EachRowIsKept(rows, sid, n);
    UpsertIsOverride(o, Entries(rows, sid));
  }

  function FineRow(strike: real): ChainRow {
    ChainRow(Date(2024, 1, 2), "SPY", Date(2024, 1, 19), strike, Call,
             None, None, None, None, None, None, None, None)
  }

  lemma FineRowsAlike()
    ensures WeekdayOf(FineRow(1.0001).date) < 5
    ensures RowKey(FineRow(1.0001)) == RowKey(FineRow(1.0002))
  {
    hide Ymd;
    assert DaysBeforeMonth(2024, 1) == 0;
    assert (1.0001 * 1000.0).Floor == 1000 && (1.0002 * 1000.0).Floor == 1000;
  }

  /** Finer strikes pass the duplicate check and still collide: two rows in, one row stored. */
  lemma FineStrikesCollide(sid: nat)
    ensures var rows := [FineRow(1.0001), FineRow(1.0002)];
            NoDupes(rows) && Importable(rows, "SPY") && |FileMap(rows, sid)| == 1
  {
    hide StrikeKey, WeekdayOf, Ymd, MarkFrom, FileMap, Entries, RowKey, RowEntry;
    var rows := [FineRow(1.0001), FineRow(1.0002)];
    FineRowsAlike();
    assert rows[..1] == [FineRow(1.0001)] && rows[..1][..0] == [];
    EntriesSnoc(rows, sid);
    EntriesSnoc(rows[..1], sid);
    EmptyFile(sid);
    GrowsBy(map[], RowKey(rows[0]), RowEntry(rows[0], sid).row);
    GrowsBy(FileMap(rows[..1], sid), RowKey(rows[1]), RowEntry(rows[1], sid).row);
  }
}
