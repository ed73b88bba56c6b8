/** Table lookup behind the four-step working-set forecast: a binary search over a sorted table and an
    all-or-nothing answer written through two caller pointers. */
module WssLookup {
  import opened Common

  newtype u32 = x: int | 0 <= x < 0x1_0000_0000
  newtype u64 = x: int | 0 <= x < 0x1_0000_0000_0000_0000

  datatype Row = Row(listNum: u32, pressureGib: u32, opId: u32, wss: u64, pgfault: u64, validMask: bv32)

  datatype Table = Table(name: string, rows: seq<Row>, maxOperation: u32)

  const OK := 0
  const INVALID_ARGUMENT := -1
  const NOT_FOUND := -2
  const MISSING_FUTURE := -4
  const DATA_UNAVAILABLE := -5
  const UNSUPPORTED_APP := -6
  const HORIZON := 4
  const NO_VALUE := -1

  // ----- finding a row -----

  datatype Key = Key(listNum: u32, pressureGib: u32, opId: u32)

  function KeyOf(row: Row): Key {
    Key(row.listNum, row.pressureGib, row.opId)
  }

  predicate Less(a: Key, b: Key) {
    || a.listNum < b.listNum
    || (a.listNum == b.listNum && a.pressureGib < b.pressureGib)
    || (a.listNum == b.listNum && a.pressureGib == b.pressureGib && a.opId < b.opId)
  }

  ghost predicate Sorted(rows: seq<Row>) {
    forall i, j :: 0 <= i < j < |rows| ==> Less(KeyOf(rows[i]), KeyOf(rows[j]))
  }

  ghost predicate HasKey(rows: seq<Row>, key: Key) {
    exists i :: 0 <= i < |rows| && KeyOf(rows[i]) == key
  }

  /** The row with a key, whichever way it is found. */
  ghost function RowFor(rows: seq<Row>, key: Key): (r: Option<Row>)
    ensures r.Some? <==> HasKey(rows, key)
    ensures r.Some? ==> r.value in rows && KeyOf(r.value) == key
  {
    if HasKey(rows, key) then
      var i :| 0 <= i < |rows| && KeyOf(rows[i]) == key;
      Some(rows[i])
    else None
  }

  lemma KeysDiffer(rows: seq<Row>, i: nat, j: nat)
    requires Sorted(rows) && i < |rows| && j < |rows| && i != j
    ensures KeyOf(rows[i]) != KeyOf(rows[j])
  {
    if i < j {
      assert Less(KeyOf(rows[i]), KeyOf(rows[j]));
    } else {
      assert Less(KeyOf(rows[j]), KeyOf(rows[i]));
    }
  }

  lemma KeyDeterminesRow(rows: seq<Row>, i: nat, key: Key)
    requires Sorted(rows) && i < |rows| && KeyOf(rows[i]) == key
    ensures RowFor(rows, key) == Some(rows[i])
  {
    assert HasKey(rows, key);
    var r := RowFor(rows, key).value;
    var j :| 0 <= j < |rows| && rows[j] == r;
    if i != j {
      KeysDiffer(rows, i, j);
      assert false;
    }
  }

  /** Any row returned has the key; on a sorted table none is missed. */
  method FindRow(table: Table, listNum: u32, pressure: u32, op: u32) returns (r: Option<Row>)
    requires |table.rows| < 0x1_0000_0000
    ensures r.Some? ==> r.value in table.rows && KeyOf(r.value) == Key(listNum, pressure, op)
    ensures Sorted(table.rows) ==> r == RowFor(table.rows, Key(listNum, pressure, op))
  {
    ghost var key := Key(listNum, pressure, op);
    var low: u32 := 0;
    var high: u32 := |table.rows| as u32;
    while low < high
      invariant low <= high && high as int <= |table.rows|
      invariant Sorted(table.rows) ==> forall i :: 0 <= i < low as int ==> Less(KeyOf(table.rows[i]), key)
      invariant Sorted(table.rows) ==> forall i :: high as int <= i < |table.rows| ==> Less(key, KeyOf(table.rows[i]))
      decreases high - low
    {
      var mid := low + (high - low) / 2;
      var row := table.rows[mid];
      if row.listNum == listNum && row.pressureGib == pressure && row.opId == op {
        if Sorted(table.rows) {
          KeyDeterminesRow(table.rows, mid as int, key);
        }
        return Some(row);
      }
      if row.listNum < listNum
         || (row.listNum == listNum && row.pressureGib < pressure)
         || (row.listNum == listNum && row.pressureGib == pressure && row.opId < op) {
        low := mid + 1;
      } else {
        assert Less(key, KeyOf(row));
        high := mid;
      }
    }
    r := None;
  }

  // ----- finding the application -----

  function LowerChar(c: char): char {
    if 'A' <= c <= 'Z' then c + ('a' - 'A') else c
  }

  function Lower(s: string): (r: string)
    ensures |r| == |s|
  {
    seq(|s|, i requires 0 <= i < |s| => LowerChar(s[i]))
  }

  /** Walks both names in step; the terminating NUL of each is the end of its sequence. */
  method SameAppName(left: string, right: string) returns (same: bool)
    ensures same <==> Lower(left) == Lower(right)
  {
    var k := 0;
    while k < |left| && k < |right|
      invariant 0 <= k <= |left| && k <= |right|
      invariant forall i :: 0 <= i < k ==> LowerChar(left[i]) == LowerChar(right[i])
    {
      if LowerChar(left[k]) != LowerChar(right[k]) {
        assert Lower(left)[k] != Lower(right)[k];
        return false;
      }
      k := k + 1;
    }
    same := k == |left| && k == |right|;
  }

  ghost function TableFor(tables: seq<Table>, name: string): Option<Table> {
    if |tables| == 0 then None
    else if Lower(name) == Lower(tables[0].name) then Some(tables[0])
    else TableFor(tables[1..], name)
  }

  method FindApp(tables: seq<Table>, name: string) returns (r: Option<Table>)
    ensures r == TableFor(tables, name)
    ensures r.Some? ==> r.value in tables && Lower(r.value.name) == Lower(name)
    ensures r.None? ==> forall t :: t in tables ==> Lower(t.name) != Lower(name)
  {
    for i := 0 to |tables|
      invariant TableFor(tables, name) == TableFor(tables[i..], name)
      invariant forall t :: t in tables[..i] ==> Lower(t.name) != Lower(name)
    {
      var same := SameAppName(name, tables[i].name);
      if same {
        return Some(tables[i]);
      }
      assert tables[i..][1..] == tables[i + 1..];
      assert tables[..i + 1] == tables[..i] + [tables[i]];
    }
    assert tables[..|tables|] == tables;
    r := None;
  }

  /** Two characters are the same letter or character when equal, or when they are one letter in its two cases. */
  lemma SameLetterIff(c: char, d: char)
    ensures LowerChar(c) == LowerChar(d) <==>
            || c == d
            || ('A' <= c <= 'Z' && d as int == c as int + 32) || ('A' <= d <= 'Z' && c as int == d as int + 32)
  {
  }

  /** The table found is the first one registered under the name. */
  lemma {:induction false} TableIsFirst(tables: seq<Table>, name: string) returns (i: nat)
    requires TableFor(tables, name).Some?
    ensures i < |tables| && TableFor(tables, name) == Some(tables[i]) && Lower(tables[i].name) == Lower(name)
    ensures forall j :: 0 <= j < i ==> Lower(tables[j].name) != Lower(name)
  {
    if Lower(name) == Lower(tables[0].name) {
      i := 0;
    } else {
      i := TableIsFirst(tables[1..], name);
      i := i + 1;
    }
  }

  lemma {:induction false} NoTableIff(tables: seq<Table>, name: string)
    ensures TableFor(tables, name).None? <==> forall j :: 0 <= j < |tables| ==> Lower(tables[j].name) != Lower(name)
  {
    if |tables| > 0 {
      NoTableIff(tables[1..], name);
      assert forall j :: 1 <= j < |tables| ==> tables[j] == tables[1..][j - 1];
    }
  }

  // ----- the answer a query deserves -----

  /** Null pointers are `None`; the two arrays are offsets into one memory of 64-bit words, so they may overlap. */
  datatype Query = Query(
    name: Option<string>, sequence: u32, op: u32, pressure: u64, wss: Option<nat>, pgfault: Option<nat>)

  predicate Disjoint(a: nat, b: nat) {
    a + HORIZON <= b || b + HORIZON <= a
  }

  predicate ArgumentsValid(q: Query) {
    && q.name.Some? && q.name.value != ""
    && q.wss.Some? && q.pgfault.Some? && Disjoint(q.wss.value, q.pgfault.value)
    && q.sequence != 0 && q.op != 0
    && (q.pressure == 0 || q.pressure == 8 || q.pressure == 12 || q.pressure == 14)
  }

  datatype Slot = Padding | Missing | Unusable | Forecast(wss: nat, pgfault: nat)

  predicate Usable(row: Row) {
    row.validMask & 3 == 3 && row.wss <= 0x7fff_ffff_ffff_ffff && row.pgfault <= 0x7fff_ffff_ffff_ffff
  }

  /** What the table says about one operation. */
  ghost function SlotFor(table: Table, listNum: u32, pressure: u32, target: nat): Slot {
    if target > table.maxOperation as int then Padding
    else
      var r := RowFor(table.rows, Key(listNum, pressure, target as u32));
      if r.None? then Missing
      else if !Usable(r.value) then Unusable
      else Forecast(r.value.wss as int, r.value.pgfault as int)
  }

  ghost function SlotsFrom(table: Table, listNum: u32, pressure: u32, op: u32, n: nat): (slots: seq<Slot>)
    ensures |slots| == n
  {
    seq(n, i requires 0 <= i < n => SlotFor(table, listNum, pressure, op as int + i + 1))
  }

  /** The first operation that cannot be answered decides the error. */
  function SlotsStatus(slots: seq<Slot>): int {
    if |slots| == 0 then OK
    else if slots[0].Missing? then MISSING_FUTURE
    else if slots[0].Unusable? then DATA_UNAVAILABLE
    else SlotsStatus(slots[1..])
  }

  ghost function StatusOf(tables: seq<Table>, q: Query): int {
    if !ArgumentsValid(q) then INVALID_ARGUMENT
    else
      var table := TableFor(tables, q.name.value);
      if table.None? then UNSUPPORTED_APP
      else if q.op > table.value.maxOperation then INVALID_ARGUMENT
      else
        var pressure := q.pressure as u32;
        if !HasKey(table.value.rows, Key(q.sequence, pressure, q.op)) then NOT_FOUND
        else SlotsStatus(SlotsFrom(table.value, q.sequence, pressure, q.op, HORIZON))
  }

  function WssValue(slot: Slot): int {
    if slot.Forecast? then slot.wss else NO_VALUE
  }

  function FaultValue(slot: Slot): int {
    if slot.Forecast? then slot.pgfault else NO_VALUE
  }

  /** Memory after an answer: the two windows hold the forecast and every other word is as it was. */
  ghost predicate Answered(mem: seq<int>, before: seq<int>, w: nat, p: nat, slots: seq<Slot>)
    requires |slots| == HORIZON
  {
    && |mem| == |before| && w + HORIZON <= |mem| && p + HORIZON <= |mem|
    && (forall i :: 0 <= i < HORIZON ==> mem[w + i] == WssValue(slots[i]) && mem[p + i] == FaultValue(slots[i]))
    && (forall k :: 0 <= k < |mem| && !(w <= k < w + HORIZON) && !(p <= k < p + HORIZON) ==> mem[k] == before[k])
  }

  ghost predicate TablesOk(tables: seq<Table>) {
    forall t :: t in tables ==> Sorted(t.rows) && |t.rows| < 0x1_0000_0000
  }

  /** The two words for one operation: the working set and the page faults of the table's row for it, or -1 and
      -1 beyond the last operation. */
  ghost predicate OneWritten(wss: int, pgfault: int, table: Table, listNum: u32, pressure: int, target: int) {
    if target > table.maxOperation as int then wss == -1 && pgfault == -1
    else
      exists row :: row in table.rows && row.listNum == listNum && row.pressureGib as int == pressure
                    && row.opId as int == target && wss == row.wss as int && pgfault == row.pgfault as int
  }

  ghost predicate WritesRows(mem: seq<int>, table: Table, q: Query) {
    && q.wss.Some? && q.pgfault.Some? && q.wss.value + HORIZON <= |mem| && q.pgfault.value + HORIZON <= |mem|
    && forall i :: 0 <= i < HORIZON ==> NextWritten(mem, table, q, i)
  }

  ghost predicate NextWritten(mem: seq<int>, table: Table, q: Query, i: nat)
    requires q.wss.Some? && q.pgfault.Some? && q.wss.value + i < |mem| && q.pgfault.value + i < |mem|
  {
    OneWritten(mem[q.wss.value + i], mem[q.pgfault.value + i], table, q.sequence, q.pressure as int,
               q.op as int + i + 1)
  }

  lemma SlotWritten(table: Table, listNum: u32, pressure: u32, target: nat)
    requires Answerable(SlotFor(table, listNum, pressure, target))
    ensures
      var slot := SlotFor(table, listNum, pressure, target);
      OneWritten(WssValue(slot), FaultValue(slot), table, listNum, pressure as int, target)
  {
  }

  lemma AnsweredWritesRows(mem: seq<int>, before: seq<int>, table: Table, q: Query)
    requires ArgumentsValid(q)
    requires
      var slots := SlotsFrom(table, q.sequence, q.pressure as u32, q.op, HORIZON);
      Answered(mem, before, q.wss.value, q.pgfault.value, slots) && SlotsStatus(slots) == OK
    ensures WritesRows(mem, table, q)
  {
    var slots := SlotsFrom(table, q.sequence, q.pressure as u32, q.op, HORIZON);
    SlotsStatusOk(slots);
    forall i | 0 <= i < HORIZON
      ensures NextWritten(mem, table, q, i)
    {
      assert slots[i] == SlotFor(table, q.sequence, q.pressure as u32, q.op as int + i + 1);
      assert Answerable(slots[i]);
      SlotWritten(table, q.sequence, q.pressure as u32, q.op as int + i + 1);
    }
  }

  /** Whether any word of one window is a word of the other, by comparing every pair. */
  method Overlaps(w: nat, p: nat) returns (overlap: bool)
    ensures overlap <==> !Disjoint(w, p)
  {
    for i := 0 to HORIZON
      invariant i == 0 || w + i <= p || p + HORIZON <= w
    {
      for j := 0 to HORIZON
        invariant j == 0 || w + i < p || p + j <= w + i
      {
        if w + i == p + j {
          return true;
        }
      }
    }
    overlap := false;
  }

  /** Collects the four future rows into local buffers, or stops at the first that cannot be answered. */
  method Collect(table: Table, listNum: u32, pressure: u32, op: u32)
    returns (status: int, futureWss: seq<int>, futureFault: seq<int>)
    requires Sorted(table.rows) && |table.rows| < 0x1_0000_0000
    requires op <= table.maxOperation
    ensures
      var slots := SlotsFrom(table, listNum, pressure, op, HORIZON);
      && status == SlotsStatus(slots)
      && (status == OK ==>
            && |futureWss| == |futureFault| == HORIZON
            && forall i :: 0 <= i < HORIZON ==>
                 futureWss[i] == WssValue(slots[i]) && futureFault[i] == FaultValue(slots[i]))
  {
    ghost var slots := SlotsFrom(table, listNum, pressure, op, HORIZON);
    futureWss, futureFault := [], [];
    var i: u32 := 0;
    while i < 4
      invariant 0 <= i <= 4
      invariant |futureWss| == |futureFault| == i as int
      invariant SlotsStatus(slots) == SlotsStatus(slots[i as int..])
      invariant forall k :: 0 <= k < i as int ==>
                  futureWss[k] == WssValue(slots[k]) && futureFault[k] == FaultValue(slots[k])
      decreases 4 - i
    {
      ghost var k := i as int;
      assert slots[k..][1..] == slots[k + 1..];
      assert slots[k] == SlotFor(table, listNum, pressure, op as int + k + 1);
      if table.maxOperation - op <= i {
        futureWss, futureFault := futureWss + [NO_VALUE], futureFault + [NO_VALUE];
      } else {
        var future := FindRow(table, listNum, pressure, op + i + 1);
        if future.None? {
          return MISSING_FUTURE, [], [];
        }
        if future.value.validMask & 3 != 3
           || future.value.wss > 0x7fff_ffff_ffff_ffff || future.value.pgfault > 0x7fff_ffff_ffff_ffff {
          return DATA_UNAVAILABLE, [], [];
        }
        futureWss := futureWss + [future.value.wss as int];
        futureFault := futureFault + [future.value.pgfault as int];
      }
      i := i + 1;
    }
    status := OK;
  }

  method CopyOut(mem: array<int>, w: nat, p: nat, futureWss: seq<int>, futureFault: seq<int>)
    requires |futureWss| == |futureFault| == HORIZON
    requires w + HORIZON <= mem.Length && p + HORIZON <= mem.Length && Disjoint(w, p)
    modifies mem
    ensures forall i :: 0 <= i < HORIZON ==> mem[w + i] == futureWss[i] && mem[p + i] == futureFault[i]
    ensures forall k :: 0 <= k < mem.Length && !(w <= k < w + HORIZON) && !(p <= k < p + HORIZON) ==>
              mem[k] == old(mem[k])
  {
    for i := 0 to HORIZON
      invariant forall k :: 0 <= k < i ==> mem[w + k] == futureWss[k] && mem[p + k] == futureFault[k]
      invariant forall k :: 0 <= k < mem.Length && !(w <= k < w + HORIZON) && !(p <= k < p + HORIZON) ==>
                  mem[k] == old(mem[k])
    {
      mem[w + i] := futureWss[i];
      mem[p + i] := futureFault[i];
    }
  }

  /** Either an error and untouched memory, or all eight words. */
  method GetWssPredictor(tables: seq<Table>, q: Query, mem: array<int>) returns (status: int)
    requires TablesOk(tables)
    requires q.wss.Some? ==> q.wss.value + HORIZON <= mem.Length
    requires q.pgfault.Some? ==> q.pgfault.value + HORIZON <= mem.Length
    modifies mem
    ensures status == StatusOf(tables, q)
    ensures status != OK ==> mem[..] == old(mem[..])
    ensures status == OK ==>
              && ArgumentsValid(q) && TableFor(tables, q.name.value).Some?
              && Answered(mem[..], old(mem[..]), q.wss.value, q.pgfault.value,
                          SlotsFrom(TableFor(tables, q.name.value).value, q.sequence, q.pressure as u32, q.op, HORIZON))
              && WritesRows(mem[..], TableFor(tables, q.name.value).value, q)
  {
    var valid := CheckArguments(q);
    if !valid {
      return INVALID_ARGUMENT;
    }
    var found := FindApp(tables, q.name.value);
    if found.None? {
      return UNSUPPORTED_APP;
    }
    var table := found.value;
    if q.op > table.maxOperation {
      return INVALID_ARGUMENT;
    }
    var pressure := q.pressure as u32;
    var current := FindRow(table, q.sequence, pressure, q.op);
    if current.None? {
      return NOT_FOUND;
    }
    var futureWss, futureFault;
    status, futureWss, futureFault := Collect(table, q.sequence, pressure, q.op);
    if status != OK {
      return;
    }
    CopyOut(mem, q.wss.value, q.pgfault.value, futureWss, futureFault);
    AnsweredWritesRows(mem[..], old(mem[..]), table, q);
  }

  method CheckArguments(q: Query) returns (valid: bool)
    ensures valid <==> ArgumentsValid(q)
  {
    if q.name.None? || q.name.value == "" || q.wss.None? || q.pgfault.None?
       || q.wss.value == q.pgfault.value || q.sequence == 0 || q.op == 0
       || (q.pressure != 0 && q.pressure != 8 && q.pressure != 12 && q.pressure != 14) {
      return false;
    }
    var overlap := Overlaps(q.wss.value, q.pgfault.value);
    valid := !overlap;
  }

  // ----- what the answers mean -----

  predicate Answerable(slot: Slot) {
    slot.Padding? || slot.Forecast?
  }

  lemma {:induction false} SlotsStatusOk(slots: seq<Slot>)
    ensures SlotsStatus(slots) == OK <==> forall i :: 0 <= i < |slots| ==> Answerable(slots[i])
  {
    if |slots| > 0 {
      SlotsStatusOk(slots[1..]);
      assert forall i :: 1 <= i < |slots| ==> slots[i] == slots[1..][i - 1];
    }
  }

  ghost predicate AllForecast(table: Table, listNum: u32, pressure: u32, op: u32) {
    forall target: nat :: op as int < target <= op as int + HORIZON && target <= table.maxOperation as int ==>
      SlotFor(table, listNum, pressure, target).Forecast?
  }

  lemma AnswerableIffForecast(table: Table, listNum: u32, pressure: u32, op: u32)
    ensures SlotsStatus(SlotsFrom(table, listNum, pressure, op, HORIZON)) == OK
            <==> AllForecast(table, listNum, pressure, op)
  {
    var slots := SlotsFrom(table, listNum, pressure, op, HORIZON);
    SlotsStatusOk(slots);
    if AllForecast(table, listNum, pressure, op) {
      forall i | 0 <= i < HORIZON
        ensures Answerable(slots[i])
      {
        assert slots[i] == SlotFor(table, listNum, pressure, op as int + i + 1);
      }
    }
    if SlotsStatus(slots) == OK {
      forall target: nat | op as int < target <= op as int + HORIZON && target <= table.maxOperation as int
        ensures SlotFor(table, listNum, pressure, target).Forecast?
      {
        assert Answerable(slots[target - op as int - 1]);
      }
    }
  }

  /** A query succeeds exactly when the table can answer the current operation and each of the next four
      that exists. */
  lemma SucceedsIff(tables: seq<Table>, q: Query)
    requires ArgumentsValid(q) && TableFor(tables, q.name.value).Some?
    ensures
      var table := TableFor(tables, q.name.value).value;
      StatusOf(tables, q) == OK <==>
        && q.op <= table.maxOperation
        && HasKey(table.rows, Key(q.sequence, q.pressure as u32, q.op))
        && AllForecast(table, q.sequence, q.pressure as u32, q.op)
  {
    AnswerableIffForecast(TableFor(tables, q.name.value).value, q.sequence, q.pressure as u32, q.op);
  }

  /** The row for an operation holds both values, each fitting a signed word. */
  ghost predicate RowAnswers(table: Table, listNum: u32, pressure: int, target: int) {
    exists row :: row in table.rows && row.listNum == listNum && row.pressureGib as int == pressure
                  && row.opId as int == target && row.validMask & 1 == 1 && row.validMask & 2 == 2
                  && row.wss as int < 0x8000_0000_0000_0000 && row.pgfault as int < 0x8000_0000_0000_0000
  }

  ghost predicate RowExists(table: Table, listNum: u32, pressure: int, target: int) {
    exists row :: row in table.rows && row.listNum == listNum && row.pressureGib as int == pressure
                  && row.opId as int == target
  }

  lemma MaskBits(mask: bv32)
    ensures mask & 3 == 3 <==> mask & 1 == 1 && mask & 2 == 2
  {
  }

  lemma HasKeyIff(table: Table, listNum: u32, pressure: u32, op: u32)
    ensures HasKey(table.rows, Key(listNum, pressure, op)) <==> RowExists(table, listNum, pressure as int, op as int)
  {
    if RowExists(table, listNum, pressure as int, op as int) {
      var row :| row in table.rows && row.listNum == listNum && row.pressureGib as int == pressure as int
                 && row.opId as int == op as int;
      var i :| 0 <= i < |table.rows| && table.rows[i] == row;
      assert KeyOf(table.rows[i]) == Key(listNum, pressure, op);
    }
  }

  /** On a sorted table, what is known of an operation is what its row says. */
  lemma SlotMeans(table: Table, listNum: u32, pressure: u32, target: nat)
    requires Sorted(table.rows) && target <= table.maxOperation as int
    ensures
      var slot := SlotFor(table, listNum, pressure, target);
      && (slot.Missing? <==> !RowExists(table, listNum, pressure as int, target))
      && (slot.Forecast? <==> RowAnswers(table, listNum, pressure as int, target))
      && !slot.Padding?
  {
    HasKeyIff(table, listNum, pressure, target as u32);
    var key := Key(listNum, pressure, target as u32);
    if RowAnswers(table, listNum, pressure as int, target) {
      var row :| row in table.rows && row.listNum == listNum && row.pressureGib as int == pressure as int
                 && row.opId as int == target && row.validMask & 1 == 1 && row.validMask & 2 == 2
                 && row.wss as int < 0x8000_0000_0000_0000 && row.pgfault as int < 0x8000_0000_0000_0000;
      var i :| 0 <= i < |table.rows| && table.rows[i] == row;
      KeyDeterminesRow(table.rows, i, key);
      MaskBits(row.validMask);
    }
    var r := RowFor(table.rows, key);
    if r.Some? && Usable(r.value) {
      MaskBits(r.value.validMask);
      assert r.value.listNum == listNum;
    }
  }

  /** The row for the `i`-th next operation. */
  ghost predicate NextAnswers(table: Table, q: Query, i: int) {
    var target := q.op as int + i + 1;
    target > table.maxOperation as int || RowAnswers(table, q.sequence, q.pressure as int, target)
  }

  ghost predicate NextMissing(table: Table, q: Query, i: int) {
    var target := q.op as int + i + 1;
    target <= table.maxOperation as int && !RowExists(table, q.sequence, q.pressure as int, target)
  }

  /** The first next operation that cannot be answered, if any. */
  lemma {:induction false} FirstFailure(slots: seq<Slot>) returns (i: nat)
    ensures i <= |slots| && forall j :: 0 <= j < i ==> Answerable(slots[j])
    ensures i < |slots| ==> !Answerable(slots[i])
    ensures SlotsStatus(slots) ==
            if i == |slots| then OK else if slots[i].Missing? then MISSING_FUTURE else DATA_UNAVAILABLE
  {
    if |slots| == 0 || !Answerable(slots[0]) {
      i := 0;
    } else {
      i := FirstFailure(slots[1..]);
      i := i + 1;
      assert forall j :: 1 <= j < |slots| ==> slots[j] == slots[1..][j - 1];
    }
  }

  /** What each status means for a query that names a table: the order of the checks, and of the next operations
      the first that cannot be answered. */
  lemma StatusMeans(tables: seq<Table>, q: Query) returns (i: nat)
    requires TablesOk(tables) && ArgumentsValid(q) && TableFor(tables, q.name.value).Some?
    ensures
      var table := TableFor(tables, q.name.value).value;
      && i <= HORIZON
      && StatusOf(tables, q) ==
         (if q.op > table.maxOperation then INVALID_ARGUMENT
          else if !RowExists(table, q.sequence, q.pressure as int, q.op as int) then NOT_FOUND
          else if i == HORIZON then OK
          else if NextMissing(table, q, i) then MISSING_FUTURE
          else DATA_UNAVAILABLE)
      && (forall j :: 0 <= j < i ==> NextAnswers(table, q, j))
      && (i < HORIZON ==> !NextAnswers(table, q, i))
  {
    var table := TableFor(tables, q.name.value).value;
    FindsTable(tables, q.name.value);
    var slots := SlotsFrom(table, q.sequence, q.pressure as u32, q.op, HORIZON);
    HasKeyIff(table, q.sequence, q.pressure as u32, q.op);
    i := FirstFailure(slots);
    forall j | 0 <= j < HORIZON
      ensures Answerable(slots[j]) <==> NextAnswers(table, q, j)
      ensures slots[j].Missing? <==> NextMissing(table, q, j)
    {
      SlotsMean(table, q, j);
    }
  }

  lemma {:induction false} FindsTable(tables: seq<Table>, name: string)
    requires TableFor(tables, name).Some?
    ensures TableFor(tables, name).value in tables
  {
    var i := TableIsFirst(tables, name);
  }

  lemma SlotsMean(table: Table, q: Query, j: nat)
    requires Sorted(table.rows) && ArgumentsValid(q) && j < HORIZON
    ensures
      var slot := SlotsFrom(table, q.sequence, q.pressure as u32, q.op, HORIZON)[j];
      (Answerable(slot) <==> NextAnswers(table, q, j)) && (slot.Missing? <==> NextMissing(table, q, j))
  {
    var target := q.op as int + j + 1;
    if target <= table.maxOperation as int {
      SlotMeans(table, q.sequence, q.pressure as u32, target);
    }
  }

  /** Before any table is looked at: what the arguments must be, and when no table serves the application. */
  lemma RefusedIff(tables: seq<Table>, q: Query)
    ensures ArgumentsValid(q) <==>
            && q.name.Some? && |q.name.value| > 0 && q.wss.Some? && q.pgfault.Some?
            && Disjoint(q.wss.value, q.pgfault.value) && q.sequence as int > 0 && q.op as int > 0
            && q.pressure as int in {0, 8, 12, 14}
    ensures !ArgumentsValid(q) ==> StatusOf(tables, q) == INVALID_ARGUMENT
    ensures ArgumentsValid(q) ==>
              (StatusOf(tables, q) == UNSUPPORTED_APP <==>
               forall j :: 0 <= j < |tables| ==> Lower(tables[j].name) != Lower(q.name.value))
  {
    if ArgumentsValid(q) {
      NoTableIff(tables, q.name.value);
      if TableFor(tables, q.name.value).Some? {
        var table := TableFor(tables, q.name.value).value;
        var i := FirstFailure(SlotsFrom(table, q.sequence, q.pressure as u32, q.op, HORIZON));
      }
    }
  }

  /** -1 is written for an operation exactly when it lies beyond the last one; a zero is data. */
  lemma PaddingIffBeyondEnd(tables: seq<Table>, q: Query, i: nat)
    requires StatusOf(tables, q) == OK && i < HORIZON
    ensures ArgumentsValid(q) && TableFor(tables, q.name.value).Some?
    ensures
      var table := TableFor(tables, q.name.value).value;
      var slot := SlotsFrom(table, q.sequence, q.pressure as u32, q.op, HORIZON)[i];
      && (WssValue(slot) == NO_VALUE <==> q.op as int + i + 1 > table.maxOperation as int)
      && (FaultValue(slot) == NO_VALUE <==> q.op as int + i + 1 > table.maxOperation as int)
  {
    var table := TableFor(tables, q.name.value).value;
    var slots := SlotsFrom(table, q.sequence, q.pressure as u32, q.op, HORIZON);
    SlotsStatusOk(slots);
    assert Answerable(slots[i]);
    assert slots[i] == SlotFor(table, q.sequence, q.pressure as u32, q.op as int + i + 1);
  }

  /** Two successive successful queries agree on the operations both of them forecast, and the later one can
      fail only on the single operation that the earlier one did not look at. */
  lemma NextQueryAgrees(tables: seq<Table>, q: Query, next: Query)
    requires StatusOf(tables, q) == OK && ArgumentsValid(q) && TableFor(tables, q.name.value).Some?
    requires q.op < TableFor(tables, q.name.value).value.maxOperation
    requires next == q.(op := q.op + 1)
    ensures
      var table := TableFor(tables, q.name.value).value;
      var slots := SlotsFrom(table, q.sequence, q.pressure as u32, q.op, HORIZON);
      var slots' := SlotsFrom(table, q.sequence, q.pressure as u32, next.op, HORIZON);
      && (forall i :: 0 <= i < HORIZON - 1 ==> slots'[i] == slots[i + 1])
      && (StatusOf(tables, next) == OK <==> Answerable(slots'[HORIZON - 1]))
  {
    var table := TableFor(tables, q.name.value).value;
    var slots := SlotsFrom(table, q.sequence, q.pressure as u32, q.op, HORIZON);
    var slots' := SlotsFrom(table, q.sequence, q.pressure as u32, next.op, HORIZON);
    SlotsStatusOk(slots);
    SlotsStatusOk(slots');
    assert Answerable(slots[0]);
    assert slots[0] == SlotFor(table, q.sequence, q.pressure as u32, q.op as int + 1);
    forall i | 0 <= i < HORIZON - 1
      ensures slots'[i] == slots[i + 1] && Answerable(slots'[i])
    {
      assert slots[i + 1] == SlotFor(table, q.sequence, q.pressure as u32, q.op as int + i + 2);
      assert slots'[i] == SlotFor(table, q.sequence, q.pressure as u32, next.op as int + i + 1);
      assert Answerable(slots[i + 1]);
    }
  }
}
