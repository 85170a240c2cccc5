/**
 The row list with an id-to-row hash index of lib/core/models/identifyingmodel.h, line by line as
 the operations are written there. `Model` is the value of the two fields, the functions are the
 operations on it, and the class runs their loops on real fields.
 */
module RowIndex {
  import opened Common

  datatype Item<V> = Item(id: int, value: V)

  datatype Model<V> = Model(rows: seq<Item<V>>, index: map<int, int>)

  // What a role edit changes: the id, anything else of the row, or nothing, when the value is
  // invalid or the concrete model does not take it for that role.
  datatype Edit<V> = SetId(id: int) | SetValue(value: V) | Refused

  function Edited<V>(item: Item<V>, e: Edit<V>): Item<V> {
    match e
    case SetId(id) => item.(id := id)
    case SetValue(v) => item.(value := v)
    case Refused => item
  }

  // operator[] of the hash map: a missing key reads as zero.
  function At(index: map<int, int>, id: int): int {
    if id in index then index[id] else 0
  }

  // ----- The three index loops, over rows lo..hi -----

  function Shifted<V>(index: map<int, int>, rows: seq<Item<V>>, lo: nat, hi: nat, delta: int): map<int, int>
    requires lo <= hi <= |rows|
    decreases hi
  {
    if hi == lo then index
    else
      var m := Shifted(index, rows, lo, hi - 1, delta);
      m[rows[hi - 1].id := At(m, rows[hi - 1].id) + delta]
  }

  function Written<V>(index: map<int, int>, rows: seq<Item<V>>, lo: nat, hi: nat, offset: int): map<int, int>
    requires lo <= hi <= |rows|
    decreases hi
  {
    if hi == lo then index
    else Written(index, rows, lo, hi - 1, offset)[rows[hi - 1].id := offset + hi - 1]
  }

  // insert() leaves an existing entry alone.
  function Inserted<V>(index: map<int, int>, rows: seq<Item<V>>, lo: nat, hi: nat): map<int, int>
    requires lo <= hi <= |rows|
    decreases hi
  {
    if hi == lo then index
    else
      var m := Inserted(index, rows, lo, hi - 1);
      if rows[hi - 1].id in m then m else m[rows[hi - 1].id := hi - 1]
  }

  // ----- The operations -----

  function Empty<V>(): Model<V> {
    Model([], map[])
  }

  function Lookup<V>(m: Model<V>, id: int): Option<nat> {
    if id in m.index && 0 <= m.index[id] < |m.rows| then Some(m.index[id]) else None
  }

  function AfterInsertRows<V>(m: Model<V>, row: int, count: int, blank: Item<V>): (Model<V>, bool) {
    if row < 0 || row > |m.rows| || count <= 0 then (m, false)
    else
      var shifted := if row + count < |m.rows| then Shifted(m.index, m.rows, row, |m.rows|, count) else m.index;
      var rows := m.rows[..row] + seq(count, i => blank) + m.rows[row..];
      (Model(rows, Written(shifted, rows, row, if row < count then count else row, 0)), true)
  }

  function AfterInsertDataList<V>(m: Model<V>, row: int, items: seq<Item<V>>): (Model<V>, bool) {
    if row < 0 || row > |m.rows| || items == [] then (m, false)
    else
      var shifted := if row < |m.rows| then Shifted(m.index, m.rows, row, |m.rows|, |items|) else m.index;
      (Model(m.rows[..row] + items + m.rows[row..], Written(shifted, items, 0, |items|, row)), true)
  }

  predicate Known<V>(index: map<int, int>, item: Item<V>) {
    item.id in index
  }

  function CountKnown<V>(index: map<int, int>, items: seq<Item<V>>): (n: nat)
    ensures n <= |items|
  {
    if items == [] then 0
    else CountKnown(index, items[..|items| - 1]) + (if Known(index, items[|items| - 1]) then 1 else 0)
  }

  /** The count is full exactly when all are known, and then nothing is left to insert. */
  lemma {:induction false} CountIsFull<V>(index: map<int, int>, items: seq<Item<V>>)
    ensures CountKnown(index, items) == |items| <==> forall i :: 0 <= i < |items| ==> Known(index, items[i])
  {
    if items != [] {
      CountIsFull(index, items[..|items| - 1]);
    }
  }

  // A known item is moved to the front; its id, an int, survives the move.
  function AfterMove<V>(index: map<int, int>, item: Item<V>, movedFrom: V): Item<V> {
    if Known(index, item) then item.(value := movedFrom) else item
  }

  // What remove_if leaves behind its new end.
  function Tail<V>(index: map<int, int>, items: seq<Item<V>>, movedFrom: V): seq<Item<V>> {
    var k := CountKnown(index, items);
    seq(|items| - k, i requires 0 <= i < |items| - k => AfterMove(index, items[k + i], movedFrom))
  }

  function WithTail<V>(m: Model<V>, row: nat, tail: seq<Item<V>>): Model<V>
    requires row <= |m.rows|
  {
    var rows := m.rows[..row] + tail + m.rows[row..];
    Model(rows, Inserted(m.index, rows, row, row + |tail|))
  }

  function AfterInsertRange<V>(m: Model<V>, row: int, items: seq<Item<V>>, movedFrom: V): (Model<V>, bool) {
    var tail := Tail(m.index, items, movedFrom);
    if row < 0 || row > |m.rows| || tail == [] then (m, false)
    else (WithTail(m, row, tail), true)
  }

  function AfterRemoveRows<V>(m: Model<V>, row: int, count: int): (Model<V>, bool) {
    if row < 0 || row + count > |m.rows| || count <= 0 then (m, false)
    else
      var rows := m.rows[..row] + m.rows[row + count..];
      (Model(rows, Shifted(m.index - {m.rows[row].id}, rows, row, |rows|, -count)), true)
  }

  // setData(QModelIndex, T)
  function AfterSetItem<V>(m: Model<V>, row: int, item: Item<V>): (Model<V>, bool) {
    if row < 0 || row >= |m.rows| then (m, false)
    else
      var oldId := m.rows[row].id;
      var index := if oldId != item.id then m.index[item.id := row] - {oldId} else m.index;
      (Model(m.rows[row := item], index), true)
  }

  // setData(QModelIndex, QVariant, int)
  function AfterSetRole<V>(m: Model<V>, row: int, e: Edit<V>): (Model<V>, bool) {
    if row < 0 || row >= |m.rows| || e.Refused? then (m, false)
    else
      var lastId := m.rows[row].id;
      var index := if e.SetId? && lastId != e.id then m.index[e.id := row] - {lastId} else m.index;
      (Model(m.rows[row := Edited(m.rows[row], e)], index), true)
  }

  // setData(int, QVariant, int): it edits the row whose number is the id, and reading
  // `index[id]` for the change signal puts the erased key back with row zero.
  function AfterSetById<V>(m: Model<V>, id: int, e: Edit<V>): (Model<V>, bool)
    requires id in m.index ==> 0 <= id < |m.rows|
  {
    if id !in m.index || e.Refused? then (m, false)
    else
      var index := if e.SetId? && e.id != id then (m.index[e.id := m.index[id]] - {id})[id := 0] else m.index;
      (Model(m.rows[id := Edited(m.rows[id], e)], index), true)
  }

  // ----- Agreement of rows and index -----

  ghost predicate Agrees<V>(m: Model<V>) {
    && (forall r: nat :: r < |m.rows| ==> m.rows[r].id in m.index && m.index[m.rows[r].id] == r)
    && (forall id :: id in m.index ==> 0 <= m.index[id] < |m.rows| && m.rows[m.index[id]].id == id)
  }

  predicate DistinctIds<V>(items: seq<Item<V>>) {
    forall i, j :: 0 <= i < j < |items| ==> items[i].id != items[j].id
  }

  function Scan<V>(rows: seq<Item<V>>, id: int): (r: Option<nat>)
    ensures r.Some? ==> r.value < |rows| && rows[r.value].id == id
    ensures r.None? ==> forall i :: 0 <= i < |rows| ==> rows[i].id != id
  {
    if rows == [] then None
    else if rows[|rows| - 1].id == id then Some(|rows| - 1)
    else Scan(rows[..|rows| - 1], id)
  }

  /** While rows and index agree, the ids are distinct and the hash lookup is a linear scan. */
  lemma AgreementMakesLookupAScan<V>(m: Model<V>, id: int)
    requires Agrees(m)
    ensures DistinctIds(m.rows) && Lookup(m, id) == Scan(m.rows, id)
  {
    var r := Scan(m.rows, id);
    if r.Some? { assert m.rows[r.value].id in m.index; }
  }

  lemma {:induction false} ShiftedAt<V>(index: map<int, int>, rows: seq<Item<V>>, lo: nat, hi: nat, delta: int, id: int)
    requires lo <= hi <= |rows| && DistinctIds(rows)
    requires forall i :: lo <= i < hi ==> rows[i].id in index
    ensures var m := Shifted(index, rows, lo, hi, delta);
            && (id in m <==> id in index)
            && (id in index ==>
                  m[id] == index[id] + (if exists i :: lo <= i < hi && rows[i].id == id then delta else 0))
    decreases hi
  {
    if hi > lo {
      ShiftedAt(index, rows, lo, hi - 1, delta, id);
      var last := rows[hi - 1].id;
      if last != id && exists i :: lo <= i < hi && rows[i].id == id {
        var i :| lo <= i < hi && rows[i].id == id;
        assert i < hi - 1;
      }
    }
  }

  // The shift moves the entry of a row whose id occurs once, whatever the other ids are.
  lemma {:induction false} ShiftedOnce<V>(index: map<int, int>, rows: seq<Item<V>>, hi: nat, delta: int, r: nat)
    requires hi <= |rows| && r < |rows| && rows[r].id in index
    requires forall q :: 0 <= q < |rows| && rows[q].id == rows[r].id ==> q == r
    ensures var m := Shifted(index, rows, 0, hi, delta);
            rows[r].id in m && m[rows[r].id] == index[rows[r].id] + (if r < hi then delta else 0)
    decreases hi
  {
    if hi > 0 {
      ShiftedOnce(index, rows, hi - 1, delta, r);
    }
  }

  lemma {:induction false} WrittenElsewhere<V>(index: map<int, int>, rows: seq<Item<V>>, lo: nat, hi: nat,
                                               offset: int, id: int)
    requires lo <= hi <= |rows| && forall i :: lo <= i < hi ==> rows[i].id != id
    ensures var m := Written(index, rows, lo, hi, offset);
            (id in m <==> id in index) && (id in index ==> m[id] == index[id])
    decreases hi
  {
    if hi > lo {
      WrittenElsewhere(index, rows, lo, hi - 1, offset, id);
    }
  }

  lemma {:induction false} WrittenHere<V>(index: map<int, int>, rows: seq<Item<V>>, lo: nat, hi: nat,
                                          offset: int, i: nat)
    requires lo <= i < hi <= |rows| && DistinctIds(rows)
    ensures var m := Written(index, rows, lo, hi, offset);
            rows[i].id in m && m[rows[i].id] == offset + i
    decreases hi
  {
    if i < hi - 1 {
      WrittenHere(index, rows, lo, hi - 1, offset, i);
    }
  }

  lemma {:induction false} InsertedElsewhere<V>(index: map<int, int>, rows: seq<Item<V>>, lo: nat, hi: nat, id: int)
    requires lo <= hi <= |rows| && forall i :: lo <= i < hi ==> rows[i].id != id
    ensures var m := Inserted(index, rows, lo, hi);
            (id in m <==> id in index) && (id in index ==> m[id] == index[id])
    decreases hi
  {
    if hi > lo {
      InsertedElsewhere(index, rows, lo, hi - 1, id);
    }
  }

  lemma {:induction false} InsertedHere<V>(index: map<int, int>, rows: seq<Item<V>>, lo: nat, hi: nat, i: nat)
    requires lo <= i < hi <= |rows| && DistinctIds(rows) && rows[i].id !in index
    ensures var m := Inserted(index, rows, lo, hi);
            rows[i].id in m && m[rows[i].id] == i
    decreases hi
  {
    if i < hi - 1 {
      InsertedHere(index, rows, lo, hi - 1, i);
    } else {
      InsertedElsewhere(index, rows, lo, hi - 1, rows[i].id);
    }
  }

  lemma {:induction false} InsertedKeeps<V>(index: map<int, int>, rows: seq<Item<V>>, lo: nat, hi: nat, id: int)
    requires lo <= hi <= |rows| && id in index
    ensures var m := Inserted(index, rows, lo, hi); id in m && m[id] == index[id]
    decreases hi
  {
    if hi > lo {
      InsertedKeeps(index, rows, lo, hi - 1, id);
    }
  }

  // ----- Exactly when each operation keeps the agreement -----

  lemma DistinctFromAgreement<V>(m: Model<V>)
    requires Agrees(m)
    ensures DistinctIds(m.rows)
  {
  }

  /** insertDataList keeps the agreement exactly when the new ids are distinct and fresh. */
  lemma InsertDataListAgrees<V>(m: Model<V>, row: nat, items: seq<Item<V>>)
    requires Agrees(m) && row <= |m.rows| && items != []
    ensures Agrees(AfterInsertDataList(m, row, items).0) <==>
            DistinctIds(items) && forall i :: 0 <= i < |items| ==> items[i].id !in m.index
  {
    var t := AfterInsertDataList(m, row, items).0;
    var n := |items|;
    if Agrees(t) {
      FreshSplice(m, row, items);
    } else if DistinctIds(items) && forall i :: 0 <= i < n ==> items[i].id !in m.index {
      ListInserted(m, row, items);
    }
  }

  // Distinct ids after a splice mean distinct and fresh ids in what was spliced in.
  lemma FreshSplice<V>(m: Model<V>, row: nat, items: seq<Item<V>>)
    requires Agrees(m) && row <= |m.rows| && DistinctIds(m.rows[..row] + items + m.rows[row..])
    ensures DistinctIds(items) && forall i :: 0 <= i < |items| ==> items[i].id !in m.index
  {
    var rows := m.rows[..row] + items + m.rows[row..];
    assert forall i :: 0 <= i < |items| ==> items[i] == rows[row + i];
    assert forall r :: 0 <= r < row ==> m.rows[r] == rows[r];
    assert forall r :: row <= r < |m.rows| ==> m.rows[r] == rows[r + |items|];
  }

  lemma ListedRow<V>(m: Model<V>, row: nat, items: seq<Item<V>>, r: nat)
    requires Agrees(m) && row <= |m.rows| && items != [] && r < |m.rows| + |items|
    requires DistinctIds(items) && forall i :: 0 <= i < |items| ==> items[i].id !in m.index
    ensures var t := AfterInsertDataList(m, row, items).0;
            |t.rows| == |m.rows| + |items| && t.rows[r].id in t.index && t.index[t.rows[r].id] == r
  {
    var n := |items|;
    var t := AfterInsertDataList(m, row, items).0;
    var shifted := if row < |m.rows| then Shifted(m.index, m.rows, row, |m.rows|, n) else m.index;
    DistinctFromAgreement(m);
    if row <= r < row + n {
      WrittenHere(shifted, items, 0, n, row, r - row);
    } else {
      var was := if r < row then r else r - n;
      assert t.rows[r] == m.rows[was];
      WrittenElsewhere(shifted, items, 0, n, row, m.rows[was].id);
      ShiftedAt(m.index, m.rows, row, |m.rows|, n, m.rows[was].id);
    }
  }

  lemma ListInserted<V>(m: Model<V>, row: nat, items: seq<Item<V>>)
    requires Agrees(m) && row <= |m.rows| && items != []
    requires DistinctIds(items) && forall i :: 0 <= i < |items| ==> items[i].id !in m.index
    ensures Agrees(AfterInsertDataList(m, row, items).0)
  {
    var n := |items|;
    var t := AfterInsertDataList(m, row, items).0;
    var shifted := if row < |m.rows| then Shifted(m.index, m.rows, row, |m.rows|, n) else m.index;
    DistinctFromAgreement(m);
    forall r: nat | r < |t.rows|
      ensures t.rows[r].id in t.index && t.index[t.rows[r].id] == r
    {
      ListedRow(m, row, items, r);
    }
    forall id | id in t.index
      ensures 0 <= t.index[id] < |t.rows| && t.rows[t.index[id]].id == id
    {
      if i :| 0 <= i < n && items[i].id == id {
        WrittenHere(shifted, items, 0, n, row, i);
        assert t.rows[row + i] == items[i];
      } else {
        WrittenElsewhere(shifted, items, 0, n, row, id);
        ShiftedAt(m.index, m.rows, row, |m.rows|, n, id);
        var was := m.index[id];
        assert t.rows[if was < row then was else was + n] == m.rows[was];
      }
    }
  }

  /** insertRows keeps the agreement exactly when it inserts one blank row of a fresh id at row 0 of
      a model that does not have exactly one row. */
  lemma InsertRowsAgrees<V>(m: Model<V>, row: nat, count: nat, blank: Item<V>)
    requires Agrees(m) && row <= |m.rows| && count > 0
    ensures Agrees(AfterInsertRows(m, row, count, blank).0) <==>
            count == 1 && row == 0 && |m.rows| != 1 && blank.id !in m.index
  {
    var t := AfterInsertRows(m, row, count, blank).0;
    var blanks := seq(count, i => blank);
    assert DistinctIds(blanks) ==> count == 1 by {
      if count > 1 { assert blanks[0].id == blanks[1].id; }
    }
    assert t.rows[row] == blanks[0];
    if |m.rows| == 1 && row == 0 && count == 1 {
      assert t.rows[1] == m.rows[0];
      WrittenElsewhere(m.index, t.rows, 0, 0, 0, m.rows[0].id);
    }
    ShiftedAt(m.index, m.rows, row, |m.rows|, count, blank.id);
    if count == 1 && row == 0 && |m.rows| != 1 && blank.id !in m.index {
      BlankOnTop(m, blank);
    }
    if Agrees(t) {
      DistinctFromAgreement(t);
      FreshSplice(m, row, blanks);
    }
  }

  // On a model without exactly one row, inserting a blank at the top is insertDataList's doing.
  lemma BlankOnTop<V>(m: Model<V>, blank: Item<V>)
    requires |m.rows| != 1
    ensures AfterInsertRows(m, 0, 1, blank) == AfterInsertDataList(m, 0, [blank])
    ensures Agrees(m) && blank.id !in m.index ==> Agrees(AfterInsertRows(m, 0, 1, blank).0)
  {
    var rows := AfterInsertRows(m, 0, 1, blank).0.rows;
    assert [blank] == seq(1, i => blank);
    assert rows == [blank] + m.rows == m.rows[..0] + [blank] + m.rows[0..];
    var shifted := if 1 < |m.rows| then Shifted(m.index, m.rows, 0, |m.rows|, 1) else m.index;
    assert Written(shifted, rows, 0, 1, 0) == shifted[blank.id := 0] == Written(shifted, [blank], 0, 1, 0);
    if Agrees(m) && blank.id !in m.index { ListInserted(m, 0, [blank]); }
  }

  predicate KnownFirst<V>(index: map<int, int>, items: seq<Item<V>>) {
    forall i, j :: 0 <= i < j < |items| && Known(index, items[j]) ==> Known(index, items[i])
  }

  lemma {:induction false} KnownFront<V>(index: map<int, int>, items: seq<Item<V>>)
    requires KnownFirst(index, items)
    ensures forall i :: CountKnown(index, items) <= i < |items| ==> !Known(index, items[i])
  {
    if items != [] {
      var n := |items| - 1;
      if Known(index, items[n]) {
        CountIsFull(index, items);
      } else {
        KnownFront(index, items[..n]);
      }
    }
  }

  lemma {:induction false} CountSplits<V>(index: map<int, int>, items: seq<Item<V>>, k: nat)
    requires k <= |items|
    ensures CountKnown(index, items) == CountKnown(index, items[..k]) + CountKnown(index, items[k..])
    decreases |items|
  {
    if k < |items| {
      var n := |items| - 1;
      CountSplits(index, items[..n], k);
      BothEnds(items, k);
      CountLast(index, items);
      CountLast(index, items[k..]);
    } else {
      assert items[..k] == items;
    }
  }

  lemma CountLast<V>(index: map<int, int>, items: seq<Item<V>>)
    requires items != []
    ensures var n := |items| - 1;
            CountKnown(index, items) == CountKnown(index, items[..n]) + (if Known(index, items[n]) then 1 else 0)
  {
  }

  lemma BothEnds<V>(items: seq<Item<V>>, k: nat)
    requires k < |items|
    ensures var n := |items| - 1;
            && items[..n][..k] == items[..k] && items[..n][k..] == items[k..][..n - k]
            && items[k..][n - k] == items[n]
  {
  }

  lemma KnownBehind<V>(index: map<int, int>, items: seq<Item<V>>)
    ensures (forall i :: CountKnown(index, items) <= i < |items| ==> !Known(index, items[i])) ==>
              KnownFirst(index, items)
  {
    var k := CountKnown(index, items);
    if forall i :: k <= i < |items| ==> !Known(index, items[i]) {
      CountSplits(index, items, k);
      NoneKnown(index, items[k..]);
      AllKnown(index, items[..k]);
      FrontThenRest(index, items, k);
    }
  }

  lemma FrontThenRest<V>(index: map<int, int>, items: seq<Item<V>>, k: nat)
    requires k <= |items| && forall i :: 0 <= i < k ==> items[..k][i].id in index
    requires forall i :: k <= i < |items| ==> !Known(index, items[i])
    ensures KnownFirst(index, items)
  {
    forall i, j | 0 <= i < j < |items| && Known(index, items[j])
      ensures Known(index, items[i])
    {
      assert items[i] == items[..k][i];
    }
  }

  lemma AllKnown<V>(index: map<int, int>, items: seq<Item<V>>)
    requires CountKnown(index, items) == |items|
    ensures forall i :: 0 <= i < |items| ==> items[i].id in index
  {
    CountIsFull(index, items);
    assert forall i :: 0 <= i < |items| ==> Known(index, items[i]);
  }

  /** remove_if leaves exactly the unknown items, unharmed and in order, behind its new end
      when the known items come first; otherwise a known item is among them. */
  lemma TailIsFresh<V>(index: map<int, int>, items: seq<Item<V>>, movedFrom: V)
    ensures var tail := Tail(index, items, movedFrom);
            && (KnownFirst(index, items) <==> forall i :: 0 <= i < |tail| ==> tail[i].id !in index)
            && (KnownFirst(index, items) ==> tail == items[CountKnown(index, items)..])
  {
    if KnownFirst(index, items) {
      FreshTail(index, items, movedFrom);
    } else {
      KnownInTail(index, items, movedFrom);
    }
  }

  lemma FreshTail<V>(index: map<int, int>, items: seq<Item<V>>, movedFrom: V)
    requires KnownFirst(index, items)
    ensures var tail := Tail(index, items, movedFrom);
            tail == items[CountKnown(index, items)..] && forall i :: 0 <= i < |tail| ==> tail[i].id !in index
  {
    var k, tail := CountKnown(index, items), Tail(index, items, movedFrom);
    KnownFront(index, items);
    forall i | 0 <= i < |tail|
      ensures tail[i] == items[k..][i] && tail[i].id !in index
    {
      assert tail[i] == AfterMove(index, items[k + i], movedFrom) && !Known(index, items[k + i]);
    }
  }

  lemma KnownInTail<V>(index: map<int, int>, items: seq<Item<V>>, movedFrom: V)
    requires !KnownFirst(index, items)
    ensures exists i :: 0 <= i < |Tail(index, items, movedFrom)| && Tail(index, items, movedFrom)[i].id in index
  {
    var k := CountKnown(index, items);
    KnownBehind(index, items);
    var p :| k <= p < |items| && Known(index, items[p]);
    assert Tail(index, items, movedFrom)[p - k] == AfterMove(index, items[k + (p - k)], movedFrom);
  }

  lemma {:induction false} NoneKnown<V>(index: map<int, int>, items: seq<Item<V>>)
    requires forall i :: 0 <= i < |items| ==> !Known(index, items[i])
    ensures CountKnown(index, items) == 0
  {
    if items != [] {
      NoneKnown(index, items[..|items| - 1]);
    }
  }

  /** insertRange, once accepted, keeps the agreement exactly when it appends, the known items come
      first, and the rest have distinct ids. */
  lemma InsertRangeAgrees<V>(m: Model<V>, row: nat, items: seq<Item<V>>, movedFrom: V)
    requires Agrees(m) && row <= |m.rows| && AfterInsertRange(m, row, items, movedFrom).1
    ensures Agrees(AfterInsertRange(m, row, items, movedFrom).0) <==>
            row == |m.rows| && KnownFirst(m.index, items) && DistinctIds(items[CountKnown(m.index, items)..])
  {
    TailIsFresh(m.index, items, movedFrom);
    TailAgrees(m, row, Tail(m.index, items, movedFrom));
  }

  lemma TailAgrees<V>(m: Model<V>, row: nat, tail: seq<Item<V>>)
    requires Agrees(m) && row <= |m.rows| && tail != []
    ensures Agrees(WithTail(m, row, tail)) <==>
            row == |m.rows| && DistinctIds(tail) && forall i :: 0 <= i < |tail| ==> tail[i].id !in m.index
  {
    var t := WithTail(m, row, tail);
    if row < |m.rows| {
      TailInTheMiddle(m, row, tail);
    } else if DistinctIds(tail) && forall i :: 0 <= i < |tail| ==> tail[i].id !in m.index {
      RangeAppended(m, tail);
      assert t.rows == m.rows + tail;
    } else if Agrees(t) {
      DistinctFromAgreement(t);
      FreshSplice(m, row, tail);
      assert false;
    }
  }

  // An accepted range at the end is appended.
  lemma AppendedRows<V>(m: Model<V>, tail: seq<Item<V>>)
    ensures WithTail(m, |m.rows|, tail).rows == m.rows + tail
  {
  }

  lemma TailInTheMiddle<V>(m: Model<V>, row: nat, tail: seq<Item<V>>)
    requires Agrees(m) && row < |m.rows| && tail != []
    ensures !Agrees(WithTail(m, row, tail))
  {
    var t := WithTail(m, row, tail);
    assert t.rows[row + |tail|] == m.rows[row];
    InsertedKeeps(m.index, t.rows, row, row + |tail|, m.rows[row].id);
  }

  lemma DistinctAppended<V>(m: Model<V>, tail: seq<Item<V>>)
    requires Agrees(m) && DistinctIds(tail) && forall i :: 0 <= i < |tail| ==> tail[i].id !in m.index
    ensures var rows := m.rows + tail;
            DistinctIds(rows) && forall r :: |m.rows| <= r < |rows| ==> rows[r].id !in m.index
  {
    var lo, rows := |m.rows|, m.rows + tail;
    DistinctFromAgreement(m);
    assert forall r :: 0 <= r < lo ==> rows[r] == m.rows[r] && rows[r].id in m.index;
    assert forall r :: lo <= r < |rows| ==> rows[r] == tail[r - lo];
  }

  lemma RangeAppended<V>(m: Model<V>, tail: seq<Item<V>>)
    requires Agrees(m) && DistinctIds(tail) && forall i :: 0 <= i < |tail| ==> tail[i].id !in m.index
    ensures Agrees(Model(m.rows + tail, Inserted(m.index, m.rows + tail, |m.rows|, |m.rows| + |tail|)))
  {
    AppendedEntries(m, tail);
    AppendedKeys(m, tail);
  }

  lemma AppendedEntries<V>(m: Model<V>, tail: seq<Item<V>>)
    requires Agrees(m) && DistinctIds(tail) && forall i :: 0 <= i < |tail| ==> tail[i].id !in m.index
    ensures var rows := m.rows + tail;
            var index := Inserted(m.index, rows, |m.rows|, |rows|);
            forall r: nat :: r < |rows| ==> rows[r].id in index && index[rows[r].id] == r
  {
    var rows := m.rows + tail;
    var index := Inserted(m.index, rows, |m.rows|, |rows|);
    forall r: nat | r < |rows|
      ensures rows[r].id in index && index[rows[r].id] == r
    {
      AppendedEntry(m, tail, r);
    }
  }

  lemma AppendedKeys<V>(m: Model<V>, tail: seq<Item<V>>)
    requires Agrees(m) && DistinctIds(tail) && forall i :: 0 <= i < |tail| ==> tail[i].id !in m.index
    ensures var rows := m.rows + tail;
            var index := Inserted(m.index, rows, |m.rows|, |rows|);
            forall id :: id in index ==> 0 <= index[id] < |rows| && rows[index[id]].id == id
  {
    var rows := m.rows + tail;
    var index := Inserted(m.index, rows, |m.rows|, |rows|);
    forall id | id in index
      ensures 0 <= index[id] < |rows| && rows[index[id]].id == id
    {
      AppendedKey(m, tail, id);
    }
  }

  lemma AppendedEntry<V>(m: Model<V>, tail: seq<Item<V>>, r: nat)
    requires Agrees(m) && DistinctIds(tail) && forall i :: 0 <= i < |tail| ==> tail[i].id !in m.index
    requires r < |m.rows + tail|
    ensures var rows := m.rows + tail;
            var index := Inserted(m.index, rows, |m.rows|, |rows|);
            rows[r].id in index && index[rows[r].id] == r
  {
    var lo, rows := |m.rows|, m.rows + tail;
    DistinctAppended(m, tail);
    if r < lo {
      assert rows[r] == m.rows[r];
      InsertedKeeps(m.index, rows, lo, |rows|, rows[r].id);
    } else {
      InsertedHere(m.index, rows, lo, |rows|, r);
    }
  }

  lemma AppendedKey<V>(m: Model<V>, tail: seq<Item<V>>, id: int)
    requires Agrees(m) && DistinctIds(tail) && forall i :: 0 <= i < |tail| ==> tail[i].id !in m.index
    requires id in Inserted(m.index, m.rows + tail, |m.rows|, |m.rows + tail|)
    ensures var rows := m.rows + tail;
            var index := Inserted(m.index, rows, |m.rows|, |rows|);
            0 <= index[id] < |rows| && rows[index[id]].id == id
  {
    var lo, rows := |m.rows|, m.rows + tail;
    DistinctAppended(m, tail);
    if i :| lo <= i < |rows| && rows[i].id == id {
      InsertedHere(m.index, rows, lo, |rows|, i);
    } else {
      InsertedElsewhere(m.index, rows, lo, |rows|, id);
      assert rows[m.index[id]] == m.rows[m.index[id]];
    }
  }

  /** removeRows keeps the agreement exactly when it removes one row. */
  lemma RemoveRowsAgrees<V>(m: Model<V>, row: nat, count: nat)
    requires Agrees(m) && count > 0 && row + count <= |m.rows|
    ensures Agrees(AfterRemoveRows(m, row, count).0) <==> count == 1
  {
    var t := AfterRemoveRows(m, row, count).0;
    if count == 1 {
      forall r: nat | r < |t.rows|
        ensures t.rows[r].id in t.index && t.index[t.rows[r].id] == r
      {
        RowsWithout(m.rows, row, 1);
        RemovedAt(m, row, 1, t.rows[r].id);
      }
      forall id | id in t.index
        ensures 0 <= t.index[id] < |t.rows| && t.rows[t.index[id]].id == id
      {
        RemovedKey(m, row, id);
      }
    } else {
      RemovedStays(m, row, count);
    }
  }

  lemma RemovedKey<V>(m: Model<V>, row: nat, id: int)
    requires Agrees(m) && row < |m.rows| && id in AfterRemoveRows(m, row, 1).0.index
    ensures var t := AfterRemoveRows(m, row, 1).0;
            0 <= t.index[id] < |t.rows| && t.rows[t.index[id]].id == id
  {
    DistinctFromAgreement(m);
    RowsWithout(m.rows, row, 1);
    RemovedAt(m, row, 1, id);
  }

  // Of more than one row removed, the second one's id stays in the index.
  lemma RemovedStays<V>(m: Model<V>, row: nat, count: nat)
    requires Agrees(m) && count > 1 && row + count <= |m.rows|
    ensures !Agrees(AfterRemoveRows(m, row, count).0)
  {
    var t, id := AfterRemoveRows(m, row, count).0, m.rows[row + 1].id;
    RemovedAt(m, row, count, id);
    assert id in t.index;
    forall r: nat | r < |t.rows|
      ensures t.rows[r].id != id
    {
      assert t.rows[r] == m.rows[if r < row then r else r + count];
    }
  }

  lemma RemovedAt<V>(m: Model<V>, row: nat, count: nat, id: int)
    requires Agrees(m) && count > 0 && row + count <= |m.rows|
    ensures var t := AfterRemoveRows(m, row, count).0;
            && (id in t.index <==> id in m.index && id != m.rows[row].id)
            && (id in t.index ==> t.index[id] == m.index[id] - (if m.index[id] >= row + count then count else 0))
  {
    var t := AfterRemoveRows(m, row, count).0;
    DistinctFromAgreement(m);
    RowsWithout(m.rows, row, count);
    var n: int := count;
    ShiftedAt(m.index - {m.rows[row].id}, t.rows, row, |t.rows|, -n, id);
    if id in m.index && m.index[id] >= row + count {
      assert t.rows[m.index[id] - count].id == id;
    }
  }

  lemma RowsWithout<V>(rows: seq<Item<V>>, row: nat, count: nat)
    requires row + count <= |rows| && DistinctIds(rows)
    ensures var left := rows[..row] + rows[row + count..];
            && DistinctIds(left)
            && (forall r :: 0 <= r < row ==> left[r] == rows[r])
            && (forall r :: row <= r < |left| ==> left[r] == rows[r + count])
  {
    var left := rows[..row] + rows[row + count..];
    assert forall r :: 0 <= r < |left| ==> left[r] == rows[if r < row then r else r + count];
  }

  /** Replacing a row keeps the agreement exactly when its id stays or is fresh. */
  lemma SetItemAgrees<V>(m: Model<V>, row: nat, item: Item<V>)
    requires Agrees(m) && row < |m.rows|
    ensures Agrees(AfterSetItem(m, row, item).0) <==> item.id == m.rows[row].id || item.id !in m.index
  {
    var t := AfterSetItem(m, row, item).0;
    if item.id in m.index && item.id != m.rows[row].id {
      var other := m.index[item.id];
      assert t.rows[other] == m.rows[other] && t.rows[row] == item && other != row;
    }
  }

  /** So does editing one role of a row. */
  lemma SetRoleAgrees<V>(m: Model<V>, row: nat, e: Edit<V>)
    requires Agrees(m) && row < |m.rows|
    ensures Agrees(AfterSetRole(m, row, e).0) <==> (e.SetId? ==> e.id == m.rows[row].id || e.id !in m.index)
  {
    SetItemAgrees(m, row, Edited(m.rows[row], e));
    assert AfterSetRole(m, row, e).0 == AfterSetItem(m, row, Edited(m.rows[row], e)).0;
  }

  /** The by-id edit keeps the agreement exactly when it does not change an id and does not write the
      id into another row; it edits just the row it names exactly when the id is that row's
      number, or when the edit changes neither of the two rows. */
  lemma SetByIdAgrees<V>(m: Model<V>, id: int, e: Edit<V>)
    requires Agrees(m) && id in m.index && 0 <= id < |m.rows|
    ensures Agrees(AfterSetById(m, id, e).0) <==> (e.SetId? ==> e.id == id == m.index[id])
    ensures var named := m.index[id];
            AfterSetById(m, id, e).0.rows == m.rows[named := Edited(m.rows[named], e)] <==>
            named == id || (Edited(m.rows[id], e) == m.rows[id] && Edited(m.rows[named], e) == m.rows[named])
  {
    var t := AfterSetById(m, id, e).0;
    var named := m.index[id];
    EditedRow(m, id, e);
    if e.SetId? && e.id != id {
      assert t.index[id] == 0 && t.rows[id].id == e.id && t.index[e.id] == named;
      assert named != id ==> t.rows[named].id == id;
    } else if e.SetId? && named != id {
      assert t.rows[named].id == id == t.rows[id].id;
    } else {
      assert forall r :: 0 <= r < |m.rows| ==> t.rows[r].id == m.rows[r].id;
    }
  }

  lemma EditedRow<V>(m: Model<V>, id: int, e: Edit<V>)
    requires Agrees(m) && id in m.index && 0 <= id < |m.rows|
    ensures var named := m.index[id];
            AfterSetById(m, id, e).0.rows == m.rows[named := Edited(m.rows[named], e)] <==>
            named == id || (Edited(m.rows[id], e) == m.rows[id] && Edited(m.rows[named], e) == m.rows[named])
  {
    var named := m.index[id];
    var was, now, meant := m.rows, AfterSetById(m, id, e).0.rows, m.rows[named := Edited(m.rows[named], e)];
    assert now == was[id := Edited(was[id], e)];
    if named != id {
      assert now[named] == was[named] && meant[named] == Edited(was[named], e);
      assert now[id] == Edited(was[id], e) && meant[id] == was[id];
    }
  }

  // ----- Runs -----

  datatype Operation<V> =
    | Reset
    | DoInsertRows(row: int, count: int, blank: Item<V>)
    | DoInsertDataList(row: int, items: seq<Item<V>>)
    | DoInsertRange(row: int, items: seq<Item<V>>, movedFrom: V)
    | DoRemoveRows(row: int, count: int)
    | DoSetItem(row: int, item: Item<V>)
    | DoSetRole(row: int, edit: Edit<V>)
    | DoSetById(id: int, edit: Edit<V>)

  // The by-id edit reads `data[id]`, which has a meaning only inside the rows.
  predicate Defined<V>(m: Model<V>, op: Operation<V>) {
    op.DoSetById? && op.id in m.index ==> 0 <= op.id < |m.rows|
  }

  function Exec<V>(m: Model<V>, op: Operation<V>): (Model<V>, bool)
    requires Defined(m, op)
  {
    match op
    case Reset => (Empty(), true)
    case DoInsertRows(row, count, blank) => AfterInsertRows(m, row, count, blank)
    case DoInsertDataList(row, items) => AfterInsertDataList(m, row, items)
    case DoInsertRange(row, items, movedFrom) => AfterInsertRange(m, row, items, movedFrom)
    case DoRemoveRows(row, count) => AfterRemoveRows(m, row, count)
    case DoSetItem(row, item) => AfterSetItem(m, row, item)
    case DoSetRole(row, e) => AfterSetRole(m, row, e)
    case DoSetById(id, e) => AfterSetById(m, id, e)
  }

  // When an operation is not refused.
  predicate Accepted<V>(m: Model<V>, op: Operation<V>) {
    match op
    case Reset => true
    case DoInsertRows(row, count, _) => 0 <= row <= |m.rows| && count > 0
    case DoInsertDataList(row, items) => 0 <= row <= |m.rows| && items != []
    case DoInsertRange(row, items, _) => 0 <= row <= |m.rows| && CountKnown(m.index, items) < |items|
    case DoRemoveRows(row, count) => 0 <= row && row + count <= |m.rows| && count > 0
    case DoSetItem(row, _) => 0 <= row < |m.rows|
    case DoSetRole(row, e) => 0 <= row < |m.rows| && !e.Refused?
    case DoSetById(id, e) => id in m.index && !e.Refused?
  }

  // What a caller has to check before an operation that will be accepted.
  predicate Guard<V>(m: Model<V>, op: Operation<V>) {
    match op
    case Reset => true
    case DoInsertRows(row, count, blank) => count == 1 && row == 0 && |m.rows| != 1 && blank.id !in m.index
    case DoInsertDataList(row, items) => DistinctIds(items) && forall i :: 0 <= i < |items| ==> items[i].id !in m.index
    case DoInsertRange(row, items, _) =>
      row == |m.rows| && KnownFirst(m.index, items) && DistinctIds(items[CountKnown(m.index, items)..])
    case DoRemoveRows(row, count) => count == 1
    case DoSetItem(row, item) => 0 <= row < |m.rows| ==> item.id == m.rows[row].id || item.id !in m.index
    case DoSetRole(row, e) => e.SetId? && 0 <= row < |m.rows| ==> e.id == m.rows[row].id || e.id !in m.index
    case DoSetById(id, e) => e.SetId? && id in m.index ==> e.id == id == m.index[id]
  }

  lemma OperationAgrees<V>(m: Model<V>, op: Operation<V>)
    requires Agrees(m) && Defined(m, op)
    ensures Exec(m, op).1 <==> Accepted(m, op)
    ensures Agrees(Exec(m, op).0) <==> (Accepted(m, op) ==> Guard(m, op))
  {
    if Accepted(m, op) {
      match op
      case Reset =>
      case DoInsertRows(row, count, blank) => InsertRowsAgrees(m, row, count, blank);
      case DoInsertDataList(row, items) => InsertDataListAgrees(m, row, items);
      case DoInsertRange(row, items, movedFrom) => InsertRangeAgrees(m, row, items, movedFrom);
      case DoRemoveRows(row, count) => RemoveRowsAgrees(m, row, count);
      case DoSetItem(row, item) => SetItemAgrees(m, row, item);
      case DoSetRole(row, e) => SetRoleAgrees(m, row, e);
      case DoSetById(id, e) => SetByIdAgrees(m, id, e);
    }
  }

  // ----- What each operation does to the rows, values and all -----

  // `added` was put in before row `row`; what stood there moved down.
  ghost predicate PutIn<V>(was: seq<Item<V>>, now: seq<Item<V>>, row: int, added: seq<Item<V>>) {
    && 0 <= row <= |was| && |now| == |was| + |added|
    && (forall r :: 0 <= r < row ==> now[r] == was[r])
    && (forall r :: 0 <= r < |added| ==> now[row + r] == added[r])
    && (forall r :: row <= r < |was| ==> now[r + |added|] == was[r])
  }

  // `count` rows were taken out from row `row` on; what stood below moved up.
  ghost predicate TakenOut<V>(was: seq<Item<V>>, now: seq<Item<V>>, row: int, count: int) {
    && 0 <= row && 0 <= count && row + count <= |was| && |now| == |was| - count
    && (forall r :: 0 <= r < row ==> now[r] == was[r])
    && (forall r :: row + count <= r < |was| ==> now[r - count] == was[r])
  }

  // Only row `row` was written; it has this id and value now.
  ghost predicate Overwritten<V>(was: seq<Item<V>>, now: seq<Item<V>>, row: int, id: int, value: V) {
    && 0 <= row < |was| == |now|
    && (forall r :: 0 <= r < |was| && r != row ==> now[r] == was[r])
    && now[row].id == id && now[row].value == value
  }

  // An id edit keeps the value of its row, a value edit its id.
  ghost predicate RoleWritten<V>(was: seq<Item<V>>, now: seq<Item<V>>, row: int, e: Edit<V>) {
    0 <= row < |was| &&
    match e
    case SetId(id) => Overwritten(was, now, row, id, was[row].value)
    case SetValue(value) => Overwritten(was, now, row, was[row].id, value)
    case Refused => now == was
  }

  // What remove_if leaves of the input behind its added end: as many items as were unknown, the
  // known ones among them moved from.
  ghost predicate LeftBehind<V>(index: map<int, int>, items: seq<Item<V>>, movedFrom: V, left: seq<Item<V>>) {
    && |left| == |items| - CountKnown(index, items)
    && forall i :: 0 <= i < |left| ==>
         var item := items[|items| - |left| + i];
         left[i].id == item.id && left[i].value == if item.id in index then movedFrom else item.value
  }

  ghost predicate RowsDone<V>(m: Model<V>, op: Operation<V>, now: seq<Item<V>>) {
    match op
    case Reset => now == []
    case DoInsertRows(row, count, blank) => count > 0 && PutIn(m.rows, now, row, seq(count, i => blank))
    case DoInsertDataList(row, items) => PutIn(m.rows, now, row, items)
    case DoInsertRange(row, items, movedFrom) =>
      && 0 <= row <= |m.rows| <= |now|
      && var left := now[row..row + (|now| - |m.rows|)];
         LeftBehind(m.index, items, movedFrom, left) && PutIn(m.rows, now, row, left)
    case DoRemoveRows(row, count) => TakenOut(m.rows, now, row, count)
    case DoSetItem(row, item) => Overwritten(m.rows, now, row, item.id, item.value)
    case DoSetRole(row, e) => RoleWritten(m.rows, now, row, e)
    case DoSetById(id, e) => RoleWritten(m.rows, now, id, e)
  }

  /** An accepted operation puts in, takes out or overwrites just the rows it names, in order and with
      their values; a refused one changes nothing. */
  lemma OperationRows<V>(m: Model<V>, op: Operation<V>)
    requires Defined(m, op)
    ensures Accepted(m, op) ==> RowsDone(m, op, Exec(m, op).0.rows)
    ensures !Accepted(m, op) ==> Exec(m, op).0 == m
  {
    if Accepted(m, op) {
      match op
      case Reset =>
      case DoInsertRows(row, count, blank) => Spliced(m.rows, row, seq(count, i => blank));
      case DoInsertDataList(row, items) => Spliced(m.rows, row, items);
      case DoInsertRange(row, items, movedFrom) => RangeRows(m, row, items, movedFrom);
      case DoRemoveRows(row, count) => CutOut(m.rows, row, count);
      case DoSetItem(_, _) => WrittenRows(m, op);
      case DoSetRole(_, _) => WrittenRows(m, op);
      case DoSetById(_, _) => WrittenRows(m, op);
    }
  }

  lemma RangeRows<V>(m: Model<V>, row: int, items: seq<Item<V>>, movedFrom: V)
    requires Accepted(m, DoInsertRange(row, items, movedFrom))
    ensures RowsDone(m, DoInsertRange(row, items, movedFrom), AfterInsertRange(m, row, items, movedFrom).0.rows)
  {
    var left := Tail(m.index, items, movedFrom);
    TailLeft(m.index, items, movedFrom);
    Spliced(m.rows, row, left);
    assert AfterInsertRange(m, row, items, movedFrom).0.rows[row..row + |left|] == left;
  }

  lemma WrittenRows<V>(m: Model<V>, op: Operation<V>)
    requires Defined(m, op) && Accepted(m, op) && (op.DoSetItem? || op.DoSetRole? || op.DoSetById?)
    ensures RowsDone(m, op, Exec(m, op).0.rows)
  {
  }

  lemma TailLeft<V>(index: map<int, int>, items: seq<Item<V>>, movedFrom: V)
    ensures LeftBehind(index, items, movedFrom, Tail(index, items, movedFrom))
  {
    var k, left := CountKnown(index, items), Tail(index, items, movedFrom);
    assert forall i :: 0 <= i < |left| ==> left[i] == AfterMove(index, items[k + i], movedFrom);
  }

  lemma Spliced<V>(rows: seq<Item<V>>, row: nat, added: seq<Item<V>>)
    requires row <= |rows|
    ensures PutIn(rows, rows[..row] + added + rows[row..], row, added)
  {
  }

  lemma CutOut<V>(rows: seq<Item<V>>, row: nat, count: nat)
    requires row + count <= |rows|
    ensures TakenOut(rows, rows[..row] + rows[row + count..], row, count)
  {
  }

  /** Setting a value at the row of an id, as the controllers do, changes the value of that row and
      nothing else: looking the id up finds the row with the new value. */
  lemma ValueSetById<V>(m: Model<V>, id: int, value: V)
    requires Agrees(m) && Lookup(m, id).Some?
    ensures var row := Lookup(m, id).value;
            var (t, ok) := AfterSetRole(m, row, SetValue(value));
            && ok && Agrees(t) && Overwritten(m.rows, t.rows, row, id, value)
            && Scan(t.rows, id) == Some(row)
  {
    var row := Lookup(m, id).value;
    var t := AfterSetRole(m, row, SetValue(value)).0;
    SetRoleAgrees(m, row, SetValue(value));
    AgreementMakesLookupAScan(t, id);
  }

  /** Replacing the item at the row of an id, or giving it another id, leaves the old id without a row
      and the new one with that row. */
  lemma ItemSetById<V>(m: Model<V>, id: int, item: Item<V>)
    requires Agrees(m) && Lookup(m, id).Some? && item.id !in m.index
    ensures var row := Lookup(m, id).value;
            var (t, ok) := AfterSetItem(m, row, item);
            && ok && Agrees(t) && Overwritten(m.rows, t.rows, row, item.id, item.value)
            && Scan(t.rows, id) == None && Scan(t.rows, item.id) == Some(row)
    ensures var row := Lookup(m, id).value;
            var (t, ok) := AfterSetRole(m, row, SetId(item.id));
            && ok && Agrees(t) && Overwritten(m.rows, t.rows, row, item.id, m.rows[row].value)
            && Scan(t.rows, id) == None && Scan(t.rows, item.id) == Some(row)
  {
    var row := Lookup(m, id).value;
    ReplacedAt(m, row, item);
    ReplacedAt(m, row, Item(item.id, m.rows[row].value));
    var t := AfterSetRole(m, row, SetId(item.id)).0;
    assert t == AfterSetItem(m, row, Item(item.id, m.rows[row].value)).0;
  }

  lemma ReplacedAt<V>(m: Model<V>, row: nat, item: Item<V>)
    requires Agrees(m) && row < |m.rows| && item.id !in m.index
    ensures var t := AfterSetItem(m, row, item).0;
            Agrees(t) && Scan(t.rows, m.rows[row].id) == None && Scan(t.rows, item.id) == Some(row)
  {
    SetItemAgrees(m, row, item);
    var t := AfterSetItem(m, row, item).0;
    AgreementMakesLookupAScan(t, m.rows[row].id);
    AgreementMakesLookupAScan(t, item.id);
  }

  // The by-id edit that changes an id leaves the erased key behind, pointing at row zero.
  lemma ByIdLeavesKey<V>(m: Model<V>, id: int, newId: int)
    requires id in m.index && 0 <= id < |m.rows| && newId != id
    ensures var t := AfterSetById(m, id, SetId(newId)).0;
            id in t.index && t.index[id] == 0 && newId in t.index && t.index[newId] == m.index[id]
  {
  }

  predicate Legal<V>(m: Model<V>, ops: seq<Operation<V>>)
    decreases |ops|
  {
    ops == [] || (Defined(m, ops[0]) && Legal(Exec(m, ops[0]).0, ops[1..]))
  }

  ghost predicate AlwaysAgrees<V>(m: Model<V>, ops: seq<Operation<V>>)
    requires Legal(m, ops)
    decreases |ops|
  {
    Agrees(m) && (ops == [] || AlwaysAgrees(Exec(m, ops[0]).0, ops[1..]))
  }

  predicate AlwaysGuarded<V>(m: Model<V>, ops: seq<Operation<V>>)
    requires Legal(m, ops)
    decreases |ops|
  {
    ops == [] ||
    ((Accepted(m, ops[0]) ==> Guard(m, ops[0])) && AlwaysGuarded(Exec(m, ops[0]).0, ops[1..]))
  }

  /** Through a whole run the index agrees with the rows exactly when every accepted operation of the
      run met its guard. */
  lemma {:induction false} RunAgrees<V>(m: Model<V>, ops: seq<Operation<V>>)
    requires Agrees(m) && Legal(m, ops)
    ensures AlwaysAgrees(m, ops) <==> AlwaysGuarded(m, ops)
    decreases |ops|
  {
    if ops != [] {
      OperationAgrees(m, ops[0]);
      if Agrees(Exec(m, ops[0]).0) { RunAgrees(Exec(m, ops[0]).0, ops[1..]); }
    }
  }

  // How far remove_if has come: `k` items seen, `first` of them known and moved to the front.
  ghost predicate Compacted<V>(index: map<int, int>, was: seq<Item<V>>, now: seq<Item<V>>, first: nat, k: nat,
                               movedFrom: V)
  {
    && first <= k <= |was| == |now|
    && first == CountKnown(index, was[..k])
    && (forall p :: first <= p < k ==> now[p] == AfterMove(index, was[p], movedFrom))
    && (forall p :: k <= p < |was| ==> now[p] == was[p])
  }

  lemma CountStep<V>(index: map<int, int>, items: seq<Item<V>>, k: nat)
    requires k < |items|
    ensures CountKnown(index, items[..k + 1]) ==
            CountKnown(index, items[..k]) + (if Known(index, items[k]) then 1 else 0)
  {
    assert items[..k + 1][..k] == items[..k];
  }

  lemma CompactStep<V>(index: map<int, int>, was: seq<Item<V>>, now: seq<Item<V>>, first: nat, k: nat, movedFrom: V)
    requires Compacted(index, was, now, first, k, movedFrom) && first < k < |was|
    ensures if Known(index, was[k])
            then Compacted(index, was, now[first := was[k]][k := was[k].(value := movedFrom)], first + 1, k + 1,
                           movedFrom)
            else Compacted(index, was, now, first, k + 1, movedFrom)
  {
    CountStep(index, was, k);
  }

  lemma TailOfCompacted<V>(index: map<int, int>, was: seq<Item<V>>, now: seq<Item<V>>, first: nat, movedFrom: V)
    requires Compacted(index, was, now, first, |was|, movedFrom)
    ensures first == CountKnown(index, was) && now[first..] == Tail(index, was, movedFrom)
  {
    assert was[..|was|] == was;
    var tail := Tail(index, was, movedFrom);
    forall i | 0 <= i < |tail|
      ensures now[first..][i] == tail[i]
    {
      assert now[first + i] == AfterMove(index, was[first + i], movedFrom);
    }
  }

  // ----- The class -----

  class IdentifyingModel<V> {
    var data: seq<Item<V>>
    var index: map<int, int>

    function State(): Model<V>
      reads this
    {
      Model(data, index)
    }

    constructor ()
      ensures State() == Empty()
    {
      data, index := [], map[];
    }

    method Reset()
      modifies this
      ensures State() == Empty()
    {
      data, index := [], map[];
    }

    method IdToIndex(id: int) returns (row: Option<nat>)
      ensures row == Lookup(State(), id)
      ensures Agrees(State()) ==> row == Scan(data, id)
    {
      if Agrees(State()) { AgreementMakesLookupAScan(State(), id); }
      row := None;
      if id in index && 0 <= index[id] < |data| {
        row := Some(index[id]);
      }
    }

    // The shifting loop that three of the operations share.
    method ShiftFrom(row: nat, delta: int)
      requires row <= |data|
      modifies this`index
      ensures index == Shifted(old(index), data, row, |data|, delta)
    {
      for i := row to |data|
        invariant index == Shifted(old(index), data, row, i, delta)
      {
        index := index[data[i].id := At(index, data[i].id) + delta];
      }
    }

    method InsertRows(row: int, count: int, blank: Item<V>) returns (ok: bool)
      modifies this
      ensures (State(), ok) == AfterInsertRows(old(State()), row, count, blank)
    {
      if row < 0 || row > |data| || count <= 0 {
        return false;
      }
      if row + count < |data| {
        ShiftFrom(row, count);
      }
      ghost var shifted := index;
      data := data[..row] + seq(count, i => blank) + data[row..];
      ghost var rows := data;
      var i := row;
      while i < count
        invariant data == rows
        invariant row <= i <= if row < count then count else row
        invariant index == Written(shifted, data, row, i, 0)
      {
        index := index[data[i].id := i];
        i := i + 1;
      }
      return true;
    }

    method InsertDataList(row: int, items: seq<Item<V>>) returns (ok: bool)
      modifies this
      ensures (State(), ok) == AfterInsertDataList(old(State()), row, items)
    {
      if row < 0 || row > |data| || |items| <= 0 {
        return false;
      }
      if row < |data| {
        ShiftFrom(row, |items|);
      }
      ghost var shifted := index;
      ghost var rows := data;
      for i := 0 to |items|
        invariant data == rows
        invariant index == Written(shifted, items, 0, i, row)
      {
        index := index[items[i].id := row + i];
      }
      data := data[..row] + items + data[row..];
      return true;
    }

    // The second phase of remove_if: item `start` is the first unknown one.
    method MoveKnown(items: array<Item<V>>, start: nat, movedFrom: V) returns (first: nat)
      requires start < items.Length && Compacted(index, items[..], items[..], start, start + 1, movedFrom)
      modifies items
      ensures Compacted(index, old(items[..]), items[..], first, items.Length, movedFrom)
    {
      ghost var was := items[..];
      first := start;
      for k := start + 1 to items.Length
        invariant first < k
        invariant Compacted(index, was, items[..], first, k, movedFrom)
      {
        ghost var now := items[..];
        CompactStep(index, was, now, first, k, movedFrom);
        if items[k].id in index {
          items[first] := items[k];
          items[k] := items[k].(value := movedFrom);
          assert items[..] == now[first := was[k]][k := was[k].(value := movedFrom)];
          first := first + 1;
        }
      }
    }

    // remove_if over the input range, keeping the items whose ids are known.
    method RemoveUnknown(items: array<Item<V>>, movedFrom: V) returns (first: nat)
      modifies items
      ensures first == CountKnown(index, old(items[..]))
      ensures items[first..] == Tail(index, old(items[..]), movedFrom)
    {
      ghost var was := items[..];
      first := 0;
      while first < items.Length && items[first].id in index
        invariant first <= items.Length
        invariant items[..] == was && first == CountKnown(index, was[..first])
      {
        CountStep(index, was, first);
        first := first + 1;
      }
      if first < items.Length {
        CountStep(index, was, first);
        first := MoveKnown(items, first, movedFrom);
      }
      TailOfCompacted(index, was, items[..], first, movedFrom);
      assert items[first..] == items[..][first..];
    }

    method InsertRange(row: int, items: array<Item<V>>, movedFrom: V) returns (ok: bool)
      modifies this, items
      ensures (State(), ok) == AfterInsertRange(old(State()), row, old(items[..]), movedFrom)
    {
      var first := RemoveUnknown(items, movedFrom);
      var distance := items.Length - first - 1;
      if row > |data| || row < 0 || distance < 0 {
        return false;
      }
      data := data[..row] + items[first..] + data[row..];
      IndexNew(row, row + distance + 1);
      return true;
    }

    method IndexNew(lo: nat, hi: nat)
      requires lo <= hi <= |data|
      modifies this`index
      ensures index == Inserted(old(index), data, lo, hi)
    {
      for i := lo to hi
        invariant index == Inserted(old(index), data, lo, i)
      {
        if data[i].id !in index {
          index := index[data[i].id := i];
        }
      }
    }

    method RemoveRows(row: int, count: int) returns (ok: bool)
      modifies this
      ensures (State(), ok) == AfterRemoveRows(old(State()), row, count)
    {
      if row < 0 || row + count > |data| || count <= 0 {
        return false;
      }
      index := index - {data[row].id};
      data := data[..row] + data[row + count..];
      ShiftFrom(row, -count);
      return true;
    }

    method SetItem(row: int, item: Item<V>) returns (ok: bool)
      modifies this
      ensures (State(), ok) == AfterSetItem(old(State()), row, item)
    {
      if row < 0 || row >= |data| {
        return false;
      }
      var oldId := data[row].id;
      if oldId != item.id {
        index := index[item.id := row];
        if oldId in index {
          index := index - {oldId};
        }
        assert index == old(index)[item.id := row] - {oldId};
      }
      data := data[row := item];
      return true;
    }

    method SetRole(row: int, e: Edit<V>) returns (ok: bool)
      modifies this
      ensures (State(), ok) == AfterSetRole(old(State()), row, e)
    {
      if row < 0 || row >= |data| || e.Refused? {
        return false;
      }
      var lastId := data[row].id;
      data := data[row := Edited(data[row], e)];
      if e.SetId? && lastId != e.id {
        index := index[e.id := row];
        index := index - {lastId};
      }
      return true;
    }

    method SetById(id: int, e: Edit<V>) returns (ok: bool)
      requires Defined(State(), DoSetById(id, e))
      modifies this
      ensures (State(), ok) == AfterSetById(old(State()), id, e)
    {
      if id !in index || e.Refused? {
        return false;
      }
      data := data[id := Edited(data[id], e)];
      if e.SetId? && e.id != id {
        index := index[e.id := index[id]];
        index := index - {id};
      }
      if id !in index {
        index := index[id := 0];
      }
      return true;
    }
  }
}
