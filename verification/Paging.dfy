/**
 Loading the history of a room page by page, from app/qml/MessagesView.qml through
 MessageController.load to insertRange. The server is a sequence of messages, oldest first; it
 may take the upper bound of a request as exclusive or as inclusive.
 */
module Paging {
  import opened RowIndex

  function Reversed<T>(s: seq<T>): (r: seq<T>)
    ensures |r| == |s| && forall i :: 0 <= i < |s| ==> r[i] == s[|s| - 1 - i]
  {
    seq(|s|, i requires 0 <= i < |s| => s[|s| - 1 - i])
  }

  function Fetched<V>(server: seq<Item<V>>, from: nat, to: nat, inclusive: bool): seq<Item<V>>
    requires from <= to <= |server|
  {
    server[from..if inclusive && to < |server| then to + 1 else to]
  }

  // Rows are newest first; `k` is the oldest message shown.
  ghost predicate Shows<V>(m: Model<V>, server: seq<Item<V>>, k: nat) {
    k <= |server| && DistinctIds(server) && Agrees(m) && m.rows == Reversed(server[k..])
  }

  lemma KnownIsShown<V>(m: Model<V>, server: seq<Item<V>>, k: nat, i: nat)
    requires Shows(m, server, k) && i < |server|
    ensures Known(m.index, server[i]) <==> i >= k
  {
    forall r | 0 <= r < |server| - k
      ensures m.rows[r] == server[|server| - 1 - r]
    {
    }
    if i >= k {
      assert m.rows[|server| - 1 - i] == server[i];
    }
  }

  lemma CountOfFront<V>(index: map<int, int>, items: seq<Item<V>>, k: nat)
    requires k <= |items|
    requires forall i :: 0 <= i < |items| ==> (Known(index, items[i]) <==> i < k)
    ensures CountKnown(index, items) == k && KnownFirst(index, items)
  {
    CountSplits(index, items, k);
    NoneKnown(index, items[k..]);
    CountIsFull(index, items[..k]);
  }

  // Of a page that reaches down from what is shown, the shown part comes first.
  lemma PageTail<V>(m: Model<V>, server: seq<Item<V>>, k: nat, from: nat, end: nat, movedFrom: V)
    requires Shows(m, server, k) && from <= end <= |server| && k <= end
    ensures var page := Reversed(server[from..end]);
            Tail(m.index, page, movedFrom) == if from < k then Reversed(server[from..k]) else []
  {
    var page := Reversed(server[from..end]);
    var shown := if from < k then end - k else |page|;
    PageKnown(m, server, k, from, end);
    CountOfFront(m.index, page, shown);
    TailIsFresh(m.index, page, movedFrom);
    if from < k { RestOfPage(server, from, k, end); }
  }

  lemma RestOfPage<V>(server: seq<Item<V>>, from: nat, k: nat, end: nat)
    requires from <= k <= end <= |server|
    ensures Reversed(server[from..end])[end - k..] == Reversed(server[from..k])
  {
  }

  lemma PageKnown<V>(m: Model<V>, server: seq<Item<V>>, k: nat, from: nat, end: nat)
    requires Shows(m, server, k) && from <= end <= |server| && k <= end
    ensures var page := Reversed(server[from..end]);
            forall i :: 0 <= i < |page| ==> (Known(m.index, page[i]) <==> i < if from < k then end - k else |page|)
  {
    var page := Reversed(server[from..end]);
    forall i | 0 <= i < |page|
      ensures page[i] == server[end - 1 - i]
      ensures Known(m.index, page[i]) <==> i < if from < k then end - k else |page|
    {
      KnownIsShown(m, server, k, end - 1 - i);
    }
  }

  lemma OlderAppended<V>(m: Model<V>, server: seq<Item<V>>, k: nat, from: nat)
    requires Shows(m, server, k) && from < k
    ensures Shows(WithTail(m, |m.rows|, Reversed(server[from..k])), server, from)
  {
    var tail := Reversed(server[from..k]);
    OlderIsFresh(m, server, k, from);
    TailAgrees(m, |m.rows|, tail);
    AppendedRows(m, tail);
    Joined(server, from, k);
  }

  lemma OlderIsFresh<V>(m: Model<V>, server: seq<Item<V>>, k: nat, from: nat)
    requires Shows(m, server, k) && from < k
    ensures var tail := Reversed(server[from..k]);
            DistinctIds(tail) && forall i :: 0 <= i < |tail| ==> tail[i].id !in m.index
  {
    var tail := Reversed(server[from..k]);
    forall i | 0 <= i < |tail|
      ensures tail[i] == server[k - 1 - i] && tail[i].id !in m.index
    {
      KnownIsShown(m, server, k, k - 1 - i);
    }
  }

  lemma Joined<T>(s: seq<T>, from: nat, k: nat)
    requires from <= k <= |s|
    ensures Reversed(s[k..]) + Reversed(s[from..k]) == Reversed(s[from..])
  {
  }

  /** One page extends what is shown down to its lower bound, whatever of it was shown before. */
  lemma PageExtends<V>(m: Model<V>, server: seq<Item<V>>, k: nat, from: nat, to: nat, inclusive: bool, movedFrom: V)
    requires Shows(m, server, k) && from <= to <= |server| && k <= to
    ensures var page := Reversed(Fetched(server, from, to, inclusive));
            Shows(AfterInsertRange(m, |m.rows|, page, movedFrom).0, server, if from < k then from else k)
  {
    PageTail(m, server, k, from, if inclusive && to < |server| then to + 1 else to, movedFrom);
    if from < k { OlderAppended(m, server, k, from); }
  }

  // ceil(total / size)
  predicate PagesFor(pages: nat, total: nat, size: nat) {
    total <= pages * size && (pages > 0 ==> (pages - 1) * size < total)
  }

  function LeftAfter(pages: nat, total: nat, size: nat): nat {
    if pages == 0 then total
    else if LeftAfter(pages - 1, total, size) > size then LeftAfter(pages - 1, total, size) - size
    else 0
  }

  lemma {:induction false} LeftAfterPages(pages: nat, total: nat, size: nat)
    ensures LeftAfter(pages, total, size) == if pages * size < total then total - pages * size else 0
  {
    if pages > 0 {
      LeftAfterPages(pages - 1, total, size);
      assert pages * size == (pages - 1) * size + size;
    }
  }

  class MessagesView<V> {
    var topLoaded: nat
    const uploadCount: nat
    const model: IdentifyingModel<V>

    constructor (messageCount: nat, uploadCount: nat, model: IdentifyingModel<V>)
      ensures topLoaded == messageCount && this.uploadCount == uploadCount && this.model == model
    {
      this.topLoaded, this.uploadCount, this.model := messageCount, uploadCount, model;
    }

    method LoadMessages(server: seq<Item<V>>, inclusive: bool, movedFrom: V)
      requires topLoaded <= |server|
      modifies this, model
      ensures topLoaded == if old(topLoaded) > uploadCount then old(topLoaded) - uploadCount else 0
      ensures model.State() == AfterInsertRange(old(model.State()), |old(model.data)|,
                                 Reversed(Fetched(server, topLoaded, old(topLoaded), inclusive)), movedFrom).0
    {
      var from := if topLoaded > uploadCount then topLoaded - uploadCount else 0;
      var page := Reversed(Fetched(server, from, topLoaded, inclusive));
      var items := new Item<V>[|page|](i requires 0 <= i < |page| => page[i]);
      assert items[..] == page;
      var _ := model.InsertRange(|model.data|, items, movedFrom);
      topLoaded := from;
    }

    // The same load, seen from what the model shows.
    method LoadShown(server: seq<Item<V>>, inclusive: bool, movedFrom: V, ghost k: nat) returns (ghost shown: nat)
      requires k <= topLoaded <= |server| && Shows(model.State(), server, k)
      modifies this, model
      ensures topLoaded == if old(topLoaded) > uploadCount then old(topLoaded) - uploadCount else 0
      ensures shown <= topLoaded && Shows(model.State(), server, shown)
    {
      ghost var from: nat := if topLoaded > uploadCount then topLoaded - uploadCount else 0;
      PageExtends(model.State(), server, k, from, topLoaded, inclusive, movedFrom);
      LoadMessages(server, inclusive, movedFrom);
      shown := if from < k then from else k;
    }

    /** Scrolling to the top ends after ceil(messageCount / uploadCount) loads with every message
        once, newest first, for either reading of the upper bound and whatever newest part of
        the history the room's model already showed. */
    method LoadAll(server: seq<Item<V>>, inclusive: bool, movedFrom: V, ghost shown: nat) returns (loads: nat)
      requires uploadCount > 0 && topLoaded == |server| && Shows(model.State(), server, shown)
      modifies this, model
      ensures topLoaded == 0 && Agrees(model.State()) && model.data == Reversed(server)
      ensures PagesFor(loads, |server|, uploadCount)
    {
      loads := 0;
      ghost var k: nat := shown;
      while topLoaded > 0
        invariant k <= topLoaded <= |server| && Shows(model.State(), server, k)
        invariant topLoaded == LeftAfter(loads, |server|, uploadCount)
        invariant loads > 0 ==> LeftAfter(loads - 1, |server|, uploadCount) > 0
      {
        k := LoadShown(server, inclusive, movedFrom, k);
        loads := loads + 1;
      }
      LeftAfterPages(loads, |server|, uploadCount);
      if loads > 0 { LeftAfterPages(loads - 1, |server|, uploadCount); }
      assert server[0..] == server;
    }
  }
}
