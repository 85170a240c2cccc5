/**
 Optimistic sending in lib/network/controllers/messagecontroller.cpp: a message is shown at once
 under a negative temporary id, and the server's reply replaces that row. Replies arrive in any
 order, between sends, broadcasts and loaded history pages.
 */
module MessageHistory {
  import opened Common
  import opened RowIndex

  const INVALID_ID := 0
  // -1 stored in an unsigned 32-bit field
  const NO_MESSAGE_INDEX := 0xFFFF_FFFF

  datatype Content = Content(userID: int, body: string, time: int, messageIndex: int)

  type Message = Item<Content>
  type Room = Model<Content>

  const BLANK: Message := Item(INVALID_ID, Content(0, "", 0, 0))

  datatype Request = Request(roomID: int, content: Content)

  // A page on its way, and the row that the view gave for it when it asked.
  datatype Load = Load(roomID: int, row: int)

  datatype History = History(
    rooms: map<int, Room>,
    counter: int,
    pending: map<int, Request>,   // by temporary id
    loads: map<nat, Load>,        // by request number
    asked: nat)

  function Start(): History {
    History(map[], 1, map[], map[], 0)
  }

  function RoomOf(h: History, roomID: int): Room {
    if roomID in h.rooms then h.rooms[roomID] else Empty()
  }

  function Composed(body: string, user: int, time: int): Content {
    Content(user, body, time, NO_MESSAGE_INDEX)
  }

  // The five role edits of a new row, after insertRow(0).
  function Fill(m: Room, temp: int, c: Content): Room {
    var m1 := AfterSetRole(m, 0, SetValue(BLANK.value.(body := c.body))).0;
    var m2 := AfterSetRole(m1, 0, SetId(temp)).0;
    var m3 := AfterSetRole(m2, 0, SetValue(BLANK.value.(body := c.body, userID := c.userID))).0;
    var m4 := AfterSetRole(m3, 0, SetValue(c.(messageIndex := 0))).0;
    AfterSetRole(m4, 0, SetValue(c)).0
  }

  function Create(h: History, roomID: int, c: Content): History {
    var temp := -(h.counter + 1);
    var inserted := AfterInsertRows(RoomOf(h, roomID), 0, 1, BLANK).0;
    h.(rooms := h.rooms[roomID := Fill(inserted, temp, c)],
       counter := h.counter + 1,
       pending := h.pending[temp := Request(roomID, c)])
  }

  // The continuation of a request; its second part is the id that the caller's future gets.
  function OnReply(h: History, temp: int, data: Message): (History, int)
    requires temp in h.pending
  {
    var roomID := h.pending[temp].roomID;
    var m := RoomOf(h, roomID);
    var done := h.(pending := h.pending - {temp});
    match Lookup(m, temp)
    case Some(row) => (done.(rooms := h.rooms[roomID := AfterSetItem(m, row, data).0]), data.id)
    case None => (done, INVALID_ID)
  }

  function OnBroadcast(h: History, roomID: int, data: Message): History {
    if data.id == INVALID_ID || roomID == INVALID_ID then h
    else h.(rooms := h.rooms[roomID := AfterInsertDataList(RoomOf(h, roomID), 0, [data]).0])
  }

  // model(): the room is there afterwards.
  function Opened(h: History, roomID: int): History {
    h.(rooms := h.rooms[roomID := RoomOf(h, roomID)])
  }

  function Asked(h: History, roomID: int, row: int): History {
    h.(loads := h.loads[h.asked := Load(roomID, row)], asked := h.asked + 1)
  }

  // The continuation of load: a page goes where it was asked for.
  function OnPage(h: History, k: nat, page: seq<Message>): (History, bool)
    requires k in h.loads && h.loads[k].roomID in h.rooms
  {
    var roomID := h.loads[k].roomID;
    var (m, ok) := AfterInsertRange(h.rooms[roomID], h.loads[k].row, page, BLANK.value);
    (h.(rooms := h.rooms[roomID := m], loads := h.loads - {k}), ok)
  }

  // A message sent is on top of the rows that were there.
  lemma SentRows(m: Room, temp: int, c: Content)
    ensures Fill(AfterInsertRows(m, 0, 1, BLANK).0, temp, c).rows == [Item(temp, c)] + m.rows
  {
    assert AfterInsertRows(m, 0, 1, BLANK).0.rows == [BLANK] + m.rows;
  }

  class CallerController {
    var history: map<int, Room>
    var tempMessageCounter: int
    ghost var pending: map<int, Request>
    ghost var loads: map<nat, Load>
    ghost var asked: nat

    ghost function State(): History
      reads this
    {
      History(history, tempMessageCounter, pending, loads, asked)
    }

    constructor ()
      ensures State() == Start()
    {
      history, tempMessageCounter, pending, loads, asked := map[], 1, map[], map[], 0;
    }

    method CreateMessage(body: string, roomID: int, user: int, time: int) returns (temp: int)
      modifies this
      ensures State() == Create(old(State()), roomID, Composed(body, user, time))
      ensures temp == -(old(tempMessageCounter) + 1) == -tempMessageCounter
      ensures roomID in history && |history[roomID].rows| > 0
      ensures history[roomID].rows[0].id == temp
      ensures var shown := history[roomID].rows[0].value;
              shown.userID == user && shown.body == body && shown.time == time && shown.messageIndex == 0xFFFF_FFFF
      ensures history[roomID].rows[1..] == if roomID in old(history) then old(history)[roomID].rows else []
      ensures temp in pending && pending[temp] == Request(roomID, history[roomID].rows[0].value)
    {
      SentRows(RoomOf(State(), roomID), -(tempMessageCounter + 1), Composed(body, user, time));
      if roomID !in history {
        history := history[roomID := Empty()];
      }
      var (inserted, _) := AfterInsertRows(history[roomID], 0, 1, BLANK);
      tempMessageCounter := tempMessageCounter + 1;
      temp := -tempMessageCounter;
      var c := Composed(body, user, time);
      history := history[roomID := Fill(inserted, temp, c)];
      pending := pending[temp := Request(roomID, c)];
    }

    method HandleReply(temp: int, roomID: int, data: Message) returns (id: int)
      requires temp in pending && pending[temp].roomID == roomID
      modifies this
      ensures (State(), id) == OnReply(old(State()), temp, data)
    {
      id := INVALID_ID;
      pending := pending - {temp};
      if roomID in history {
        match Lookup(history[roomID], temp)
        case None =>
        case Some(row) =>
          var (replaced, _) := AfterSetItem(history[roomID], row, data);
          history := history[roomID := replaced];
          id := data.id;
      }
    }

    method HandleBroadcast(roomID: int, data: Message)
      modifies this
      ensures State() == OnBroadcast(old(State()), roomID, data)
    {
      if data.id == INVALID_ID || roomID == INVALID_ID {
        return;
      }
      if roomID !in history {
        history := history[roomID := Empty()];
      }
      var (inserted, _) := AfterInsertDataList(history[roomID], 0, [data]);
      history := history[roomID := inserted];
    }

    method OpenModel(roomID: int)
      modifies this
      ensures State() == Opened(old(State()), roomID)
    {
      if roomID !in history {
        history := history[roomID := Empty()];
      }
      assert history == Opened(old(State()), roomID).rooms;
    }

    // What load captures for its continuation, under the number that only the model gives it.
    method LoadPage(roomID: int, row: int) returns (ghost k: nat)
      modifies this
      ensures State() == Asked(old(State()), roomID, row) && k == old(asked)
    {
      k := asked;
      loads, asked := loads[k := Load(roomID, row)], asked + 1;
    }

    method HandlePage(ghost k: nat, roomID: int, row: int, page: seq<Message>) returns (ok: bool)
      requires k in loads && loads[k] == Load(roomID, row) && roomID in history
      modifies this
      ensures (State(), ok) == OnPage(old(State()), k, page)
    {
      var (m, inserted) := AfterInsertRange(history[roomID], row, page, BLANK.value);
      history := history[roomID := m];
      loads := loads - {k};
      ok := inserted;
    }
  }

  // ----- Runs -----

  datatype Step =
    | Open(roomID: int)
    | Send(roomID: int, content: Content)
    | Reply(temp: int, data: Message)
    | Broadcast(roomID: int, data: Message)
    | Ask(roomID: int)
    | Arrive(k: nat, page: seq<Message>)

  // The server numbers messages from one on and answers a request at most once; the view asks only
  // for a room that it has opened.
  predicate Enabled(h: History, step: Step) {
    match step
    case Open(_) => true
    case Send(_, _) => true
    case Reply(temp, data) => temp in h.pending && data.id > 0
    case Broadcast(_, data) => data.id >= INVALID_ID
    case Ask(roomID) => roomID in h.rooms
    case Arrive(k, page) =>
      k in h.loads && h.loads[k].roomID in h.rooms && forall i :: 0 <= i < |page| ==> page[i].id > 0
  }

  function Do(h: History, step: Step): History
    requires Enabled(h, step)
  {
    match step
    case Open(roomID) => Opened(h, roomID)
    case Send(roomID, c) => Create(h, roomID, c)
    case Reply(temp, data) => OnReply(h, temp, data).0
    case Broadcast(roomID, data) => OnBroadcast(h, roomID, data)
    case Ask(roomID) => Asked(h, roomID, |h.rooms[roomID].rows|)
    case Arrive(k, page) => OnPage(h, k, page).0
  }

  predicate Legal(h: History, steps: seq<Step>)
    decreases |steps|
  {
    steps == [] || (Enabled(h, steps[0]) && Legal(Do(h, steps[0]), steps[1..]))
  }

  function Run(h: History, steps: seq<Step>): History
    requires Legal(h, steps)
    decreases |steps|
  {
    if steps == [] then h else Run(Do(h, steps[0]), steps[1..])
  }

  ghost predicate AllAgree(h: History) {
    forall roomID :: roomID in h.rooms ==> Agrees(h.rooms[roomID])
  }

  ghost predicate AlwaysAgree(h: History, steps: seq<Step>)
    requires Legal(h, steps)
    decreases |steps|
  {
    AllAgree(h) && (steps == [] || AlwaysAgree(Do(h, steps[0]), steps[1..]))
  }

  // The page is not refused: its row is one of the room or its end, and something of it is unknown.
  predicate PageAccepted(h: History, k: nat, page: seq<Message>)
    requires k in h.loads
  {
    var m := RoomOf(h, h.loads[k].roomID);
    0 <= h.loads[k].row <= |m.rows| && CountKnown(m.index, page) < |page|
  }

  // The page's row is no longer the end of its room.
  predicate Late(h: History, k: nat)
    requires k in h.loads
  {
    h.loads[k].row != |RoomOf(h, h.loads[k].roomID).rows|
  }

  // The client's part: no message into a room of one row, and no accepted page that comes late.
  predicate ClientKeeps(h: History, step: Step)
    requires Enabled(h, step)
  {
    match step
    case Send(roomID, _) => |RoomOf(h, roomID).rows| != 1
    case Arrive(k, page) => PageAccepted(h, k, page) ==> !Late(h, k)
    case _ => true
  }

  // The server's part: ids new to the room, and pages with the known messages first and no repeats.
  predicate ServerKeeps(h: History, step: Step)
    requires Enabled(h, step)
  {
    match step
    case Reply(temp, data) => data.id !in RoomOf(h, h.pending[temp].roomID).index
    case Broadcast(roomID, data) =>
      roomID == INVALID_ID || data.id == INVALID_ID || data.id !in RoomOf(h, roomID).index
    case Arrive(k, page) =>
      var index := h.rooms[h.loads[k].roomID].index;
      PageAccepted(h, k, page) ==> KnownFirst(index, page) && DistinctIds(page[CountKnown(index, page)..])
    case _ => true
  }

  predicate AlwaysKept(h: History, steps: seq<Step>)
    requires Legal(h, steps)
    decreases |steps|
  {
    steps == [] ||
    (ClientKeeps(h, steps[0]) && ServerKeeps(h, steps[0]) && AlwaysKept(Do(h, steps[0]), steps[1..]))
  }

  function Ids(rows: seq<Message>): set<int> {
    set item | item in rows :: item.id
  }

  // The rows that a step moves down without moving their index entries.
  function Strands(h: History, step: Step): set<int>
    requires Enabled(h, step)
  {
    match step
    case Send(roomID, _) => if |RoomOf(h, roomID).rows| == 1 then Ids(RoomOf(h, roomID).rows) else {}
    case Arrive(k, page) =>
      if PageAccepted(h, k, page) then Ids(h.rooms[h.loads[k].roomID].rows[h.loads[k].row..]) else {}
    case _ => {}
  }

  // No reply comes for a stranded temporary id; `stranded` are those so far.
  predicate NoStrandedReply(h: History, stranded: set<int>, steps: seq<Step>)
    requires Legal(h, steps)
    decreases |steps|
  {
    steps == [] ||
    (!(steps[0].Reply? && steps[0].temp in stranded) &&
     NoStrandedReply(Do(h, steps[0]), stranded + Strands(h, steps[0]), steps[1..]))
  }

  // The reply replaces the row of its own message, as it was sent, and nothing else; the caller gets
  // the server's id.
  ghost predicate ReplacesOwnRow(h: History, temp: int, data: Message)
    requires temp in h.pending
  {
    var roomID := h.pending[temp].roomID;
    var (t, id) := OnReply(h, temp, data);
    && id == data.id && roomID in h.rooms && roomID in t.rooms
    && t.rooms == h.rooms[roomID := t.rooms[roomID]]
    && exists r: nat :: r < |h.rooms[roomID].rows| &&
         h.rooms[roomID].rows[r] == Item(temp, h.pending[temp].content) &&
         t.rooms[roomID].rows == h.rooms[roomID].rows[r := data]
  }

  ghost predicate RepliesRight(h: History, steps: seq<Step>)
    requires Legal(h, steps)
    decreases |steps|
  {
    steps == [] ||
    ((steps[0].Reply? ==> ReplacesOwnRow(h, steps[0].temp, steps[0].data)) &&
     RepliesRight(Do(h, steps[0]), steps[1..]))
  }

  // ----- The invariant, up to the first reply that goes wrong -----

  // The id of row r is nowhere else, and its entry is right exactly when it is not stranded;
  // otherwise it lags behind.
  ghost predicate Tracked(m: Room, stranded: set<int>, r: nat)
    requires r < |m.rows|
  {
    var id := m.rows[r].id;
    && (forall q :: 0 <= q < |m.rows| && m.rows[q].id == id ==> q == r)
    && id in m.index && 0 <= m.index[id] <= r
    && (m.index[id] == r <==> id !in stranded)
  }

  // No row is left blank, and a temporary row belongs to a request still pending in its room.
  ghost predicate RowOk(h: History, stranded: set<int>, roomID: int, r: nat)
    requires roomID in h.rooms && r < |h.rooms[roomID].rows|
  {
    var id := h.rooms[roomID].rows[r].id;
    id > 0 || (id in h.pending && h.pending[id].roomID == roomID && Tracked(h.rooms[roomID], stranded, r))
  }

  ghost predicate RoomOk(h: History, stranded: set<int>, roomID: int)
    requires roomID in h.rooms
  {
    forall r: nat :: r < |h.rooms[roomID].rows| ==> RowOk(h, stranded, roomID, r)
  }

  // A pending request has its own row, as it was sent.
  ghost predicate RequestOk(h: History, temp: int)
    requires temp in h.pending
  {
    && -h.counter <= temp < 0
    && h.pending[temp].roomID in h.rooms
    && Item(temp, h.pending[temp].content) in h.rooms[h.pending[temp].roomID].rows
  }

  ghost predicate Inv(h: History, stranded: set<int>) {
    && h.counter >= 1
    && (forall roomID :: roomID in h.rooms ==> RoomOk(h, stranded, roomID))
    && (forall temp :: temp in h.pending ==> RequestOk(h, temp))
    && (forall id :: id in stranded ==> -h.counter <= id)
  }

  // After a step in one room: the other rooms are as before.
  ghost predicate OnlyRoom(h: History, t: History, roomID: int) {
    && roomID in t.rooms && t.rooms == h.rooms[roomID := t.rooms[roomID]] && t.counter >= h.counter
    && (forall k :: k in h.pending && h.pending[k].roomID != roomID ==> k in t.pending && t.pending[k] == h.pending[k])
    && (forall k :: k in t.pending && t.pending[k].roomID != roomID ==> k in h.pending && t.pending[k] == h.pending[k])
  }

  lemma OtherRoomsKept(h: History, s: set<int>, t: History, u: set<int>, roomID: int)
    requires Inv(h, s) && OnlyRoom(h, t, roomID) && u <= s + Ids(RoomOf(h, roomID).rows) && s <= u
    ensures forall other :: other in t.rooms && other != roomID ==> RoomOk(t, u, other)
    ensures forall k :: k in t.pending && t.pending[k].roomID != roomID ==> RequestOk(t, k)
  {
    forall other | other in t.rooms && other != roomID
      ensures RoomOk(t, u, other)
    {
      assert RoomOk(h, s, other) && t.rooms[other] == h.rooms[other];
      forall r: nat | r < |t.rooms[other].rows|
        ensures RowOk(t, u, other, r)
      {
        assert RowOk(h, s, other, r);
        if h.rooms[other].rows[r].id <= 0 { ElsewhereOnly(h, s, roomID, h.rooms[other].rows[r].id); }
      }
    }
    forall k | k in t.pending && t.pending[k].roomID != roomID
      ensures RequestOk(t, k)
    {
      assert RequestOk(h, k);
    }
  }

  // A temporary id of another room is not among this room's rows.
  lemma ElsewhereOnly(h: History, s: set<int>, roomID: int, id: int)
    requires Inv(h, s) && id <= 0 && id in h.pending && h.pending[id].roomID != roomID
    ensures id !in Ids(RoomOf(h, roomID).rows)
  {
    forall item | item in RoomOf(h, roomID).rows
      ensures item.id != id
    {
      var r: nat :| r < |h.rooms[roomID].rows| && h.rooms[roomID].rows[r] == item;
      assert RoomOk(h, s, roomID) && RowOk(h, s, roomID, r);
    }
  }

  lemma FillRows(m: Room, temp: int, c: Content)
    requires |m.rows| > 0 && m.rows[0] == BLANK && temp < 0
    ensures Fill(m, temp, c) == Model(m.rows[0 := Item(temp, c)], m.index[temp := 0] - {INVALID_ID})
  {
  }

  // Sending, in terms of the old room: a row on top, and entries moved unless there was one row.
  lemma SentRoom(m: Room, temp: int, c: Content)
    requires temp < 0
    ensures var t := Fill(AfterInsertRows(m, 0, 1, BLANK).0, temp, c);
            var moved := if |m.rows| > 1 then Shifted(m.index, m.rows, 0, |m.rows|, 1) else m.index;
            t == Model([Item(temp, c)] + m.rows, moved[INVALID_ID := 0][temp := 0] - {INVALID_ID})
  {
    var inserted := AfterInsertRows(m, 0, 1, BLANK).0;
    assert inserted.rows == [BLANK] + m.rows;
    var moved := if 1 < |m.rows| then Shifted(m.index, m.rows, 0, |m.rows|, 1) else m.index;
    assert Written(moved, inserted.rows, 0, 1, 0) == moved[INVALID_ID := 0];
    FillRows(inserted, temp, c);
  }

  lemma SendInv(h: History, s: set<int>, roomID: int, c: Content)
    requires Inv(h, s)
    ensures Inv(Create(h, roomID, c), s + Strands(h, Send(roomID, c)))
  {
    var t, u := Create(h, roomID, c), s + Strands(h, Send(roomID, c));
    var m, temp := RoomOf(h, roomID), -(h.counter + 1);
    SentRoom(m, temp, c);
    IdsAbove(h, s, roomID);
    assert forall k :: k in h.pending ==> RequestOk(h, k);
    OtherRoomsKept(h, s, t, u, roomID);
    forall r: nat | r < |t.rooms[roomID].rows|
      ensures RowOk(t, u, roomID, r)
    {
      if r == 0 {
        NewTemporary(h, s, u, roomID, c);
      } else {
        SentRow(h, s, u, roomID, c, r - 1);
      }
    }
    forall k | k in t.pending && t.pending[k].roomID == roomID
      ensures RequestOk(t, k)
    {
      SentRequest(h, s, roomID, c, k);
    }
  }

  lemma SentRequest(h: History, s: set<int>, roomID: int, c: Content, k: int)
    requires Inv(h, s) && k in Create(h, roomID, c).pending && Create(h, roomID, c).pending[k].roomID == roomID
    ensures RequestOk(Create(h, roomID, c), k)
  {
    var now := Create(h, roomID, c).rooms[roomID];
    SentRoom(RoomOf(h, roomID), -(h.counter + 1), c);
    if k == -(h.counter + 1) {
      assert now.rows[0] == Item(k, c);
    } else {
      assert RequestOk(h, k);
    }
  }

  // A row that was there before the send.
  lemma SentRow(h: History, s: set<int>, u: set<int>, roomID: int, c: Content, r: nat)
    requires Inv(h, s) && r < |RoomOf(h, roomID).rows| && u == s + Strands(h, Send(roomID, c))
    ensures var t := Create(h, roomID, c);
            roomID in t.rooms && r + 1 < |t.rooms[roomID].rows| && RowOk(t, u, roomID, r + 1)
  {
    var t := Create(h, roomID, c);
    var m, now := h.rooms[roomID], t.rooms[roomID];
    SentRoom(m, -(h.counter + 1), c);
    assert RoomOk(h, s, roomID) && RowOk(h, s, roomID, r);
    assert now.rows[r + 1] == m.rows[r];
    if m.rows[r].id <= 0 {
      assert RequestOk(h, m.rows[r].id);
      TrackedUnderSent(m, s, -(h.counter + 1), c, r);
    }
  }

  // A message on top moves a temporary row down, and its entry with it unless it is the only one.
  lemma TrackedUnderSent(m: Room, s: set<int>, temp: int, c: Content, r: nat)
    requires r < |m.rows| && Tracked(m, s, r) && temp < m.rows[r].id < 0
    ensures var moved := if |m.rows| > 1 then Shifted(m.index, m.rows, 0, |m.rows|, 1) else m.index;
            var now := Model([Item(temp, c)] + m.rows, moved[INVALID_ID := 0][temp := 0] - {INVALID_ID});
            Tracked(now, s + if |m.rows| == 1 then Ids(m.rows) else {}, r + 1)
  {
    var rows := [Item(temp, c)] + m.rows;
    ShiftedOnce(m.index, m.rows, |m.rows|, 1, r);
    assert forall q :: 1 <= q < |rows| ==> rows[q] == m.rows[q - 1];
    assert rows[r + 1] == m.rows[r] && m.rows[r] in m.rows;
  }

  lemma NewTemporary(h: History, s: set<int>, u: set<int>, roomID: int, c: Content)
    requires Inv(h, s) && u == s + Strands(h, Send(roomID, c))
    ensures var t := Create(h, roomID, c);
            roomID in t.rooms && |t.rooms[roomID].rows| > 0 && RowOk(t, u, roomID, 0)
  {
    var m, temp := RoomOf(h, roomID), -(h.counter + 1);
    SentRoom(m, temp, c);
    IdsAbove(h, s, roomID);
    var now := Create(h, roomID, c).rooms[roomID];
    forall q | 1 <= q < |now.rows|
      ensures now.rows[q].id != temp
    {
      assert now.rows[q] == m.rows[q - 1];
      assert m.rows[q - 1] in m.rows;
    }
  }

  // Temporary ids are handed out downwards.
  lemma IdsAbove(h: History, s: set<int>, roomID: int)
    requires Inv(h, s)
    ensures forall item :: item in RoomOf(h, roomID).rows ==> -h.counter <= item.id != INVALID_ID
  {
    var m := RoomOf(h, roomID);
    forall item | item in m.rows
      ensures -h.counter <= item.id != INVALID_ID
    {
      var r: nat :| r < |m.rows| && m.rows[r] == item;
      assert RoomOk(h, s, roomID) && RowOk(h, s, roomID, r);
      if item.id <= 0 { assert RequestOk(h, item.id); }
    }
  }

  lemma BroadcastInv(h: History, s: set<int>, roomID: int, data: Message)
    requires Inv(h, s) && data.id > 0 && roomID != INVALID_ID
    ensures Inv(OnBroadcast(h, roomID, data), s)
  {
    var t := OnBroadcast(h, roomID, data);
    var m, now := RoomOf(h, roomID), t.rooms[roomID];
    OtherRoomsKept(h, s, t, s, roomID);
    assert now.rows == [data] + m.rows;
    forall r: nat | r < |now.rows|
      ensures RowOk(t, s, roomID, r)
    {
      if r > 0 { BroadcastRow(h, s, roomID, data, r - 1); }
    }
    forall k | k in t.pending && t.pending[k].roomID == roomID
      ensures RequestOk(t, k)
    {
      assert RequestOk(h, k);
    }
  }

  lemma BroadcastRow(h: History, s: set<int>, roomID: int, data: Message, r: nat)
    requires Inv(h, s) && data.id > 0 && roomID != INVALID_ID && r < |RoomOf(h, roomID).rows|
    ensures var t := OnBroadcast(h, roomID, data);
            roomID in t.rooms && r + 1 < |t.rooms[roomID].rows| && RowOk(t, s, roomID, r + 1)
  {
    var m, now := h.rooms[roomID], OnBroadcast(h, roomID, data).rooms[roomID];
    assert RoomOk(h, s, roomID) && RowOk(h, s, roomID, r);
    assert now.rows == [data] + m.rows;
    assert now.rows[r + 1] == m.rows[r];
    if m.rows[r].id <= 0 {
      ShiftedOnce(m.index, m.rows, |m.rows|, 1, r);
      var shifted := Shifted(m.index, m.rows, 0, |m.rows|, 1);
      assert Written(shifted, [data], 0, 1, 0) == shifted[data.id := 0];
      assert forall q :: 1 <= q < |now.rows| ==> now.rows[q] == m.rows[q - 1];
    }
  }

  lemma ArriveInv(h: History, s: set<int>, k: nat, page: seq<Message>)
    requires Inv(h, s) && Enabled(h, Arrive(k, page))
    ensures Inv(OnPage(h, k, page).0, s + Strands(h, Arrive(k, page)))
  {
    var (t, ok) := OnPage(h, k, page);
    var u, l := s + Strands(h, Arrive(k, page)), h.loads[k];
    var m, now := h.rooms[l.roomID], t.rooms[l.roomID];
    IdsAbove(h, s, l.roomID);
    if ok { assert forall item :: item in m.rows[l.row..] ==> item in m.rows; }
    OtherRoomsKept(h, s, t, u, l.roomID);
    forall r: nat | r < |now.rows|
      ensures RowOk(t, u, l.roomID, r)
    {
      if ok { PageRow(h, s, k, page, r); } else { assert RoomOk(h, s, l.roomID) && RowOk(h, s, l.roomID, r); }
    }
    forall temp | temp in t.pending && t.pending[temp].roomID == l.roomID
      ensures RequestOk(t, temp)
    {
      assert RequestOk(h, temp);
      if ok { KeptByPage(h, k, page, Item(temp, h.pending[temp].content)); }
    }
  }

  lemma KeptByPage(h: History, k: nat, page: seq<Message>, item: Message)
    requires Enabled(h, Arrive(k, page)) && OnPage(h, k, page).1 && item in h.rooms[h.loads[k].roomID].rows
    ensures var now := OnPage(h, k, page).0.rooms[h.loads[k].roomID]; item in now.rows
  {
    var m, row := h.rooms[h.loads[k].roomID], h.loads[k].row;
    assert m.rows == m.rows[..row] + m.rows[row..];
  }

  // A row of the room once an accepted page is in: above the page, of it, or below it.
  lemma PageRow(h: History, s: set<int>, k: nat, page: seq<Message>, r: nat)
    requires Inv(h, s) && Enabled(h, Arrive(k, page)) && OnPage(h, k, page).1
    requires r < |OnPage(h, k, page).0.rooms[h.loads[k].roomID].rows|
    ensures RowOk(OnPage(h, k, page).0, s + Strands(h, Arrive(k, page)), h.loads[k].roomID, r)
  {
    var t, u := OnPage(h, k, page).0, s + Strands(h, Arrive(k, page));
    var roomID, row := h.loads[k].roomID, h.loads[k].row;
    var m, now := h.rooms[roomID], t.rooms[roomID];
    var tail := Tail(m.index, page, BLANK.value);
    TailIds(m.index, page, BLANK.value);
    assert now.rows == m.rows[..row] + tail + m.rows[row..];
    if row <= r < row + |tail| {
      assert now.rows[r] == tail[r - row];
    } else {
      var was := if r < row then r else r - |tail|;
      assert now.rows[r] == m.rows[was];
      assert RoomOk(h, s, roomID) && RowOk(h, s, roomID, was);
      if m.rows[was].id <= 0 { TrackedBehindPage(m, s, row, tail, was); }
    }
  }

  // A temporary row keeps its entry when positive ids are spliced in, and so is stranded when it
  // stands behind them.
  lemma TrackedBehindPage(m: Room, s: set<int>, row: nat, tail: seq<Message>, was: nat)
    requires row <= |m.rows| && was < |m.rows| && m.rows[was].id <= 0 && Tracked(m, s, was)
    requires tail != [] && forall i :: 0 <= i < |tail| ==> tail[i].id > 0
    ensures var r := if was < row then was else was + |tail|;
            r < |WithTail(m, row, tail).rows| && Tracked(WithTail(m, row, tail), s + Ids(m.rows[row..]), r)
  {
    var now, id := WithTail(m, row, tail), m.rows[was].id;
    var r := if was < row then was else was + |tail|;
    InsertedKeeps(m.index, now.rows, row, row + |tail|, id);
    assert forall q :: 0 <= q < row ==> now.rows[q] == m.rows[q];
    assert forall q :: row <= q < row + |tail| ==> now.rows[q] == tail[q - row];
    assert forall q :: row + |tail| <= q < |now.rows| ==> now.rows[q] == m.rows[q - |tail|];
    if was < row {
      forall item | item in m.rows[row..]
        ensures item.id != id
      {
        var q :| 0 <= q < |m.rows[row..]| && m.rows[row..][q] == item;
        assert m.rows[row + q] == item;
      }
    } else {
      assert m.rows[row..][was - row] == m.rows[was];
    }
  }

  lemma TailIds(index: map<int, int>, page: seq<Message>, movedFrom: Content)
    requires forall i :: 0 <= i < |page| ==> page[i].id > 0
    ensures forall i :: 0 <= i < |Tail(index, page, movedFrom)| ==> Tail(index, page, movedFrom)[i].id > 0
  {
    var k := CountKnown(index, page);
    var tail := Tail(index, page, movedFrom);
    forall i | 0 <= i < |tail|
      ensures tail[i].id > 0
    {
      assert tail[i] == AfterMove(index, page[k + i], movedFrom);
    }
  }

  /** A reply replaces exactly the row of its own message exactly when its temporary id is not
      stranded. */
  lemma ReplyEffect(h: History, s: set<int>, temp: int, data: Message)
    requires Inv(h, s) && Enabled(h, Reply(temp, data))
    ensures ReplacesOwnRow(h, temp, data) <==> temp !in s
  {
    assert RequestOk(h, temp);
    var m := h.rooms[h.pending[temp].roomID];
    var p: nat :| p < |m.rows| && m.rows[p] == Item(temp, h.pending[temp].content);
    assert RoomOk(h, s, h.pending[temp].roomID) && RowOk(h, s, h.pending[temp].roomID, p);
    if temp in s {
      assert m.rows[m.index[temp] := data][p] != m.rows[p := data][p];
    }
  }

  lemma ReplyInv(h: History, s: set<int>, temp: int, data: Message)
    requires Inv(h, s) && Enabled(h, Reply(temp, data)) && temp !in s
    ensures Inv(OnReply(h, temp, data).0, s)
  {
    ReplyEffect(h, s, temp, data);
    assert RequestOk(h, temp);
    var t, roomID := OnReply(h, temp, data).0, h.pending[temp].roomID;
    var m, now := h.rooms[roomID], t.rooms[roomID];
    var p: nat :| p < |m.rows| && m.rows[p] == Item(temp, h.pending[temp].content) && now.rows == m.rows[p := data];
    assert RoomOk(h, s, roomID) && RowOk(h, s, roomID, p);
    OtherRoomsKept(h, s, t, s, roomID);
    forall r: nat | r < |now.rows|
      ensures RowOk(t, s, roomID, r)
    {
      assert RowOk(h, s, roomID, r);
    }
    forall k | k in t.pending && t.pending[k].roomID == roomID
      ensures RequestOk(t, k)
    {
      assert RequestOk(h, k);
      var r :| 0 <= r < |m.rows| && m.rows[r] == Item(k, h.pending[k].content);
      assert now.rows[r] == m.rows[r];
    }
  }

  lemma OpenInv(h: History, s: set<int>, roomID: int)
    requires Inv(h, s)
    ensures Inv(Opened(h, roomID), s)
  {
    var t := Opened(h, roomID);
    OtherRoomsKept(h, s, t, s, roomID);
    assert roomID in h.rooms ==> RoomOk(h, s, roomID) && t == h;
    assert forall k :: k in h.pending ==> RequestOk(h, k);
  }

  lemma AskInv(h: History, s: set<int>, roomID: int, row: int)
    requires Inv(h, s)
    ensures Inv(Asked(h, roomID, row), s)
  {
    var t := Asked(h, roomID, row);
    forall other | other in t.rooms
      ensures RoomOk(t, s, other)
    {
      assert RoomOk(h, s, other);
      forall r: nat | r < |t.rooms[other].rows|
        ensures RowOk(t, s, other, r)
      {
        assert RowOk(h, s, other, r);
      }
    }
    assert forall k :: k in h.pending ==> RequestOk(h, k);
  }

  lemma StepInv(h: History, s: set<int>, step: Step)
    requires Inv(h, s) && Enabled(h, step) && !(step.Reply? && step.temp in s)
    ensures Inv(Do(h, step), s + Strands(h, step))
  {
    assert s + {} == s;
    match step
    case Open(roomID) => OpenInv(h, s, roomID);
    case Send(roomID, c) => SendInv(h, s, roomID, c);
    case Reply(temp, data) => ReplyInv(h, s, temp, data);
    case Broadcast(roomID, data) =>
      if roomID != INVALID_ID && data.id != INVALID_ID { BroadcastInv(h, s, roomID, data); }
    case Ask(roomID) => AskInv(h, s, roomID, |h.rooms[roomID].rows|);
    case Arrive(k, page) => ArriveInv(h, s, k, page);
  }

  lemma {:induction false} RepliesFrom(h: History, s: set<int>, steps: seq<Step>)
    requires Inv(h, s) && Legal(h, steps)
    ensures RepliesRight(h, steps) <==> NoStrandedReply(h, s, steps)
    decreases |steps|
  {
    if steps != [] {
      if steps[0].Reply? { ReplyEffect(h, s, steps[0].temp, steps[0].data); }
      if !(steps[0].Reply? && steps[0].temp in s) {
        StepInv(h, s, steps[0]);
        RepliesFrom(Do(h, steps[0]), s + Strands(h, steps[0]), steps[1..]);
      }
    }
  }

  /** Over every interleaving of sends, replies in any order, broadcasts and pages, every reply replaces
      exactly the row of its own message exactly when none comes for a stranded temporary id: one
      that was its room's only row when the next message was sent there, or that stood at or
      behind the row where a page went in. */
  lemma ReplyFindsItsMessage(steps: seq<Step>)
    requires Legal(Start(), steps)
    ensures RepliesRight(Start(), steps) <==> NoStrandedReply(Start(), {}, steps)
  {
    RepliesFrom(Start(), {}, steps);
  }

  // ----- What each step does to the rooms, whatever state the index is in -----

  ghost predicate OthersSame(h: History, t: History, roomID: int) {
    && (forall other :: other != roomID ==> (other in t.rooms <==> other in h.rooms))
    && (forall other :: other != roomID && other in h.rooms ==> t.rooms[other] == h.rooms[other])
  }

  ghost predicate RoomsDone(h: History, step: Step, t: History)
    requires Enabled(h, step)
  {
    match step
    case Open(roomID) => OthersSame(h, t, roomID) && roomID in t.rooms && RoomOf(t, roomID) == RoomOf(h, roomID)
    case Send(roomID, c) =>
      && OthersSame(h, t, roomID) && roomID in t.rooms
      && PutIn(RoomOf(h, roomID).rows, t.rooms[roomID].rows, 0, [Item(-(h.counter + 1), c)])
      && t.pending == h.pending[-(h.counter + 1) := Request(roomID, c)]
    case Reply(temp, data) =>
      var roomID := h.pending[temp].roomID;
      var m := RoomOf(h, roomID);
      && OthersSame(h, t, roomID) && t.pending == h.pending - {temp}
      && if temp in m.index && 0 <= m.index[temp] < |m.rows|
         then Overwritten(m.rows, RoomOf(t, roomID).rows, m.index[temp], data.id, data.value)
         else t.rooms == h.rooms
    case Broadcast(roomID, data) =>
      if roomID == 0 || data.id == 0 then t == h
      else OthersSame(h, t, roomID) && PutIn(RoomOf(h, roomID).rows, RoomOf(t, roomID).rows, 0, [data])
    case Ask(roomID) =>
      t.rooms == h.rooms && t.loads == h.loads[h.asked := Load(roomID, |h.rooms[roomID].rows|)]
    case Arrive(k, page) =>
      var l := h.loads[k];
      var was, now := RoomOf(h, l.roomID).rows, RoomOf(t, l.roomID).rows;
      && OthersSame(h, t, l.roomID) && t.loads == h.loads - {k}
      && (PageAccepted(h, k, page) ==>
            |now| >= |was| && var left := now[l.row..l.row + (|now| - |was|)];
            LeftBehind(h.rooms[l.roomID].index, page, BLANK.value, left) && PutIn(was, now, l.row, left))
      && (!PageAccepted(h, k, page) ==> now == was)
  }

  /** A message sent comes on top of its room; a reply overwrites the row that the index has for its
      temporary id; a broadcast comes on top, and one with an invalid id is ignored; an accepted page
      goes in where it was asked for. No step touches another room. */
  lemma StepRooms(h: History, step: Step)
    requires Enabled(h, step)
    ensures RoomsDone(h, step, Do(h, step))
  {
    match step
    case Open(_) => QuietRooms(h, step);
    case Send(roomID, c) => SendRooms(h, roomID, c);
    case Reply(temp, data) => ReplyRooms(h, temp, data);
    case Broadcast(roomID, data) => BroadcastRooms(h, roomID, data);
    case Ask(_) => QuietRooms(h, step);
    case Arrive(k, page) => PageRooms(h, k, page);
  }

  lemma QuietRooms(h: History, step: Step)
    requires Enabled(h, step) && (step.Open? || step.Ask?)
    ensures RoomsDone(h, step, Do(h, step))
  {
  }

  lemma SendRooms(h: History, roomID: int, c: Content)
    ensures RoomsDone(h, Send(roomID, c), Create(h, roomID, c))
  {
    SentRows(RoomOf(h, roomID), -(h.counter + 1), c);
  }

  lemma ReplyRooms(h: History, temp: int, data: Message)
    requires Enabled(h, Reply(temp, data))
    ensures RoomsDone(h, Reply(temp, data), OnReply(h, temp, data).0)
    ensures OnReply(h, temp, data).1 ==
            var m := RoomOf(h, h.pending[temp].roomID);
            if temp in m.index && 0 <= m.index[temp] < |m.rows| then data.id else 0
  {
  }

  lemma BroadcastRooms(h: History, roomID: int, data: Message)
    requires Enabled(h, Broadcast(roomID, data))
    ensures RoomsDone(h, Broadcast(roomID, data), OnBroadcast(h, roomID, data))
  {
    OperationRows(RoomOf(h, roomID), DoInsertDataList(0, [data]));
  }

  lemma PageRooms(h: History, k: nat, page: seq<Message>)
    requires Enabled(h, Arrive(k, page))
    ensures RoomsDone(h, Arrive(k, page), OnPage(h, k, page).0)
  {
    OperationRows(h.rooms[h.loads[k].roomID], DoInsertRange(h.loads[k].row, page, BLANK.value));
  }

  // ----- When rows and index agree -----

  lemma KnownIds(h: History, s: set<int>, roomID: int)
    requires Inv(h, s) && Agrees(RoomOf(h, roomID))
    ensures forall id :: id in RoomOf(h, roomID).index ==> -h.counter <= id != INVALID_ID
  {
    var m := RoomOf(h, roomID);
    IdsAbove(h, s, roomID);
    forall id | id in m.index
      ensures -h.counter <= id != INVALID_ID
    {
      assert m.rows[m.index[id]] in m.rows;
    }
  }

  /** A message sent comes on top of the old rows; rows and index agree afterwards exactly when there
      was not just one row. */
  lemma SendEffect(h: History, s: set<int>, roomID: int, c: Content)
    requires Inv(h, s) && Agrees(RoomOf(h, roomID))
    ensures var m := RoomOf(h, roomID);
            var t := Create(h, roomID, c);
            && roomID in t.rooms && t.rooms[roomID].rows == [Item(-(h.counter + 1), c)] + m.rows
            && (Agrees(t.rooms[roomID]) <==> |m.rows| != 1)
  {
    var m := RoomOf(h, roomID);
    var temp := -(h.counter + 1);
    SentRoom(m, temp, c);
    var t := Create(h, roomID, c).rooms[roomID];
    KnownIds(h, s, roomID);
    if |m.rows| != 1 {
      var inserted := AfterInsertRows(m, 0, 1, BLANK).0;
      BlankOnTop(m, BLANK);
      assert inserted.rows == [BLANK] + m.rows;
      FillRows(inserted, temp, c);
      TemporaryIsNew(m, temp);
      SetItemAgrees(inserted, 0, Item(temp, c));
    } else {
      assert t.rows[1] == m.rows[0];
    }
  }

  lemma TemporaryIsNew(m: Room, temp: int)
    requires Agrees(m) && |m.rows| != 1 && temp !in m.index && temp != INVALID_ID && INVALID_ID !in m.index
    ensures Agrees(AfterInsertRows(m, 0, 1, BLANK).0) && temp !in AfterInsertRows(m, 0, 1, BLANK).0.index
  {
    BlankOnTop(m, BLANK);
    var inserted := AfterInsertRows(m, 0, 1, BLANK).0;
    assert inserted.rows == [BLANK] + m.rows;
    forall r | 0 <= r < |inserted.rows|
      ensures inserted.rows[r].id != temp
    {
      if r > 0 { assert inserted.rows[r] == m.rows[r - 1]; }
    }
  }

  /** A broadcast comes on top of the old rows; rows and index agree afterwards exactly when its id was
      new to the room. */
  lemma BroadcastEffect(h: History, roomID: int, data: Message)
    requires data.id != INVALID_ID && roomID != INVALID_ID && Agrees(RoomOf(h, roomID))
    ensures var m := RoomOf(h, roomID);
            var t := OnBroadcast(h, roomID, data).rooms[roomID];
            t.rows == [data] + m.rows && (Agrees(t) <==> data.id !in m.index)
  {
    InsertDataListAgrees(RoomOf(h, roomID), 0, [data]);
  }

  /** An accepted page goes in where it was asked for, which is the end of the room only if it is not
      late; rows and index agree afterwards exactly when both sides kept to their part. */
  lemma LoadedEffect(h: History, k: nat, page: seq<Message>)
    requires Enabled(h, Arrive(k, page)) && Agrees(h.rooms[h.loads[k].roomID])
    ensures var l := h.loads[k];
            var m := h.rooms[l.roomID];
            var (t, ok) := OnPage(h, k, page);
            var tail := Tail(m.index, page, BLANK.value);
            && (ok <==> PageAccepted(h, k, page))
            && (ok ==> 0 <= l.row <= |m.rows| && t.rooms[l.roomID].rows == m.rows[..l.row] + tail + m.rows[l.row..])
            && (!ok ==> t.rooms[l.roomID] == m)
            && (Agrees(t.rooms[l.roomID]) <==> ClientKeeps(h, Arrive(k, page)) && ServerKeeps(h, Arrive(k, page)))
  {
    OperationAgrees(h.rooms[h.loads[k].roomID], DoInsertRange(h.loads[k].row, page, BLANK.value));
  }

  // What a step does to the agreement of its room.
  lemma StepAgrees(h: History, s: set<int>, step: Step)
    requires Inv(h, s) && AllAgree(h) && Enabled(h, step)
    ensures AllAgree(Do(h, step)) <==> ClientKeeps(h, step) && ServerKeeps(h, step)
    ensures !(step.Reply? && step.temp in s)
  {
    match step
    case Open(_) =>
    case Send(roomID, c) => SendEffect(h, s, roomID, c); RoomDecides(h, Do(h, step), roomID);
    case Reply(temp, data) => ReplyAgrees(h, s, temp, data);
    case Broadcast(roomID, data) =>
      if roomID != INVALID_ID && data.id != INVALID_ID {
        BroadcastEffect(h, roomID, data);
        RoomDecides(h, Do(h, step), roomID);
      }
    case Ask(_) =>
    case Arrive(k, page) =>
      LoadedEffect(h, k, page);
      RoomDecides(h, Do(h, step), h.loads[k].roomID);
  }

  lemma RoomDecides(h: History, t: History, roomID: int)
    requires AllAgree(h) && roomID in t.rooms && t.rooms == h.rooms[roomID := t.rooms[roomID]]
    ensures AllAgree(t) <==> Agrees(t.rooms[roomID])
  {
  }

  lemma ReplyAgrees(h: History, s: set<int>, temp: int, data: Message)
    requires Inv(h, s) && AllAgree(h) && Enabled(h, Reply(temp, data))
    ensures AllAgree(Do(h, Reply(temp, data))) <==> ServerKeeps(h, Reply(temp, data))
    ensures temp !in s
  {
    assert RequestOk(h, temp);
    var roomID := h.pending[temp].roomID;
    var m := h.rooms[roomID];
    var p: nat :| p < |m.rows| && m.rows[p] == Item(temp, h.pending[temp].content);
    assert RoomOk(h, s, roomID) && RowOk(h, s, roomID, p);
    assert m.index[m.rows[p].id] == p;
    SetItemAgrees(m, p, data);
    RoomDecides(h, Do(h, Reply(temp, data)), roomID);
  }

  lemma {:induction false} AgreeFrom(h: History, s: set<int>, steps: seq<Step>)
    requires Inv(h, s) && AllAgree(h) && Legal(h, steps)
    ensures AlwaysAgree(h, steps) <==> AlwaysKept(h, steps)
    decreases |steps|
  {
    if steps != [] {
      StepAgrees(h, s, steps[0]);
      StepInv(h, s, steps[0]);
      if AllAgree(Do(h, steps[0])) { AgreeFrom(Do(h, steps[0]), s + Strands(h, steps[0]), steps[1..]); }
    }
  }

  /** Over every interleaving, the rows and index of all rooms agree throughout exactly when both sides
      keep to their part: no message is sent into a room that shows exactly one and no accepted
      page comes late; and the server's ids are new and its pages start with what is known. */
  lemma HistoryAgrees(steps: seq<Step>)
    requires Legal(Start(), steps)
    ensures AlwaysAgree(Start(), steps) <==> AlwaysKept(Start(), steps)
  {
    AgreeFrom(Start(), {}, steps);
  }

  // ----- What makes a page late -----

  predicate AddsRow(h: History, step: Step, roomID: int)
    requires Enabled(h, step)
  {
    match step
    case Send(r, _) => r == roomID
    case Broadcast(r, data) => r == roomID && roomID != INVALID_ID && data.id != INVALID_ID
    case Arrive(k, page) => h.loads[k].roomID == roomID && PageAccepted(h, k, page)
    case _ => false
  }

  predicate AddsNoRow(h: History, steps: seq<Step>, roomID: int)
    requires Legal(h, steps)
    decreases |steps|
  {
    steps == [] || (!AddsRow(h, steps[0], roomID) && AddsNoRow(Do(h, steps[0]), steps[1..], roomID))
  }

  lemma StepRows(h: History, step: Step, roomID: int)
    requires Enabled(h, step)
    ensures var was, now := RoomOf(h, roomID).rows, RoomOf(Do(h, step), roomID).rows;
            |now| >= |was| && (|now| == |was| <==> !AddsRow(h, step, roomID))
    ensures roomID in h.rooms ==> roomID in Do(h, step).rooms
    ensures Do(h, step).asked >= h.asked
    ensures forall k :: k in Do(h, step).loads && k < h.asked ==> k in h.loads && Do(h, step).loads[k] == h.loads[k]
  {
  }

  lemma {:induction false} RowsSince(h: History, steps: seq<Step>, roomID: int, k: nat)
    requires Legal(h, steps) && k < h.asked && k in Run(h, steps).loads
    ensures var was, now := RoomOf(h, roomID).rows, RoomOf(Run(h, steps), roomID).rows;
            |now| >= |was| && (|now| == |was| <==> AddsNoRow(h, steps, roomID))
    ensures k in h.loads && Run(h, steps).loads[k] == h.loads[k]
    decreases |steps|
  {
    if steps != [] {
      StepRows(h, steps[0], roomID);
      RowsSince(Do(h, steps[0]), steps[1..], roomID, k);
    }
  }

  /** A page is late exactly when some row was put into its room since it was asked for. */
  lemma LateMeansOvertaken(h: History, roomID: int, steps: seq<Step>)
    requires Enabled(h, Ask(roomID)) && Legal(Do(h, Ask(roomID)), steps)
    requires h.asked in Run(Do(h, Ask(roomID)), steps).loads
    ensures var asked := Do(h, Ask(roomID));
            Late(Run(asked, steps), h.asked) <==> !AddsNoRow(asked, steps, roomID)
  {
    RowsSince(Do(h, Ask(roomID)), steps, roomID, h.asked);
  }

  // ----- Temporary ids, in any run at all -----

  // No two rows of the same or of different rooms have one temporary id, and the next one is below all.
  ghost predicate TemporaryIdsApart(h: History) {
    && h.counter >= 1
    && (forall k :: k in h.pending ==> -h.counter <= k < 0)
    && (forall a, r :: a in h.rooms && 0 <= r < |h.rooms[a].rows| ==> -h.counter <= h.rooms[a].rows[r].id)
    && (forall a, b, r, q :: Twice(h, a, b, r, q) ==> a == b && r == q)
  }

  predicate Twice(h: History, a: int, b: int, r: int, q: int) {
    && a in h.rooms && b in h.rooms && 0 <= r < |h.rooms[a].rows| && 0 <= q < |h.rooms[b].rows|
    && h.rooms[a].rows[r].id == h.rooms[b].rows[q].id < 0
  }

  // The row that was at r before `count` rows were put in at `row`.
  function Was(r: int, row: int, count: int): int {
    if r < row then r else r - count
  }

  // Each temporary id was where the rows put in at `row` moved it from.
  ghost predicate From(was: seq<Message>, now: seq<Message>, row: int, count: int) {
    forall r :: 0 <= r < |now| && now[r].id < 0 ==>
      && 0 <= Was(r, row, count) < |was| && now[r].id == was[Was(r, row, count)].id
      && (r >= row ==> r - count >= row)
  }

  // A step that gives one room no temporary id that it did not have, nor one of them twice.
  lemma ApartInRoom(h: History, t: History, roomID: int, row: int, count: int)
    requires TemporaryIdsApart(h) && t.counter == h.counter && t.pending.Keys <= h.pending.Keys
    requires roomID in t.rooms && t.rooms == h.rooms[roomID := t.rooms[roomID]]
    requires From(RoomOf(h, roomID).rows, t.rooms[roomID].rows, row, count)
    ensures TemporaryIdsApart(t)
  {
    forall a, r | a in t.rooms && 0 <= r < |t.rooms[a].rows|
      ensures -t.counter <= t.rooms[a].rows[r].id
    {
      if a == roomID && t.rooms[a].rows[r].id < 0 { assert roomID in h.rooms; }
    }
    forall a, b, r, q | Twice(t, a, b, r, q)
      ensures a == b && r == q
    {
      var r0 := if a == roomID then Was(r, row, count) else r;
      var q0 := if b == roomID then Was(q, row, count) else q;
      assert Twice(h, a, b, r0, q0);
    }
  }

  lemma SendApart(h: History, roomID: int, c: Content)
    requires TemporaryIdsApart(h)
    ensures TemporaryIdsApart(Create(h, roomID, c))
  {
    var t := Create(h, roomID, c);
    forall a, r | a in t.rooms && 0 <= r < |t.rooms[a].rows|
      ensures -t.counter <= t.rooms[a].rows[r].id
    {
      RowBeforeSend(h, roomID, c, a, r);
    }
    forall a, b, r, q | Twice(t, a, b, r, q)
      ensures a == b && r == q
    {
      RowBeforeSend(h, roomID, c, a, r);
      RowBeforeSend(h, roomID, c, b, q);
      var r0 := if a == roomID then r - 1 else r;
      var q0 := if b == roomID then q - 1 else q;
      if r0 >= 0 && q0 >= 0 { assert Twice(h, a, b, r0, q0); }
    }
  }

  // A row after a send is the new one, or was there before.
  lemma RowBeforeSend(h: History, roomID: int, c: Content, a: int, r: nat)
    requires TemporaryIdsApart(h) && a in Create(h, roomID, c).rooms && r < |Create(h, roomID, c).rooms[a].rows|
    ensures var id := Create(h, roomID, c).rooms[a].rows[r].id;
            if a == roomID && r == 0 then id == -(h.counter + 1)
            else
              var was := if a == roomID then r - 1 else r;
              a in h.rooms && was < |h.rooms[a].rows| && id == h.rooms[a].rows[was].id >= -h.counter
  {
    SentRoom(RoomOf(h, roomID), -(h.counter + 1), c);
  }

  lemma StepApart(h: History, step: Step)
    requires TemporaryIdsApart(h) && Enabled(h, step)
    ensures TemporaryIdsApart(Do(h, step))
  {
    match step
    case Open(roomID) => ApartInRoom(h, Do(h, step), roomID, 0, 0);
    case Send(roomID, c) => SendApart(h, roomID, c);
    case Reply(temp, data) =>
      var roomID := h.pending[temp].roomID;
      if roomID in h.rooms && Lookup(RoomOf(h, roomID), temp).Some? {
        ApartInRoom(h, Do(h, step), roomID, 0, 0);
      } else {
        SameRows(h, Do(h, step));
      }
    case Broadcast(roomID, data) =>
      if roomID != INVALID_ID && data.id != INVALID_ID { ApartInRoom(h, Do(h, step), roomID, 0, 1); }
    case Ask(_) => SameRows(h, Do(h, step));
    case Arrive(k, page) => PageApart(h, k, page);
  }

  lemma SameRows(h: History, t: History)
    requires TemporaryIdsApart(h) && t.rooms == h.rooms && t.counter == h.counter && t.pending.Keys <= h.pending.Keys
    ensures TemporaryIdsApart(t)
  {
    forall a, b, r, q | Twice(t, a, b, r, q)
      ensures a == b && r == q
    {
      assert Twice(h, a, b, r, q);
    }
  }

  lemma SplicedFrom(rows: seq<Message>, row: nat, tail: seq<Message>)
    requires row <= |rows| && forall i :: 0 <= i < |tail| ==> tail[i].id > 0
    ensures From(rows, rows[..row] + tail + rows[row..], row, |tail|)
  {
    var now := rows[..row] + tail + rows[row..];
    assert forall r :: row <= r < row + |tail| ==> now[r] == tail[r - row];
  }

  lemma PageApart(h: History, k: nat, page: seq<Message>)
    requires TemporaryIdsApart(h) && Enabled(h, Arrive(k, page))
    ensures TemporaryIdsApart(OnPage(h, k, page).0)
  {
    var (t, ok) := OnPage(h, k, page);
    var l := h.loads[k];
    if ok {
      var m := h.rooms[l.roomID];
      var tail := Tail(m.index, page, BLANK.value);
      TailIds(m.index, page, BLANK.value);
      SplicedFrom(m.rows, l.row, tail);
      ApartInRoom(h, t, l.roomID, l.row, |tail|);
    } else {
      ApartInRoom(h, t, l.roomID, 0, 0);
    }
  }

  lemma {:induction false} RunApart(h: History, steps: seq<Step>)
    requires TemporaryIdsApart(h) && Legal(h, steps)
    ensures TemporaryIdsApart(Run(h, steps))
    decreases |steps|
  {
    if steps != [] {
      StepApart(h, steps[0]);
      RunApart(Do(h, steps[0]), steps[1..]);
    }
  }

  /** Whatever goes wrong with the index, temporary ids never collide: in every run, no two rows have the
      same one, in one room or in two, and the one handed out next is in no room and no request. */
  lemma TemporaryIdsNeverCollide(steps: seq<Step>, a: int, b: int, r: nat, q: nat)
    requires Legal(Start(), steps)
    ensures var h := Run(Start(), steps);
            && (Twice(h, a, b, r, q) ==> a == b && r == q)
            && -(h.counter + 1) !in h.pending
            && (a in h.rooms && r < |h.rooms[a].rows| ==> h.rooms[a].rows[r].id != -(h.counter + 1))
  {
    RunApart(Start(), steps);
  }

  /** Two quick messages into an empty room: the reply to the first replaces the second's row, and
      the reply to the second finds no row at all. */
  lemma SecondMessageLost(roomID: int, a: Content, b: Content, first: Message, second: Message)
    requires first.id > 0 && second.id > 0 && first.id != second.id
    ensures var sent := Create(Create(Start(), roomID, a), roomID, b);
            && sent.rooms[roomID].rows == [Item(-3, b), Item(-2, a)]
            && OnReply(sent, -2, first).0.rooms[roomID].rows == [first, Item(-2, a)]
            && OnReply(OnReply(sent, -2, first).0, -3, second).1 == INVALID_ID
  {
    FirstMessage(roomID, a);
    SecondMessage(roomID, a, b);
    var sent := Create(Create(Start(), roomID, a), roomID, b);
    var m := OnReply(sent, -2, first).0.rooms[roomID];
    assert m.rows == [first, Item(-2, a)] && -3 !in m.index;
  }

  lemma FirstMessage(roomID: int, a: Content)
    ensures RoomOf(Create(Start(), roomID, a), roomID) == Model([Item(-2, a)], map[-2 := 0])
  {
    var inserted := AfterInsertRows(Empty<Content>(), 0, 1, BLANK).0;
    assert inserted.rows == [BLANK] && inserted.index == map[INVALID_ID := 0];
    FillRows(inserted, -2, a);
    assert map[INVALID_ID := 0, -2 := 0] - {INVALID_ID} == map[-2 := 0];
  }

  lemma SecondMessage(roomID: int, a: Content, b: Content)
    ensures RoomOf(Create(Create(Start(), roomID, a), roomID, b), roomID)
         == Model([Item(-3, b), Item(-2, a)], map[-2 := 0, -3 := 0])
  {
    FirstMessage(roomID, a);
    var one := RoomOf(Create(Start(), roomID, a), roomID);
    var inserted := AfterInsertRows(one, 0, 1, BLANK).0;
    assert inserted.rows == [BLANK, Item(-2, a)] && inserted.index == map[-2 := 0, INVALID_ID := 0];
    FillRows(inserted, -3, b);
    assert inserted.index[-3 := 0] - {INVALID_ID} == map[-2 := 0, -3 := 0];
  }

  // After a send into an empty room, a page request and a broadcast.
  lemma Overtaken(roomID: int, a: Content, newer: Message)
    requires roomID != INVALID_ID && newer.id > 0
    ensures var h := Do(Do(Do(Start(), Send(roomID, a)), Ask(roomID)), Broadcast(roomID, newer));
            && RoomOf(h, roomID) == Model([newer, Item(-2, a)], map[-2 := 1, newer.id := 0])
            && roomID in h.rooms && h.loads == map[0 := Load(roomID, 1)]
  {
    FirstMessage(roomID, a);
    var asked := Do(Do(Start(), Send(roomID, a)), Ask(roomID));
    var m := RoomOf(asked, roomID);
    assert Shifted(m.index, m.rows, 0, 1, 1) == map[-2 := 1] by {
      assert Shifted(m.index, m.rows, 0, 0, 1) == m.index;
    }
    assert Written(map[-2 := 1], [newer], 0, 1, 0) == map[-2 := 1, newer.id := 0];
    assert RoomOf(Do(asked, Broadcast(roomID, newer)), roomID).rows == [newer, Item(-2, a)];
  }

  // A page of one message goes in between the two.
  lemma PageBetween(a: Content, newer: Message, older: Message)
    requires newer.id > 0 && older.id > 0 && newer.id != older.id
    ensures var m := Model([newer, Item(-2, a)], map[-2 := 1, newer.id := 0]);
            var (t, ok) := AfterInsertRange(m, 1, [older], BLANK.value);
            ok && t.rows == [newer, older, Item(-2, a)] && -2 in t.index && t.index[-2] == 1
  {
    var m: Room := Model([newer, Item(-2, a)], map[-2 := 1, newer.id := 0]);
    assert !Known(m.index, older) && CountKnown(m.index, [older]) == 0 by {
      assert CountKnown(m.index, [older][..0]) == 0;
    }
    assert Tail(m.index, [older], BLANK.value) == [older];
    var rows := m.rows[..1] + [older] + m.rows[1..];
    assert rows == [newer, older, Item(-2, a)];
    InsertedKeeps(m.index, rows, 1, 2, -2);
  }

  /** A late page misleads a reply with no send into a room of one row: a message arrives while the page
      is on its way, the page goes in above the message sent, and the reply to that replaces the
      page's row. */
  lemma LatePageMisleads(roomID: int, a: Content, newer: Message, older: Message, mine: Message)
    requires roomID != INVALID_ID && newer.id > 0 && older.id > 0 && mine.id > 0 && newer.id != older.id
    ensures var h := Do(Do(Do(Start(), Send(roomID, a)), Ask(roomID)), Broadcast(roomID, newer));
            && Enabled(h, Arrive(0, [older])) && OnPage(h, 0, [older]).1 && Late(h, 0)
            && var paged := Do(h, Arrive(0, [older]));
               && roomID in paged.rooms && paged.rooms[roomID].rows == [newer, older, Item(-2, a)]
               && Enabled(paged, Reply(-2, mine))
               && RoomOf(Do(paged, Reply(-2, mine)), roomID).rows == [newer, mine, Item(-2, a)]
  {
    Overtaken(roomID, a, newer);
    PageBetween(a, newer, older);
    var h := Do(Do(Do(Start(), Send(roomID, a)), Ask(roomID)), Broadcast(roomID, newer));
    WrongRow(Do(h, Arrive(0, [older])), roomID, a, newer, older, mine);
  }

  lemma WrongRow(h: History, roomID: int, a: Content, newer: Message, older: Message, mine: Message)
    requires roomID in h.rooms && h.rooms[roomID].rows == [newer, older, Item(-2, a)]
    requires -2 in h.rooms[roomID].index && h.rooms[roomID].index[-2] == 1
    requires -2 in h.pending && h.pending[-2].roomID == roomID
    ensures RoomOf(OnReply(h, -2, mine).0, roomID).rows == [newer, mine, Item(-2, a)]
  {
    assert [newer, older, Item(-2, a)][1 := mine] == [newer, mine, Item(-2, a)];
  }

  // The other way round is harmless: a message sent into a room of one confirmed row leaves a wrong
  // entry behind, and its reply finds its own row all the same.
  lemma HarmlessSend(roomID: int, first: Message, a: Content, mine: Message)
    requires roomID != INVALID_ID && first.id > 0 && mine.id > 0 && mine.id != first.id
    ensures var sent := Do(Do(Start(), Broadcast(roomID, first)), Send(roomID, a));
            && !AllAgree(sent) && Enabled(sent, Reply(-2, mine))
            && RoomOf(Do(sent, Reply(-2, mine)), roomID).rows == [mine, first]
  {
    var one := Do(Start(), Broadcast(roomID, first));
    var m := RoomOf(one, roomID);
    assert m.rows == [first];
    assert Written(map[], [first], 0, 1, 0) == map[first.id := 0];
    SentRoom(m, -2, a);
    var sent := Do(one, Send(roomID, a));
    assert sent.rooms[roomID].rows == [Item(-2, a), first];
    assert sent.rooms[roomID].rows[1].id == first.id;
    assert RoomOf(Do(sent, Reply(-2, mine)), roomID).rows == [Item(-2, a), first][0 := mine];
  }
}
