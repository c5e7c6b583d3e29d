// The session store (src/services/db.js) as in-memory table semantics: the
// sessions table is a map from user id to row, the statistics table a log that
// only grows. Each method has the row-level effect of one SQL statement.
module Store {
  import opened Wrappers
  import opened Domain
  import opened Strings
  import Limits

  // ---------------------------------------------------------------------------
  // Ordering by timestamp: `jsonb_agg(elem ORDER BY (elem->>'timestamp')::int)`

  predicate SortedByTimestamp(s: seq<Item>)
  {
    forall i, j :: 0 <= i < j < |s| ==> s[i].timestamp <= s[j].timestamp
  }

  function Timestamps(s: seq<Item>): (r: seq<int>)
    ensures |r| == |s|
    ensures forall i :: 0 <= i < |s| ==> r[i] == s[i].timestamp
  {
    if s == [] then [] else [s[0].timestamp] + Timestamps(s[1..])
  }

  /** Puts x after every element whose timestamp is not greater than its own. */
  function InsertByTimestamp(x: Item, s: seq<Item>): (r: seq<Item>)
    ensures |r| == |s| + 1
    ensures multiset(r) == multiset(s) + multiset{x}
  {
    if s == [] then [x]
    else if x.timestamp < s[0].timestamp then [x] + s
    else
      assert s == [s[0]] + s[1..];
      [s[0]] + InsertByTimestamp(x, s[1..])
  }

  /** Inserting into a sorted buffer keeps it sorted. */
  lemma {:induction false} InsertKeepsSorted(x: Item, s: seq<Item>)
    requires SortedByTimestamp(s)
    ensures SortedByTimestamp(InsertByTimestamp(x, s))
  {
    if s != [] && x.timestamp >= s[0].timestamp {
      var rest := InsertByTimestamp(x, s[1..]);
      InsertKeepsSorted(x, s[1..]);
      forall k | 0 <= k < |rest|
        ensures s[0].timestamp <= rest[k].timestamp
      {
        assert rest[k] in multiset(rest);
        if rest[k] != x {
          assert rest[k] in multiset(s[1..]);
          var m :| 0 <= m < |s[1..]| && s[1..][m] == rest[k];
          assert s[m + 1] == rest[k];
        }
      }
      assert InsertByTimestamp(x, s) == [s[0]] + rest;
    }
  }

  /** The re-sort addMessageToSession applies to the whole buffer. Postgres
      leaves the order of equal timestamps open; this model keeps arrival order
      among them (see SortedPermutationsShareTimestamps for what any order has
      in common). */
  function SortByTimestamp(s: seq<Item>): (r: seq<Item>)
    ensures |r| == |s|
    ensures multiset(r) == multiset(s)
    ensures SortedByTimestamp(r)
  {
    if s == [] then []
    else
      assert s == s[..|s| - 1] + [s[|s| - 1]];
      InsertKeepsSorted(s[|s| - 1], SortByTimestamp(s[..|s| - 1]));
      InsertByTimestamp(s[|s| - 1], SortByTimestamp(s[..|s| - 1]))
  }

  /** An item no earlier than every element goes to the end. */
  lemma {:induction false} InsertLatest(x: Item, s: seq<Item>)
    requires forall k :: 0 <= k < |s| ==> s[k].timestamp <= x.timestamp
    ensures InsertByTimestamp(x, s) == s + [x]
  {
    if s != [] {
      InsertLatest(x, s[1..]);
      assert s == [s[0]] + s[1..];
    }
  }

  /** Dropping the last element of a sorted buffer leaves a sorted buffer
      whose elements are all no later than the dropped one. */
  lemma SortedInit(s: seq<Item>)
    requires SortedByTimestamp(s) && s != []
    ensures SortedByTimestamp(s[..|s| - 1])
    ensures forall k :: 0 <= k < |s| - 1 ==> s[k].timestamp <= s[|s| - 1].timestamp
  {
  }

  /** Re-sorting after appending a latest item to a buffer the sort fixes
      leaves the item at the end. */
  lemma SortAppendLatest(t: seq<Item>, x: Item)
    requires SortByTimestamp(t) == t
    requires forall k :: 0 <= k < |t| ==> t[k].timestamp <= x.timestamp
    ensures SortByTimestamp(t + [x]) == t + [x]
  {
    assert (t + [x])[..|t|] == t;
    assert (t + [x])[|t|] == x;
    InsertLatest(x, t);
  }

  /** Re-sorting an already sorted buffer changes nothing. */
  lemma {:induction false} SortSortedIsIdentity(s: seq<Item>)
    requires SortedByTimestamp(s)
    ensures SortByTimestamp(s) == s
  {
    if s != [] {
      var init := s[..|s| - 1];
      var last := s[|s| - 1];
      assert s == init + [last];
      SortedInit(s);
      SortSortedIsIdentity(init);
      SortAppendLatest(init, last);
      assert SortByTimestamp(s) == SortByTimestamp(init + [last]);
    }
  }

  /** On a sorted buffer the append-and-re-sort is a merge of the new item into
      its sorted position. */
  lemma AppendToSortedIsInsert(s: seq<Item>, x: Item)
    requires SortedByTimestamp(s)
    ensures SortByTimestamp(s + [x]) == InsertByTimestamp(x, s)
  {
    assert (s + [x])[..|s|] == s;
    SortSortedIsIdentity(s);
  }

  function At(ts: int): Item
  {
    Item(Author(false, "Unknown", None), ts, Text, "", NoMetadata)
  }

  /** Appending items stamped 3, 1 and 2, in that arrival order, to an empty
      buffer leaves them in the order 1, 2, 3. */
  lemma OutOfOrderArrivalsEndSorted()
    ensures SortByTimestamp(SortByTimestamp(SortByTimestamp([] + [At(3)]) + [At(1)]) + [At(2)]) == [At(1), At(2), At(3)]
  {
    FirstArrival();
    SecondArrival();
    ThirdArrival();
  }

  lemma FirstArrival()
    ensures SortByTimestamp([] + [At(3)]) == [At(3)]
  {
    AppendToSortedIsInsert([], At(3));
  }

  lemma SecondArrival()
    ensures SortByTimestamp([At(3)] + [At(1)]) == [At(1), At(3)]
  {
    AppendToSortedIsInsert([At(3)], At(1));
  }

  lemma ThirdArrival()
    ensures SortByTimestamp([At(1), At(3)] + [At(2)]) == [At(1), At(2), At(3)]
  {
    ArrivalBetween(At(1), At(3), At(2));
  }

  /** An item stamped between the two of a sorted pair lands between them. */
  lemma ArrivalBetween(a: Item, b: Item, x: Item)
    requires a.timestamp <= x.timestamp < b.timestamp
    ensures SortByTimestamp([a, b] + [x]) == [a, x, b]
  {
    PairSorted(a, b);
    AppendToSortedIsInsert([a, b], x);
    InsertBetween(a, b, x);
  }

  lemma PairSorted(a: Item, b: Item)
    requires a.timestamp <= b.timestamp
    ensures SortedByTimestamp([a, b])
  {
  }

  lemma InsertBetween(a: Item, b: Item, x: Item)
    requires a.timestamp <= x.timestamp < b.timestamp
    ensures InsertByTimestamp(x, [a, b]) == [a, x, b]
  {
    InsertAfterHead(x, [a, b]);
    assert [a, b][1..] == [b];
    InsertBeforeHead(x, [b]);
  }

  lemma InsertBeforeHead(x: Item, s: seq<Item>)
    requires s != [] && x.timestamp < s[0].timestamp
    ensures InsertByTimestamp(x, s) == [x] + s
  {
  }

  lemma InsertAfterHead(x: Item, s: seq<Item>)
    requires s != [] && x.timestamp >= s[0].timestamp
    ensures InsertByTimestamp(x, s) == [s[0]] + InsertByTimestamp(x, s[1..])
  {
  }

  /** In a sorted buffer, everything up to an element with the first element's
      timestamp carries that timestamp. */
  lemma EqualRun(b: seq<Item>, j: nat)
    requires SortedByTimestamp(b) && j < |b| && b[j].timestamp == b[0].timestamp
    ensures forall k :: 0 <= k <= j ==> b[k].timestamp == b[0].timestamp
  {
  }

  /** Removing one element keeps a buffer sorted. */
  lemma SortedRemoveAt(b: seq<Item>, j: nat)
    requires SortedByTimestamp(b) && j < |b|
    ensures SortedByTimestamp(b[..j] + b[j + 1..])
  {
    var b' := b[..j] + b[j + 1..];
    forall p, q | 0 <= p < q < |b'| ensures b'[p].timestamp <= b'[q].timestamp {
      var p' := if p < j then p else p + 1;
      var q' := if q < j then q else q + 1;
      assert b'[p] == b[p'] && b'[q] == b[q'];
    }
  }

  /** When the first j + 1 elements share a timestamp, moving element j to the
      front keeps the timestamp sequence. */
  lemma {:induction false} MoveToFrontKeepsTimestamps(b: seq<Item>, j: nat)
    requires j < |b|
    requires forall k :: 0 <= k <= j ==> b[k].timestamp == b[0].timestamp
    ensures Timestamps(b) == [b[j].timestamp] + Timestamps(b[..j] + b[j + 1..])
    decreases j
  {
    if j == 0 {
      assert b[..j] + b[j + 1..] == b[1..];
    } else {
      var t := b[1..];
      assert t[j - 1] == b[j];
      assert forall k :: 0 <= k <= j - 1 ==> t[k].timestamp == t[0].timestamp by {
        forall k | 0 <= k <= j - 1 ensures t[k].timestamp == t[0].timestamp {
          assert t[k] == b[k + 1];
        }
      }
      MoveToFrontKeepsTimestamps(t, j - 1);
      var rest := t[..j - 1] + t[j..];
      assert b[..j] + b[j + 1..] == [b[0]] + rest;
      assert Timestamps([b[0]] + rest) == [b[0].timestamp] + Timestamps(rest);
    }
  }

  /** Whatever order Postgres gives to items with equal timestamps, every sorted
      permutation of a buffer has the same sequence of timestamps: the model's
      choice of tie order is the only freedom left. */
  lemma {:induction false} SortedPermutationsShareTimestamps(a: seq<Item>, b: seq<Item>)
    requires SortedByTimestamp(a) && SortedByTimestamp(b)
    requires multiset(a) == multiset(b)
    ensures Timestamps(a) == Timestamps(b)
    decreases |a|
  {
    if a == [] {
      assert |b| == |multiset(b)| == 0;
    } else {
      assert a[0] in multiset(b);
      var j :| 0 <= j < |b| && b[j] == a[0];
      assert b[0] in multiset(a);
      var i :| 0 <= i < |a| && a[i] == b[0];
      assert a[0].timestamp <= a[i].timestamp;
      assert b[0].timestamp <= b[j].timestamp;
      var b' := b[..j] + b[j + 1..];
      Limits.MultisetRemove(a, b, j);
      SortedRemoveAt(b, j);
      assert SortedByTimestamp(a[1..]);
      SortedPermutationsShareTimestamps(a[1..], b');
      EqualRun(b, j);
      MoveToFrontKeepsTimestamps(b, j);
      assert Timestamps(a) == [a[0].timestamp] + Timestamps(a[1..]);
    }
  }

  // ---------------------------------------------------------------------------
  // Partial updates: updateSession(userId, data)

  /** The `data` argument of updateSession: `None` is `undefined` (the column is
      left alone); a supplied nullable column is `Some(None)` for `null`. */
  datatype Patch = Patch(
    state: Option<State>,
    messages: Option<seq<Item>>,
    lastInstruction: Option<Option<string>>,
    lastMessageId: Option<Option<MessageId>>)

  /** The row-level meaning of an update: each supplied field takes its new
      value, every other field keeps its old one. */
  function ApplyPatch(s: Session, p: Patch): Session
  {
    Session(
      if p.state.Some? then p.state.value else s.state,
      if p.messages.Some? then p.messages.value else s.messages,
      if p.lastInstruction.Some? then p.lastInstruction.value else s.lastInstruction,
      if p.lastMessageId.Some? then p.lastMessageId.value else s.lastMessageId)
  }

  function SuppliedCount(p: Patch): nat
  {
    (if p.state.Some? then 1 else 0) + (if p.messages.Some? then 1 else 0)
    + (if p.lastInstruction.Some? then 1 else 0) + (if p.lastMessageId.Some? then 1 else 0)
  }

  /** Applying the same update twice is applying it once. */
  lemma ApplyPatchIdempotent(s: Session, p: Patch)
    ensures ApplyPatch(ApplyPatch(s, p), p) == ApplyPatch(s, p)
  {
  }

  /** An update that supplies nothing leaves the row as it was. */
  lemma EmptyPatchIsIdentity(s: Session)
    ensures ApplyPatch(s, Patch(None, None, None, None)) == s
  {
  }

  datatype Column = StateColumn | MessagesColumn | LastInstructionColumn | LastMessageIdColumn

  /** One entry of the `updates` list: `column = $n`, or `updated_at = NOW()`. */
  datatype Assignment = SetParam(column: Column, param: nat) | SetUpdatedAtNow

  /** One entry of the `values` list. */
  datatype SqlValue =
    | StateValue(state: State)
    | MessagesValue(messages: seq<Item>)
    | InstructionValue(instruction: Option<string>)
    | MessageIdValue(messageId: Option<MessageId>)
    | UserIdValue(userId: UserId)

  function ColumnName(c: Column): string
  {
    match c
    case StateColumn => "state"
    case MessagesColumn => "messages"
    case LastInstructionColumn => "last_instruction"
    case LastMessageIdColumn => "last_message_id"
  }

  function RenderAssignment(a: Assignment): string
  {
    match a
    case SetParam(c, n) => ColumnName(c) + " = $" + NatToString(n)
    case SetUpdatedAtNow => "updated_at = NOW()"
  }

  function RenderAll(updates: seq<Assignment>): (r: seq<string>)
    ensures |r| == |updates|
    ensures forall i :: 0 <= i < |updates| ==> r[i] == RenderAssignment(updates[i])
  {
    if updates == [] then []
    else
      var rest := RenderAll(updates[1..]);
      assert forall i :: 1 <= i < |updates| ==> updates[1..][i - 1] == updates[i];
      [RenderAssignment(updates[0])] + rest
  }

  /** What Postgres does with one assignment on the matched row: the column
      takes the value its placeholder refers to. */
  function Assign(s: Session, a: Assignment, values: seq<SqlValue>): Session
  {
    match a
    case SetUpdatedAtNow => s
    case SetParam(c, n) =>
      if 1 <= n <= |values| then
        match (c, values[n - 1])
        case (StateColumn, StateValue(x)) => s.(state := x)
        case (MessagesColumn, MessagesValue(x)) => s.(messages := x)
        case (LastInstructionColumn, InstructionValue(x)) => s.(lastInstruction := x)
        case (LastMessageIdColumn, MessageIdValue(x)) => s.(lastMessageId := x)
        case _ => s
      else s
  }

  /** The statement's SET list applied left to right to the matched row. */
  function Execute(s: Session, updates: seq<Assignment>, values: seq<SqlValue>): Session
    decreases |updates|
  {
    if updates == [] then s
    else Assign(Execute(s, updates[..|updates| - 1], values), updates[|updates| - 1], values)
  }

  /** Every placeholder in the list refers to one of the first n values. */
  predicate ParamsWithin(updates: seq<Assignment>, n: nat)
  {
    forall k :: 0 <= k < |updates| && updates[k].SetParam? ==> 1 <= updates[k].param <= n
  }

  /** Values past the last referenced placeholder are not read by the SET list. */
  lemma {:induction false} ExecuteIgnoresLaterValues(s: Session, updates: seq<Assignment>, values: seq<SqlValue>, v: SqlValue)
    requires ParamsWithin(updates, |values|)
    ensures Execute(s, updates, values + [v]) == Execute(s, updates, values)
    decreases |updates|
  {
    if updates != [] {
      var init := updates[..|updates| - 1];
      assert ParamsWithin(init, |values|) by {
        forall k | 0 <= k < |init| && init[k].SetParam? ensures 1 <= init[k].param <= |values| {
          assert init[k] == updates[k];
        }
      }
      ExecuteIgnoresLaterValues(s, init, values, v);
      assert updates[|updates| - 1].SetParam? ==> 1 <= updates[|updates| - 1].param <= |values|;
    }
  }

  /** The SET list, executed against the values, is the field-wise update p. */
  ghost predicate Realizes(updates: seq<Assignment>, values: seq<SqlValue>, p: Patch)
  {
    forall s :: Execute(s, updates, values) == ApplyPatch(s, p)
  }

  /** SET placeholders numbered 1, 2, ... in list order. */
  predicate Numbered(updates: seq<Assignment>)
  {
    forall k :: 0 <= k < |updates| ==> updates[k].SetParam? && updates[k].param == k + 1
  }

  /** The column a pushed value is written to. */
  function ColumnOf(v: SqlValue): Column
    requires !v.UserIdValue?
  {
    match v
    case StateValue(_) => StateColumn
    case MessagesValue(_) => MessagesColumn
    case InstructionValue(_) => LastInstructionColumn
    case MessageIdValue(_) => LastMessageIdColumn
  }

  /** The update p extended with one more supplied field. */
  function Supply(p: Patch, v: SqlValue): Patch
    requires !v.UserIdValue?
  {
    match v
    case StateValue(x) => p.(state := Some(x))
    case MessagesValue(x) => p.(messages := Some(x))
    case InstructionValue(x) => p.(lastInstruction := Some(x))
    case MessageIdValue(x) => p.(lastMessageId := Some(x))
  }

  /** One `updates.push(... $${paramIndex++})` with its `values.push`: the
      numbering continues and the statement now also supplies that field. */
  lemma PushFieldEffect(updates: seq<Assignment>, values: seq<SqlValue>, applied: Patch, v: SqlValue)
    requires !v.UserIdValue?
    requires Numbered(updates) && |values| == |updates|
    requires Realizes(updates, values, applied)
    ensures Numbered(updates + [SetParam(ColumnOf(v), |updates| + 1)])
    ensures Realizes(updates + [SetParam(ColumnOf(v), |updates| + 1)], values + [v], Supply(applied, v))
  {
    var a := SetParam(ColumnOf(v), |updates| + 1);
    assert ParamsWithin(updates, |values|);
    forall s ensures Execute(s, updates + [a], values + [v]) == ApplyPatch(s, Supply(applied, v)) {
      assert (updates + [a])[..|updates|] == updates;
      ExecuteIgnoresLaterValues(s, updates, values, v);
    }
  }

  /** The closing `updated_at = NOW()` and the user id: the effect is unchanged. */
  lemma PushClosing(updates: seq<Assignment>, values: seq<SqlValue>, applied: Patch, userId: UserId)
    requires Numbered(updates) && |values| == |updates|
    requires Realizes(updates, values, applied)
    ensures Realizes(updates + [SetUpdatedAtNow], values + [UserIdValue(userId)], applied)
  {
    assert ParamsWithin(updates, |values|);
    forall s ensures Execute(s, updates + [SetUpdatedAtNow], values + [UserIdValue(userId)]) == ApplyPatch(s, applied) {
      assert (updates + [SetUpdatedAtNow])[..|updates|] == updates;
      ExecuteIgnoresLaterValues(s, updates, values, UserIdValue(userId));
    }
  }

  /** One `if (data.x !== undefined)` block of updateSession:
      `updates.push(\`x = $${paramIndex++}\`)` and `values.push(value)`. */
  method PushField(updates: seq<Assignment>, values: seq<SqlValue>, paramIndex: nat, v: SqlValue, ghost applied: Patch)
    returns (updates': seq<Assignment>, values': seq<SqlValue>, paramIndex': nat)
    requires !v.UserIdValue?
    requires paramIndex == |updates| + 1 && |values| == |updates|
    requires Numbered(updates) && Realizes(updates, values, applied)
    ensures paramIndex' == paramIndex + 1 && paramIndex' == |updates'| + 1 && |values'| == |updates'|
    ensures updates' == updates + [SetParam(ColumnOf(v), paramIndex)] && values' == values + [v]
    ensures Numbered(updates') && Realizes(updates', values', Supply(applied, v))
  {
    PushFieldEffect(updates, values, applied, v);
    updates' := updates + [SetParam(ColumnOf(v), paramIndex)];
    paramIndex' := paramIndex + 1;
    values' := values + [v];
  }

  /** The WHERE clause updateSession ends its statement with. */
  function WhereClause(param: nat): string
  {
    " WHERE user_id = $" + NatToString(param) + " RETURNING *"
  }

  /** updateSession's statement building, one supplied field at a time. The SET
      placeholders are numbered 1, 2, ... in order, the user id is the last value
      and its placeholder is one past the supplied fields, and executing the SET
      list against the values is the field-wise update of the row. */
  method BuildUpdate(userId: UserId, data: Patch)
    returns (sql: string, updates: seq<Assignment>, values: seq<SqlValue>, whereParam: nat)
    ensures whereParam == SuppliedCount(data) + 1
    ensures |values| == whereParam && values[whereParam - 1] == UserIdValue(userId)
    ensures |updates| == whereParam && updates[|updates| - 1] == SetUpdatedAtNow
    ensures Numbered(updates[..|updates| - 1])
    ensures sql == "UPDATE sessions SET " + Join(RenderAll(updates), ", ") + WhereClause(whereParam)
    ensures Realizes(updates, values, data)
  {
    var paramIndex;
    updates, values, paramIndex := PushSupplied(data);
    PushClosing(updates, values, data, userId);
    ghost var setList := updates;
    updates := updates + [SetUpdatedAtNow];
    values := values + [UserIdValue(userId)];
    assert updates[..|updates| - 1] == setList;

    sql := "UPDATE sessions SET " + Join(RenderAll(updates), ", ") + WhereClause(paramIndex);
    whereParam := paramIndex;
  }

  /** The four `if (data.x !== undefined)` blocks: one numbered placeholder and
      one value per supplied field, in column order. */
  method PushSupplied(data: Patch) returns (updates: seq<Assignment>, values: seq<SqlValue>, paramIndex: nat)
    ensures paramIndex == SuppliedCount(data) + 1 && paramIndex == |updates| + 1 && |values| == |updates|
    ensures Numbered(updates) && Realizes(updates, values, data)
  {
    updates := [];
    values := [];
    paramIndex := 1;
    ghost var applied := Patch(None, None, None, None);

    if data.state.Some? {
      updates, values, paramIndex := PushField(updates, values, paramIndex, StateValue(data.state.value), applied);
      applied := Supply(applied, StateValue(data.state.value));
    }
    if data.messages.Some? {
      updates, values, paramIndex := PushField(updates, values, paramIndex, MessagesValue(data.messages.value), applied);
      applied := Supply(applied, MessagesValue(data.messages.value));
    }
    if data.lastInstruction.Some? {
      updates, values, paramIndex := PushField(updates, values, paramIndex, InstructionValue(data.lastInstruction.value), applied);
      applied := Supply(applied, InstructionValue(data.lastInstruction.value));
    }
    if data.lastMessageId.Some? {
      updates, values, paramIndex := PushField(updates, values, paramIndex, MessageIdValue(data.lastMessageId.value), applied);
      applied := Supply(applied, MessageIdValue(data.lastMessageId.value));
    }
    assert applied == data;
  }


  // ---------------------------------------------------------------------------
  // The tables

  /** One row of the statistics table, as far as the model follows it: who,
      what kind of action, the limit code of a rejection, the buffer length at
      the time and whether it records an error. Model name, token count and
      response time are not modelled. */
  datatype Stat = Stat(
    userId: UserId,
    actionType: string,
    limitType: Option<Limits.LimitType>,
    sessionMessagesCount: Option<nat>,
    errorOccurred: bool)

  /** A statistics row with no optional column set. */
  function Event(userId: UserId, actionType: string): Stat
  {
    Stat(userId, actionType, None, None, false)
  }

  /** A row whose buffer is within the limits and ordered by timestamp. */
  predicate ValidSession(s: Session)
  {
    Limits.WithinLimits(s.messages) && SortedByTimestamp(s.messages)
  }

  /** The table invariant: every row is valid. */
  predicate ValidRows(rows: map<UserId, Session>)
  {
    forall u :: u in rows ==> ValidSession(rows[u])
  }

  /** Storing a valid row keeps the table invariant. */
  lemma ValidRowsUpdate(rows: map<UserId, Session>, userId: UserId, s: Session)
    requires ValidRows(rows) && ValidSession(s)
    ensures ValidRows(rows[userId := s])
  {
  }

  /** Removing a row keeps the table invariant. */
  lemma ValidRowsRemove(rows: map<UserId, Session>, userId: UserId)
    requires ValidRows(rows)
    ensures ValidRows(rows - {userId})
  {
  }

  /** A second write to the same row replaces the first. */
  lemma Overwrite(rows: map<UserId, Session>, userId: UserId, first: Session, second: Session)
    ensures rows[userId := first][userId := second] == rows[userId := second]
  {
  }

  /** A fresh row is valid. */
  lemma NewSessionValid(state: State)
    ensures ValidSession(NewSession(state))
  {
    assert Limits.CountKind([], Image) == 0;
    assert Limits.CountKind([], Voice) == 0;
  }

  /** The sessions table (user id to row) and the statistics table. */
  class SessionTable {
    var rows: map<UserId, Session>
    var statistics: seq<Stat>

    /** Every stored buffer is within the limits and ordered by timestamp. */
    predicate Valid()
      reads this`rows
    {
      ValidRows(rows)
    }

    constructor()
      ensures rows == map[] && statistics == []
      ensures Valid()
    {
      rows := map[];
      statistics := [];
    }

    /** `SELECT * FROM sessions WHERE user_id = $1`: the row or null. */
    method GetSession(userId: UserId) returns (r: Option<Session>)
      ensures r.Some? <==> userId in rows
      ensures r.Some? ==> r.value == rows[userId]
    {
      r := if userId in rows then Some(rows[userId]) else None;
    }

    /** Plain INSERT: a second row for the same user violates the primary key. */
    method CreateSession(userId: UserId, state: State) returns (r: Result<Session, string>)
      modifies this`rows
      ensures userId in old(rows) ==> r.Failure? && rows == old(rows)
      ensures userId !in old(rows) ==> r == Success(NewSession(state)) && rows == old(rows)[userId := NewSession(state)]
    {
      if userId in rows {
        r := Failure("duplicate key value violates unique constraint \"sessions_pkey\"");
      } else {
        rows := rows[userId := NewSession(state)];
        r := Success(rows[userId]);
      }
    }

    /** INSERT ... ON CONFLICT DO UPDATE: afterwards the row is a fresh one in
        the given state, whether or not it existed. */
    method EnsureSession(userId: UserId, state: State) returns (r: Session)
      modifies this`rows
      ensures rows == old(rows)[userId := NewSession(state)]
      ensures r == NewSession(state)
    {
      rows := rows[userId := NewSession(state)];
      r := rows[userId];
    }

    /** UPDATE ... SET state, messages = '[]', both last fields NULL: an existing
        row restarts in the given state; for an absent user nothing matches and
        nothing is created. */
    method ResetSession(userId: UserId, state: State) returns (r: Option<Session>)
      modifies this`rows
      ensures userId in old(rows) ==> rows == old(rows)[userId := NewSession(state)] && r == Some(NewSession(state))
      ensures userId !in old(rows) ==> rows == old(rows) && r.None?
    {
      if userId in rows {
        rows := rows[userId := NewSession(state)];
        r := Some(rows[userId]);
      } else {
        r := None;
      }
    }

    /** INSERT ... ON CONFLICT DO NOTHING, then a SELECT when nothing was
        inserted: an existing row is returned untouched. */
    method GetOrCreateSession(userId: UserId, state: State) returns (r: Session)
      modifies this`rows
      ensures userId in old(rows) ==> rows == old(rows) && r == old(rows)[userId]
      ensures userId !in old(rows) ==> rows == old(rows)[userId := NewSession(state)] && r == NewSession(state)
      ensures userId in rows && rows[userId] == r
    {
      if userId !in rows {
        rows := rows[userId := NewSession(state)];
        r := rows[userId];
      } else {
        var found := GetSession(userId);
        r := found.value;
      }
    }

    /** The built UPDATE run against the table: the row whose key is the last
        parameter receives the SET list; no row matching means no change. */
    method UpdateSession(userId: UserId, data: Patch) returns (r: Option<Session>)
      modifies this`rows
      ensures userId in old(rows) ==>
                rows == old(rows)[userId := ApplyPatch(old(rows)[userId], data)] && r == Some(rows[userId])
      ensures userId !in old(rows) ==> rows == old(rows) && r.None?
    {
      var sql, updates, values, whereParam := BuildUpdate(userId, data);
      var target := values[whereParam - 1].userId;
      if target in rows {
        rows := rows[target := Execute(rows[target], updates, values)];
        r := Some(rows[target]);
      } else {
        r := None;
      }
    }

    /** DELETE: afterwards the user has no row, whether or not one existed. */
    method DeleteSession(userId: UserId)
      modifies this`rows
      ensures rows == old(rows) - {userId}
      ensures userId !in rows
    {
      rows := rows - {userId};
    }

    /** The atomic append: the row's buffer becomes the old buffer plus the item,
        re-sorted by timestamp; nothing else in the row changes. */
    method AddMessageToSession(userId: UserId, item: Item) returns (r: Option<Session>)
      modifies this`rows
      ensures userId in old(rows) ==>
                && rows == old(rows)[userId := old(rows)[userId].(messages := SortByTimestamp(old(rows)[userId].messages + [item]))]
                && r == Some(rows[userId])
      ensures userId !in old(rows) ==> rows == old(rows) && r.None?
    {
      if userId in rows {
        var row := rows[userId];
        rows := rows[userId := row.(messages := SortByTimestamp(row.messages + [item]))];
        r := Some(rows[userId]);
      } else {
        r := None;
      }
    }

    /** logAction never throws: a failed insert (`written` false) is swallowed
        and only the statistics table is ever touched. */
    method LogAction(stat: Stat, written: bool)
      modifies this`statistics
      ensures statistics == if written then old(statistics) + [stat] else old(statistics)
    {
      if written {
        statistics := statistics + [stat];
      }
    }
  }
}
