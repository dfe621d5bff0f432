/** Every column of the store, read off the history of what was observed. */
module StoreContents {
  import opened Wrappers
  import opened MessageStore
  import opened StoreHistory

  // ---- One save

  function Number(n: Option<int>): int { if n == None then 0 else n.value }

  /** A message sent from this account is already there under another id: in the same thread, with
      the same sticker or the same text, at most 15 seconds apart. */
  ghost predicate SentBefore(t: Tables, m: Observed) {
    && m.outgoing && m.ts.Some?
    && exists k :: k in t.messages
         && k.0 == m.account && k.1 != m.msgId && t.messages[k].thread == m.thread && t.messages[k].outgoing
         && (if m.sticker.Some?
             then t.messages[k].kind == StickerKind && t.messages[k].sticker.Some? && t.messages[k].sticker.value.id == m.sticker.value.id
             else m.body.Some? && t.messages[k].body == m.body)
         && m.ts.value - 15000 <= Number(t.messages[k].ts) <= m.ts.value + 15000
  }

  /** A save changes nothing exactly when the message id is known or the message was sent before;
      otherwise it adds one row and renews the row of its thread, and only that. */
  lemma SaveExactly(t: Tables, m: Observed)
    ensures var v := Saved(t, m);
      var key, thread := (m.account, m.msgId), (m.account, m.thread);
      if key in t.messages || SentBefore(t, m) then v == t
      else
        && v.messages.Keys == t.messages.Keys + {key} && v.threads.Keys == t.threads.Keys + {thread}
        && (forall k :: k in t.messages ==> v.messages[k] == t.messages[k])
        && (forall k :: k in t.threads && k != thread ==> v.threads[k] == t.threads[k])
        && RenewedThread(if thread in t.threads then Some(t.threads[thread]) else None, v.threads[thread], m)
  {
    if SentBefore(t, m) {
      var k :| k in t.messages
        && k.0 == m.account && k.1 != m.msgId && t.messages[k].thread == m.thread && t.messages[k].outgoing
        && (if m.sticker.Some?
            then t.messages[k].kind == StickerKind && t.messages[k].sticker.Some? && t.messages[k].sticker.value.id == m.sticker.value.id
            else m.body.Some? && t.messages[k].body == m.body)
        && m.ts.value - 15000 <= Number(t.messages[k].ts) <= m.ts.value + 15000;
      assert EchoRow(m, k, t.messages[k]);
    }
  }

  /** The thread row after a message was stored: its kind, its title and avatar if it has one, the
      later of the two stamps, and one more unread if it counts. */
  predicate RenewedThread(before: Option<Thread>, after: Thread, m: Observed) {
    && after.kind == m.threadKind
    && after.title == (if m.title.Some? || before == None then m.title else before.value.title)
    && after.avatar == (if m.avatar.Some? || before == None then m.avatar else before.value.avatar)
    && after.unread == (if before == None then 0 else before.value.unread) + (if m.bumpUnread then 1 else 0)
    && (if before == None then after.lastAt == m.ts
        else after.lastAt.Some? && Number(m.ts) <= after.lastAt.value && Number(before.value.lastAt) <= after.lastAt.value
             && (after.lastAt.value == Number(m.ts) || after.lastAt.value == Number(before.value.lastAt)))
  }

  // ---- Message rows

  /** The icon of the last reaction to `key`, or `before` when there is none. */
  function LastReaction(ops: seq<Op>, key: MsgKey, before: Option<string>): Option<string> {
    if ops == [] then before
    else if ops[|ops| - 1].React? && ops[|ops| - 1].key == key then Some(ops[|ops| - 1].icon)
    else LastReaction(ops[..|ops| - 1], key, before)
  }

  /** A row after the operations that followed its insertion. */
  function Aged(row: Row, ops: seq<Op>, key: MsgKey): Row {
    var reacted := row.(reaction := LastReaction(ops, key, row.reaction));
    if Recall(key) in ops then RecalledRow(reacted) else reacted
  }

  /** The i-th operation stored the row `key`. */
  predicate StoredAt(ops: seq<Op>, i: nat, key: MsgKey)
    requires i < |ops|
  {
    ops[i].Save? && Key(ops[i].m) == key && Inserts(Run(EMPTY, ops[..i]), ops[i].m)
  }

  lemma AgedStep(t: Tables, op: Op, row: Row, ops: seq<Op>, key: MsgKey)
    requires key in t.messages && t.messages[key] == Aged(row, ops, key)
    ensures key in Apply(t, op).messages && Apply(t, op).messages[key] == Aged(row, ops + [op], key)
  {
    assert (ops + [op])[..|ops|] == ops;
    if op.Backfill? { BackfillKeeps(t, op.account, op.ids); }
  }

  lemma StoredAtPrefix(ops: seq<Op>, n: nat, i: nat, key: MsgKey)
    requires i < n <= |ops|
    ensures StoredAt(ops[..n], i, key) == StoredAt(ops, i, key)
  {
    assert ops[..n][..i] == ops[..i];
  }

  /** A row is the payload of the save that stored it, with the icon of the last reaction since
      and without content if an undo came since. */
  lemma {:induction false} RowIsHistory(ops: seq<Op>, i: nat, key: MsgKey)
    requires i < |ops| && StoredAt(ops, i, key)
    ensures key in Run(EMPTY, ops).messages
    ensures Run(EMPTY, ops).messages[key] == Aged(RowOf(ops[i].m), ops[i + 1..], key)
  {
    var n := |ops| - 1;
    if i < n {
      StoredAtPrefix(ops, n, i, key);
      RowIsHistory(ops[..n], i, key);
      assert ops[i + 1..] == ops[..n][i + 1..] + [ops[n]];
      AgedStep(Run(EMPTY, ops[..n]), ops[n], RowOf(ops[i].m), ops[..n][i + 1..], key);
    } else {
      assert ops[i + 1..] == [];
    }
  }

  /** An undo erases body, sticker and link of its row and touches nothing else. */
  lemma RecallErases(t: Tables, key: MsgKey)
    requires key in t.messages
    ensures var v := Apply(t, Recall(key));
      var before, after := t.messages[key], v.messages[key];
      && IsRecalled(after) && SameOrigin(before, after) && after.reaction == before.reaction
      && v.threads == t.threads && v.messages.Keys == t.messages.Keys
      && forall k :: k in t.messages && k != key ==> v.messages[k] == t.messages[k]
  {
  }

  /** The j-th operation is the last reaction to `key`. */
  predicate ReactsLast(ops: seq<Op>, j: nat, key: MsgKey)
    requires j < |ops|
  {
    ops[j].React? && ops[j].key == key && forall k :: j < k < |ops| ==> !(ops[k].React? && ops[k].key == key)
  }

  /** The icon of the last reaction in a run, said without recursion. */
  lemma {:induction false} LastReactionIs(ops: seq<Op>, key: MsgKey, before: Option<string>)
    ensures (forall j :: 0 <= j < |ops| ==> !(ops[j].React? && ops[j].key == key)) ==> LastReaction(ops, key, before) == before
    ensures forall j :: 0 <= j < |ops| && ReactsLast(ops, j, key) ==> LastReaction(ops, key, before) == Some(ops[j].icon)
  {
    if ops != [] {
      var n := |ops| - 1;
      LastReactionIs(ops[..n], key, before);
      forall j | 0 <= j < n && ReactsLast(ops, j, key) ensures ReactsLast(ops[..n], j, key) && !ReactsLast(ops, n, key) {
        assert !(ops[n].React? && ops[n].key == key);
      }
    }
  }

  /** A stored row, column by column: origin, content and quote are the message's own until an
      undo follows; from then on the row is erased and marked. */
  lemma RowColumns(ops: seq<Op>, i: nat, key: MsgKey)
    requires i < |ops| && StoredAt(ops, i, key)
    ensures key in Run(EMPTY, ops).messages
    ensures var m, row := ops[i].m, Run(EMPTY, ops).messages[key];
      && key == (m.account, m.msgId)
      && row.thread == m.thread && row.fromId == m.fromId && row.fromName == m.fromName
      && row.outgoing == m.outgoing && row.ts == m.ts && row.quote == m.quote
      && row.kind == (if m.sticker.Some? then StickerKind else Text)
    ensures var m, row := ops[i].m, Run(EMPTY, ops).messages[key];
      if exists j :: i < j < |ops| && ops[j] == Recall(key) then
        row.deleted && row.body == None && row.sticker == None && row.link == None
      else
        && !row.deleted && row.sticker == m.sticker
        && (if m.sticker.Some? then row.body == Some("[Sticker]") && row.link == None else row.body == m.body && row.link == m.link)
    ensures (forall j :: i < j < |ops| ==> !(ops[j].React? && ops[j].key == key)) ==>
              Run(EMPTY, ops).messages[key].reaction == None
    ensures forall j :: i < j < |ops| && ReactsLast(ops, j, key) ==>
              Run(EMPTY, ops).messages[key].reaction == Some(ops[j].icon)
  {
    var later := ops[i + 1..];
    RowIsHistory(ops, i, key);
    LastReactionIs(later, key, None);
    RecalledLater(ops, i, key);
    forall j | i < j < |ops| && ReactsLast(ops, j, key)
      ensures LastReaction(later, key, None) == Some(ops[j].icon)
    {
      assert later[j - i - 1] == ops[j];
      assert ReactsLast(later, j - i - 1, key);
    }
  }

  lemma RecalledLater(ops: seq<Op>, i: nat, key: MsgKey)
    requires i < |ops|
    ensures Recall(key) in ops[i + 1..] <==> exists j :: i < j < |ops| && ops[j] == Recall(key)
  {
    if Recall(key) in ops[i + 1..] {
      var k :| 0 <= k < |ops[i + 1..]| && ops[i + 1..][k] == Recall(key);
      assert ops[i + 1 + k] == Recall(key);
    }
    if j :| i < j < |ops| && ops[j] == Recall(key) { assert ops[i + 1..][j - i - 1] == Recall(key); }
  }

  /** Every row was stored by exactly one save of the run. */
  lemma {:induction false} RowHasOrigin(ops: seq<Op>, key: MsgKey)
    requires key in Run(EMPTY, ops).messages
    ensures exists i :: 0 <= i < |ops| && StoredAt(ops, i, key)
    ensures forall i, j :: 0 <= i < |ops| && 0 <= j < |ops| && StoredAt(ops, i, key) && StoredAt(ops, j, key) ==> i == j
  {
    var n := |ops| - 1;
    var t := Run(EMPTY, ops[..n]);
    if key in t.messages {
      RowHasOrigin(ops[..n], key);
      var i :| 0 <= i < n && StoredAt(ops[..n], i, key);
      StoredAtPrefix(ops, n, i, key);
    } else {
      OnlySaveAdds(t, ops[n], key);
      assert StoredAt(ops, n, key);
    }
    forall i, j | 0 <= i < j < |ops| && StoredAt(ops, i, key) && StoredAt(ops, j, key) ensures false {
      StoredAtPrefix(ops, j, i, key);
      RowIsHistory(ops[..j], i, key);
    }
  }

  lemma OnlySaveAdds(t: Tables, op: Op, key: MsgKey)
    requires key !in t.messages && key in Apply(t, op).messages
    ensures op.Save? && Key(op.m) == key && Inserts(t, op.m)
  {
    if op.Backfill? { BackfillKeeps(t, op.account, op.ids); }
  }

  // ---- Thread identity

  datatype Column = KindColumn | TitleColumn | AvatarColumn

  /** The value of an identity column. */
  function Value(t: Tables, thread: ThreadKey, column: Column): Option<string> {
    if thread !in t.threads then None
    else match column
      case KindColumn => Some(t.threads[thread].kind)
      case TitleColumn => t.threads[thread].title
      case AvatarColumn => t.threads[thread].avatar
  }

  /** What a saved message says about its thread. */
  function Says(m: Observed, column: Column): Option<string> {
    match column
    case KindColumn => Some(m.threadKind)
    case TitleColumn => m.title
    case AvatarColumn => m.avatar
  }

  /** The last non-empty value a backfill has for a thread. */
  function LastNamed(ids: seq<Identity>, thread: string, column: Column): Option<string> {
    if ids == [] then None
    else
      var id := ids[|ids| - 1];
      var named := match column
        case KindColumn => None
        case TitleColumn => id.title
        case AvatarColumn => id.avatar;
      if id.thread == thread && named.Some? && named.value != "" then named else LastNamed(ids[..|ids| - 1], thread, column)
  }

  /** The value an operation on the store `t` supplies for a column of the thread. */
  function SuppliedTo(t: Tables, op: Op, thread: ThreadKey, column: Column): Option<string> {
    match op
    case Save(m) => if ThreadOf(m) == thread && Inserts(t, m) then Says(m, column) else None
    case Backfill(account, ids) => if account == thread.0 && thread in t.threads then LastNamed(ids, thread.1, column) else None
    case _ => None
  }

  /** The value the i-th operation of a run supplies. */
  function Supplied(ops: seq<Op>, i: nat, thread: ThreadKey, column: Column): Option<string>
    requires i < |ops|
  {
    SuppliedTo(Run(EMPTY, ops[..i]), ops[i], thread, column)
  }

  lemma {:induction false} BackfillSnoc(t: Tables, account: string, ids: seq<Identity>, id: Identity)
    ensures Backfilled(t, account, ids + [id]) == Enriched(Backfilled(t, account, ids), account, id)
    decreases |ids|
  {
    if ids == [] {
      assert [] + [id] == [id] && [id][1..] == [];
    } else {
      assert (ids + [id])[1..] == ids[1..] + [id];
      BackfillSnoc(Enriched(t, account, ids[0]), account, ids[1..], id);
    }
  }

  /** A backfill leaves each column at its last non-empty value for the thread. */
  lemma {:induction false} BackfillValue(t: Tables, account: string, ids: seq<Identity>, thread: ThreadKey, column: Column)
    ensures thread in Backfilled(t, account, ids).threads <==> thread in t.threads
    ensures Value(Backfilled(t, account, ids), thread, column) ==
      if thread in t.threads && account == thread.0 then Coalesce(LastNamed(ids, thread.1, column), Value(t, thread, column))
      else Value(t, thread, column)
    decreases |ids|
  {
    if ids != [] {
      var init, last := ids[..|ids| - 1], ids[|ids| - 1];
      assert ids == init + [last];
      BackfillSnoc(t, account, init, last);
      BackfillValue(t, account, init, thread, column);
    }
  }

  /** The entry names a known thread and says something about it. */
  predicate NamesKnown(t: Tables, account: string, id: Identity) {
    && (account, id.thread) in t.threads
    && ((id.title.Some? && id.title.value != "") || (id.avatar.Some? && id.avatar.value != ""))
  }

  function Naming(t: Tables, account: string, ids: seq<Identity>): set<nat> {
    set i: nat | i < |ids| && NamesKnown(t, account, ids[i])
  }

  lemma NamingSnoc(t: Tables, account: string, init: seq<Identity>, id: Identity)
    ensures |Naming(t, account, init + [id])| == |Naming(t, account, init)| + (if NamesKnown(t, account, id) then 1 else 0)
  {
    var n := |init|;
    var more := if NamesKnown(t, account, id) then {n} else {};
    assert (init + [id])[..n] == init;
    assert Naming(t, account, init + [id]) == Naming(t, account, init) + more;
  }

  /** A backfill reports how many of its entries named a known thread. */
  lemma {:induction false} BackfillCounts(t: Tables, account: string, ids: seq<Identity>)
    ensures BackfillCount(t, account, ids) == |Naming(t, account, ids)|
    decreases |ids|
  {
    if ids == [] {
      assert Naming(t, account, ids) == {};
    } else {
      var init, last := ids[..|ids| - 1], ids[|ids| - 1];
      assert ids == init + [last];
      BackfillCountSnoc(t, account, init, last);
      BackfillCounts(t, account, init);
      BackfillKeeps(t, account, init);
      NamingSnoc(t, account, init, last);
    }
  }

  lemma {:induction false} BackfillCountSnoc(t: Tables, account: string, ids: seq<Identity>, id: Identity)
    ensures BackfillCount(t, account, ids + [id])
         == BackfillCount(t, account, ids) + (if Enriches(Backfilled(t, account, ids), account, id) then 1 else 0)
    decreases |ids|
  {
    if ids == [] {
      assert [] + [id] == [id] && [id][1..] == [];
    } else {
      assert (ids + [id])[1..] == ids[1..] + [id];
      BackfillCountSnoc(Enriched(t, account, ids[0]), account, ids[1..], id);
    }
  }

  lemma SavedValue(t: Tables, m: Observed, thread: ThreadKey, column: Column)
    ensures Value(Saved(t, m), thread, column) == Coalesce(SuppliedTo(t, Save(m), thread, column), Value(t, thread, column))
  {
    if Inserts(t, m) && ThreadOf(m) == thread {
      var row := Touched(t, m);
      assert Saved(t, m).threads[thread] == row;
    }
  }

  lemma ValueStep(t: Tables, op: Op, thread: ThreadKey, column: Column)
    ensures Value(Apply(t, op), thread, column) == Coalesce(SuppliedTo(t, op, thread, column), Value(t, thread, column))
  {
    match op
    case Save(m) => SavedValue(t, m, thread, column);
    case Backfill(account, ids) => BackfillValue(t, account, ids, thread, column);
    case _ =>
  }

  lemma ValueAtEnd(ops: seq<Op>, thread: ThreadKey, column: Column)
    requires ops != []
    ensures var n := |ops| - 1;
      Value(Run(EMPTY, ops), thread, column) == Coalesce(Supplied(ops, n, thread, column), Value(Run(EMPTY, ops[..n]), thread, column))
  {
    var n := |ops| - 1;
    ValueStep(Run(EMPTY, ops[..n]), ops[n], thread, column);
  }

  lemma SuppliedPrefix(ops: seq<Op>, n: nat, i: nat, thread: ThreadKey, column: Column)
    requires i < n <= |ops|
    ensures Supplied(ops[..n], i, thread, column) == Supplied(ops, i, thread, column)
  {
    assert ops[..n][..i] == ops[..i];
  }

  /** From the `from`-th operation on, none supplies a value for the column. */
  predicate Silent(ops: seq<Op>, from: nat, thread: ThreadKey, column: Column) {
    forall j :: from <= j < |ops| ==> Supplied(ops, j, thread, column).None?
  }

  lemma SilentPrefix(ops: seq<Op>, n: nat, from: nat, thread: ThreadKey, column: Column)
    requires n <= |ops| && Silent(ops, from, thread, column)
    ensures Silent(ops[..n], from, thread, column)
  {
    forall j | from <= j < n ensures Supplied(ops[..n], j, thread, column).None? {
      SuppliedPrefix(ops, n, j, thread, column);
    }
  }

  /** A thread's kind, title and avatar are each the last one supplied: by a message when it
      was stored, or by a backfill that found the thread there. */
  lemma {:induction false} IdentityIsLastSupplied(ops: seq<Op>, i: nat, thread: ThreadKey, column: Column)
    requires i < |ops| && Supplied(ops, i, thread, column).Some? && Silent(ops, i + 1, thread, column)
    ensures Value(Run(EMPTY, ops), thread, column) == Supplied(ops, i, thread, column)
  {
    var n := |ops| - 1;
    ValueAtEnd(ops, thread, column);
    if i < n {
      SuppliedPrefix(ops, n, i, thread, column);
      SilentPrefix(ops, n, i + 1, thread, column);
      IdentityIsLastSupplied(ops[..n], i, thread, column);
    }
  }

  /** Without any value supplied, the column is empty. */
  lemma {:induction false} IdentityNeverSupplied(ops: seq<Op>, thread: ThreadKey, column: Column)
    requires Silent(ops, 0, thread, column)
    ensures Value(Run(EMPTY, ops), thread, column).None?
  {
    if ops != [] {
      ValueAtEnd(ops, thread, column);
      SilentPrefix(ops, |ops| - 1, 0, thread, column);
      IdentityNeverSupplied(ops[..|ops| - 1], thread, column);
    }
  }

  // ---- Identity after deliveries

  /** The value a column was last given by the deliveries `ms`: by a message new to the store `t`,
      when it arrived for the first time. */
  function LastSaid(t: Tables, ms: seq<Observed>, thread: ThreadKey, column: Column): Option<string> {
    if ms == [] then None
    else
      var init, last := ms[..|ms| - 1], ms[|ms| - 1];
      if New(t, last) && last !in init && ThreadOf(last) == thread && Says(last, column).Some? then Says(last, column)
      else LastSaid(t, init, thread, column)
  }

  lemma {:induction false} DeliveredColumn(t: Tables, ms: seq<Observed>, thread: ThreadKey, column: Column)
    requires Deliveries(ms)
    ensures Value(SaveAll(t, ms), thread, column) == Coalesce(LastSaid(t, ms, thread, column), Value(t, thread, column))
  {
    if ms != [] {
      var init, last := ms[..|ms| - 1], ms[|ms| - 1];
      DeliveriesInit(ms);
      DeliveredColumn(t, init, thread, column);
      DeliveredRows(t, init, Key(last));
      StoredWhenFirst(t, ms);
      SavedValue(SaveAll(t, init), last, thread, column);
    }
  }

  /** The last delivery is stored exactly when it is new and was not delivered before. */
  lemma StoredWhenFirst(t: Tables, ms: seq<Observed>)
    requires ms != [] && Deliveries(ms)
    ensures var init, last := ms[..|ms| - 1], ms[|ms| - 1];
      Inserts(SaveAll(t, init), last) <==> New(t, last) && last !in init
  {
    var init, last := ms[..|ms| - 1], ms[|ms| - 1];
    DeliveriesInit(ms);
    DeliveredRows(t, init, Key(last));
  }

  ghost predicate Tells(t: Tables, m: Observed, thread: ThreadKey, column: Column) {
    New(t, m) && ThreadOf(m) == thread && Says(m, column).Some?
  }

  lemma {:induction false} SaidIff(t: Tables, ms: seq<Observed>, thread: ThreadKey, column: Column)
    ensures LastSaid(t, ms, thread, column).Some? <==> exists m :: m in ms && Tells(t, m, thread, column)
  {
    if ms != [] {
      var init, last := ms[..|ms| - 1], ms[|ms| - 1];
      assert ms == init + [last];
      SaidIff(t, init, thread, column);
      if LastSaid(t, ms, thread, column).Some? && LastSaid(t, init, thread, column).None? {
        assert last in ms && Tells(t, last, thread, column);
      }
      if m :| m in ms && Tells(t, m, thread, column) {
        if m != last || last in init { assert m in init && Tells(t, m, thread, column); }
      }
    }
  }

  /** Deliveries that cover the same messages agree on a thread's kind, title or avatar if and
      only if they gave it the same value last. */
  lemma ColumnConvergesIff(t: Tables, a: seq<Observed>, b: seq<Observed>, thread: ThreadKey, column: Column)
    requires Deliveries(a) && forall m :: m in a <==> m in b
    ensures Value(SaveAll(t, a), thread, column) == Value(SaveAll(t, b), thread, column)
       <==> LastSaid(t, a, thread, column) == LastSaid(t, b, thread, column)
  {
    DeliveredColumn(t, a, thread, column);
    DeliveredColumn(t, b, thread, column);
    SaidIff(t, a, thread, column);
    SaidIff(t, b, thread, column);
  }

  /** Two new messages of one thread that give a column different values leave it different in
      either order. */
  lemma ColumnDiverges(t: Tables, m: Observed, n: Observed, column: Column)
    requires Deliveries([m, n]) && New(t, m) && New(t, n) && ThreadOf(m) == ThreadOf(n)
    requires Says(m, column).Some? && Says(n, column).Some? && Says(m, column) != Says(n, column)
    ensures Value(SaveAll(t, [m, n]), ThreadOf(m), column) == Says(n, column)
    ensures Value(SaveAll(t, [n, m]), ThreadOf(m), column) == Says(m, column)
  {
    assert [m, n][..1] == [m] && [n, m][..1] == [n];
    assert forall x :: x in [n, m] <==> x in [m, n];
    DeliveredColumn(t, [m, n], ThreadOf(m), column);
    DeliveredColumn(t, [n, m], ThreadOf(m), column);
  }
}
