/** What the store's counters and rows mean in terms of everything that was observed. */
module StoreHistory {
  import opened Wrappers
  import opened MessageStore

  datatype Op =
    | Save(m: Observed)
    | ClearUnread(thread: ThreadKey)
    | React(key: MsgKey, icon: string)
    | Recall(key: MsgKey)
    | Backfill(account: string, ids: seq<Identity>)

  function Apply(t: Tables, op: Op): Tables {
    match op
    case Save(m) => Saved(t, m)
    case ClearUnread(key) => UnreadCleared(t, key)
    case React(key, icon) => Reacted(t, key, icon)
    case Recall(key) => Recalled(t, key)
    case Backfill(account, ids) => Backfilled(t, account, ids)
  }

  /** The store after a run, the last operation outermost. */
  function Run(t: Tables, ops: seq<Op>): Tables {
    if ops == [] then t else Apply(Run(t, ops[..|ops| - 1]), ops[|ops| - 1])
  }

  // ---- What one operation may change

  /** The columns of a row that nothing ever rewrites. */
  predicate SameOrigin(a: Row, b: Row) {
    && a.thread == b.thread && a.fromId == b.fromId && a.fromName == b.fromName
    && a.outgoing == b.outgoing && a.kind == b.kind && a.ts == b.ts && a.quote == b.quote
  }

  /** A row keeps its content or loses it for good. */
  predicate SameOrRecalled(before: Row, after: Row) {
    && SameOrigin(before, after)
    && (before.deleted ==> after.deleted)
    && (after.body == before.body || after.body == None)
    && (after.sticker == before.sticker || after.sticker == None)
    && (after.link == before.link || after.link == None)
  }

  predicate IsRecalled(row: Row) { row.deleted && row.body.None? && row.sticker.None? && row.link.None? }

  lemma {:induction false} BackfillKeeps(t: Tables, account: string, ids: seq<Identity>)
    ensures var v := Backfilled(t, account, ids);
      && v.messages == t.messages && v.threads.Keys == t.threads.Keys
      && forall key :: key in t.threads ==>
        v.threads[key].lastAt == t.threads[key].lastAt && v.threads[key].unread == t.threads[key].unread
    decreases |ids|
  {
    if ids != [] { BackfillKeeps(Enriched(t, account, ids[0]), account, ids[1..]); }
  }

  lemma ApplyKeepsRows(t: Tables, op: Op)
    ensures t.messages.Keys <= Apply(t, op).messages.Keys
    ensures forall key :: key in t.messages ==> SameOrRecalled(t.messages[key], Apply(t, op).messages[key])
  {
    if op.Backfill? { BackfillKeeps(t, op.account, op.ids); }
  }

  /** Rows are never dropped, re-attributed or un-recalled; in particular no later save,
      reaction or backfill brings back the body, sticker or link of a recalled row. */
  lemma {:induction false} RowsPersist(t: Tables, ops: seq<Op>, key: MsgKey)
    requires key in t.messages
    ensures key in Run(t, ops).messages
    ensures SameOrRecalled(t.messages[key], Run(t, ops).messages[key])
    ensures IsRecalled(t.messages[key]) ==> IsRecalled(Run(t, ops).messages[key])
  {
    if ops != [] {
      RowsPersist(t, ops[..|ops| - 1], key);
      ApplyKeepsRows(Run(t, ops[..|ops| - 1]), ops[|ops| - 1]);
    }
  }

  /** An undo is remembered exactly when its row exists: arriving before the message it
      recalls, it is lost. */
  lemma UndoCommutesWithSaveIff(t: Tables, m: Observed)
    ensures Saved(Recalled(t, Key(m)), m) == Recalled(Saved(t, m), Key(m)) <==> !Inserts(t, m)
  {
    var key := Key(m);
    if key in t.messages {
      assert Key(m) in Recalled(t, key).messages;
    } else if Inserts(t, m) {
      assert !Saved(t, m).messages[key].deleted && Recalled(Saved(t, m), key).messages[key].deleted;
    }
  }

  // ---- Threads mirror messages

  predicate InThread(t: Tables, key: MsgKey, thread: ThreadKey)
    requires key in t.messages
  {
    key.0 == thread.0 && t.messages[key].thread == thread.1
  }

  /** Each message has its thread row, each thread row a message, and its `last_at` is the
      latest stamp among them. */
  ghost predicate Linked(t: Tables) {
    && (forall key :: key in t.messages ==> (key.0, t.messages[key].thread) in t.threads)
    && (forall key, thread :: key in t.messages && thread in t.threads && InThread(t, key, thread) ==>
          OrZero(t.messages[key].ts) <= OrZero(t.threads[thread].lastAt))
    && (forall thread :: thread in t.threads ==> HasLatest(t, thread))
  }

  ghost predicate HasLatest(t: Tables, thread: ThreadKey)
    requires thread in t.threads
  {
    exists key :: key in t.messages && InThread(t, key, thread)
      && OrZero(t.messages[key].ts) == OrZero(t.threads[thread].lastAt)
  }

  /** `v` is `t` with a new row and the `last_at` of its thread raised to its stamp. */
  ghost predicate AddsRow(t: Tables, v: Tables, key: MsgKey, row: Row) {
    var thread := (key.0, row.thread);
    && key !in t.messages && v.messages == t.messages[key := row]
    && thread in v.threads && v.threads == t.threads[thread := v.threads[thread]]
    && OrZero(v.threads[thread].lastAt)
       == if thread in t.threads then Max(OrZero(row.ts), OrZero(t.threads[thread].lastAt)) else OrZero(row.ts)
  }

  lemma NewRowLatest(t: Tables, v: Tables, key: MsgKey, row: Row, thread: ThreadKey)
    requires Linked(t) && AddsRow(t, v, key, row) && thread in v.threads
    ensures HasLatest(v, thread)
  {
    if thread == (key.0, row.thread) && OrZero(v.threads[thread].lastAt) == OrZero(row.ts) {
      assert InThread(v, key, thread);
    } else {
      assert HasLatest(t, thread);
      var latest :| latest in t.messages && InThread(t, latest, thread)
                    && OrZero(t.messages[latest].ts) == OrZero(t.threads[thread].lastAt);
      assert InThread(v, latest, thread);
    }
  }

  lemma NewRowBound(t: Tables, v: Tables, key: MsgKey, row: Row, k: MsgKey, thread: ThreadKey)
    requires Linked(t) && AddsRow(t, v, key, row)
    requires k in v.messages && thread in v.threads && InThread(v, k, thread)
    ensures OrZero(v.messages[k].ts) <= OrZero(v.threads[thread].lastAt)
  {
    if k != key { assert InThread(t, k, thread); }
  }

  lemma NewRowKeepsLinked(t: Tables, v: Tables, key: MsgKey, row: Row)
    requires Linked(t) && AddsRow(t, v, key, row)
    ensures Linked(v)
  {
    forall thread | thread in v.threads ensures HasLatest(v, thread) {
      NewRowLatest(t, v, key, row, thread);
    }
    forall k, thread | k in v.messages && thread in v.threads && InThread(v, k, thread)
      ensures OrZero(v.messages[k].ts) <= OrZero(v.threads[thread].lastAt)
    {
      NewRowBound(t, v, key, row, k, thread);
    }
  }

  lemma SaveKeepsLinked(t: Tables, m: Observed)
    requires Linked(t)
    ensures Linked(Saved(t, m))
  {
    if Inserts(t, m) {
      NewRowKeepsLinked(t, Saved(t, m), Key(m), RowOf(m));
    }
  }

  /** Any change that leaves ids, stamps and `last_at` alone keeps the tables linked. */
  lemma SameShapeKeepsLinked(t: Tables, v: Tables)
    requires Linked(t)
    requires v.messages.Keys == t.messages.Keys && v.threads.Keys == t.threads.Keys
    requires forall key :: key in t.messages ==> SameOrigin(t.messages[key], v.messages[key])
    requires forall thread :: thread in t.threads ==> v.threads[thread].lastAt == t.threads[thread].lastAt
    ensures Linked(v)
  {
    forall thread | thread in v.threads ensures HasLatest(v, thread) {
      assert HasLatest(t, thread);
      var key :| key in t.messages && InThread(t, key, thread)
                 && OrZero(t.messages[key].ts) == OrZero(t.threads[thread].lastAt);
      assert InThread(v, key, thread);
    }
    forall key, thread | key in v.messages && thread in v.threads && InThread(v, key, thread)
      ensures OrZero(v.messages[key].ts) <= OrZero(v.threads[thread].lastAt)
    {
      assert InThread(t, key, thread);
    }
  }

  lemma RowOpShape(t: Tables, op: Op)
    requires op.ClearUnread? || op.React? || op.Recall?
    ensures var v := Apply(t, op);
      && v.messages.Keys == t.messages.Keys && v.threads.Keys == t.threads.Keys
      && (forall key :: key in t.messages ==> SameOrigin(t.messages[key], v.messages[key]))
      && (forall thread :: thread in t.threads ==> v.threads[thread].lastAt == t.threads[thread].lastAt)
      && (!op.ClearUnread? ==> v.threads == t.threads)
  {
  }

  lemma ApplyKeepsLinked(t: Tables, op: Op)
    requires Linked(t)
    ensures Linked(Apply(t, op))
  {
    if op.Save? {
      SaveKeepsLinked(t, op.m);
    } else {
      if op.Backfill? { BackfillKeeps(t, op.account, op.ids); } else { RowOpShape(t, op); }
      SameShapeKeepsLinked(t, Apply(t, op));
    }
  }

  /** In every reachable store, threads and messages agree. */
  lemma {:induction false} RunKeepsLinked(ops: seq<Op>)
    ensures Linked(Run(EMPTY, ops))
  {
    if ops != [] {
      RunKeepsLinked(ops[..|ops| - 1]);
      ApplyKeepsLinked(Run(EMPTY, ops[..|ops| - 1]), ops[|ops| - 1]);
    }
  }

  // ---- Unread

  /** Where the operations after the last `clear_unread` of a thread begin. */
  function SinceClear(ops: seq<Op>, thread: ThreadKey): (i: nat)
    ensures i <= |ops|
  {
    if ops == [] then 0
    else if ops[|ops| - 1] == ClearUnread(thread) then |ops|
    else SinceClear(ops[..|ops| - 1], thread)
  }

  /** The i-th operation stored the message `key` of `thread` as unread. */
  predicate CountsAt(ops: seq<Op>, i: nat, thread: ThreadKey, key: MsgKey)
    requires i < |ops|
  {
    && ops[i].Save? && Key(ops[i].m) == key && ThreadOf(ops[i].m) == thread && ops[i].m.bumpUnread
    && Inserts(Run(EMPTY, ops[..i]), ops[i].m)
  }

  /** The distinct messages stored as unread since the thread was last read. */
  ghost function UnreadKeys(ops: seq<Op>, thread: ThreadKey): set<MsgKey> {
    set key | key in Run(EMPTY, ops).messages
      && exists i :: SinceClear(ops, thread) <= i < |ops| && CountsAt(ops, i, thread, key)
  }

  /** One more operation at the end of a run. */
  lemma UnreadKeysSnoc(ops: seq<Op>, thread: ThreadKey)
    requires ops != []
    ensures var before := ops[..|ops| - 1];
      var t := Run(EMPTY, before);
      var op := ops[|ops| - 1];
      UnreadKeys(ops, thread) ==
        if op == ClearUnread(thread) then {}
        else if op.Save? && ThreadOf(op.m) == thread && op.m.bumpUnread && Inserts(t, op.m)
        then UnreadKeys(before, thread) + {Key(op.m)}
        else UnreadKeys(before, thread)
  {
    var n := |ops| - 1;
    var before := ops[..n];
    ApplyKeepsRows(Run(EMPTY, before), ops[n]);
    assert ops[..n] == before;
    if ops[n] != ClearUnread(thread) {
      assert SinceClear(ops, thread) == SinceClear(before, thread);
      forall i, key | 0 <= i < n
        ensures CountsAt(ops, i, thread, key) == CountsAt(before, i, thread, key)
      {
        assert ops[..i] == before[..i];
      }
      forall i, key | 0 <= i < n && CountsAt(before, i, thread, key)
        ensures key in Run(EMPTY, before).messages
      {
        StoredStays(before, i);
      }
      forall key
        ensures key in UnreadKeys(ops, thread) <==> key in UnreadKeys(before, thread) || CountsAt(ops, n, thread, key)
      {
        if CountsAt(ops, n, thread, key) { assert key in Run(EMPTY, ops).messages; }
      }
    }
  }

  /** What an operation of the run stored is still there at its end. */
  lemma {:induction false} StoredStays(ops: seq<Op>, i: nat)
    requires i < |ops| && ops[i].Save? && Inserts(Run(EMPTY, ops[..i]), ops[i].m)
    ensures Key(ops[i].m) in Run(EMPTY, ops).messages
  {
    var n := |ops| - 1;
    if i < n {
      assert ops[..n][..i] == ops[..i];
      StoredStays(ops[..n], i);
      ApplyKeepsRows(Run(EMPTY, ops[..n]), ops[n]);
    }
  }

  /** What one operation does to the unread counter of a thread, zero when there is no row. */
  function UnreadOf(t: Tables, thread: ThreadKey): int {
    if thread in t.threads then t.threads[thread].unread else 0
  }

  lemma UnreadStep(t: Tables, op: Op, thread: ThreadKey)
    ensures UnreadOf(Apply(t, op), thread) ==
      if op == ClearUnread(thread) then 0
      else if op.Save? && ThreadOf(op.m) == thread && op.m.bumpUnread && Inserts(t, op.m)
      then UnreadOf(t, thread) + 1
      else UnreadOf(t, thread)
  {
    if op.Backfill? { BackfillKeeps(t, op.account, op.ids); }
  }

  /** The unread counter is the number of distinct messages stored as unread since the last
      clear, whatever duplicates, echoes, reactions, undos or backfills come between. */
  lemma {:induction false} UnreadCounts(ops: seq<Op>, thread: ThreadKey)
    ensures UnreadOf(Run(EMPTY, ops), thread) == |UnreadKeys(ops, thread)|
  {
    if ops != [] {
      var n := |ops| - 1;
      UnreadCounts(ops[..n], thread);
      UnreadKeysSnoc(ops, thread);
      UnreadStep(Run(EMPTY, ops[..n]), ops[n], thread);
    }
  }

  // ---- The echo window

  predicate EqualContent(a: Row, b: Row) {
    || (a.kind == Text && b.kind == Text && a.body.Some? && a.body == b.body)
    || (a.kind == StickerKind && b.kind == StickerKind && a.sticker.Some? && b.sticker.Some?
        && a.sticker.value.id == b.sticker.value.id)
  }

  /** Two outgoing rows that would count as the same message. */
  predicate SameSend(t: Tables, a: MsgKey, b: MsgKey)
    requires a in t.messages && b in t.messages
  {
    var ra, rb := t.messages[a], t.messages[b];
    && a != b && a.0 == b.0 && ra.thread == rb.thread && ra.outgoing && rb.outgoing
    && EqualContent(ra, rb) && ra.ts.Some? && rb.ts.Some?
  }

  ghost predicate Windowed(t: Tables) {
    forall a, b :: a in t.messages && b in t.messages && SameSend(t, a, b) ==>
      Abs(t.messages[a].ts.value - t.messages[b].ts.value) > ECHO_WINDOW_MS
  }

  lemma SaveKeepsWindowed(t: Tables, m: Observed)
    requires Windowed(t)
    ensures Windowed(Saved(t, m))
  {
    if Inserts(t, m) {
      var v := Saved(t, m);
      forall a, b | a in v.messages && b in v.messages && SameSend(v, a, b)
        ensures Abs(v.messages[a].ts.value - v.messages[b].ts.value) > ECHO_WINDOW_MS
      {
        if a != Key(m) && b != Key(m) {
          assert SameSend(t, a, b);
        } else {
          var other := if a == Key(m) then b else a;
          assert !EchoRow(m, other, t.messages[other]);
        }
      }
    }
  }

  lemma LosingContentKeepsWindowed(t: Tables, v: Tables)
    requires Windowed(t) && v.messages.Keys == t.messages.Keys
    requires forall key :: key in t.messages ==> SameOrRecalled(t.messages[key], v.messages[key])
    ensures Windowed(v)
  {
    forall a, b | a in v.messages && b in v.messages && SameSend(v, a, b)
      ensures Abs(v.messages[a].ts.value - v.messages[b].ts.value) > ECHO_WINDOW_MS
    {
      assert SameOrRecalled(t.messages[a], v.messages[a]) && SameOrRecalled(t.messages[b], v.messages[b]);
      assert SameSend(t, a, b);
    }
  }

  lemma ApplyKeepsWindowed(t: Tables, op: Op)
    requires Windowed(t)
    ensures Windowed(Apply(t, op))
  {
    if op.Save? {
      SaveKeepsWindowed(t, op.m);
    } else {
      ApplyKeepsRows(t, op);
      if op.Backfill? { BackfillKeeps(t, op.account, op.ids); } else { RowOpShape(t, op); }
      LosingContentKeepsWindowed(t, Apply(t, op));
    }
  }

  /** In every reachable store, two outgoing rows of one thread with the same text or the same
      sticker are more than the echo window apart. */
  lemma {:induction false} RunKeepsWindowed(ops: seq<Op>)
    ensures Windowed(Run(EMPTY, ops))
  {
    if ops != [] {
      RunKeepsWindowed(ops[..|ops| - 1]);
      ApplyKeepsWindowed(Run(EMPTY, ops[..|ops| - 1]), ops[|ops| - 1]);
    }
  }

  // ---- Convergence of inbound delivery

  function SaveAll(t: Tables, ms: seq<Observed>): Tables {
    if ms == [] then t else Saved(SaveAll(t, ms[..|ms| - 1]), ms[|ms| - 1])
  }

  /** Inbound messages, one payload per id. */
  ghost predicate Deliveries(ms: seq<Observed>) {
    && (forall m :: m in ms ==> !m.outgoing)
    && (forall a, b :: a in ms && b in ms && Key(a) == Key(b) ==> a == b)
  }

  lemma DeliveriesInit(ms: seq<Observed>)
    requires ms != [] && Deliveries(ms)
    ensures Deliveries(ms[..|ms| - 1]) && !ms[|ms| - 1].outgoing && ms[|ms| - 1] in ms
    ensures forall m :: m in ms <==> m in ms[..|ms| - 1] || m == ms[|ms| - 1]
  {
    assert ms == ms[..|ms| - 1] + [ms[|ms| - 1]];
  }

  /** `m` adds a row to the store `t` it finds. */
  predicate New(t: Tables, m: Observed) { Key(m) !in t.messages }

  /** The rows left behind, said without the order of arrival. */
  lemma {:induction false} DeliveredRows(t: Tables, ms: seq<Observed>, key: MsgKey)
    requires Deliveries(ms)
    ensures var v := SaveAll(t, ms);
      && (key in v.messages <==> key in t.messages || exists m :: m in ms && Key(m) == key)
      && (key in t.messages ==> v.messages[key] == t.messages[key])
      && (forall m :: m in ms && Key(m) == key && New(t, m) ==> key in v.messages && v.messages[key] == RowOf(m))
  {
    if ms != [] {
      var init, last := ms[..|ms| - 1], ms[|ms| - 1];
      DeliveriesInit(ms);
      DeliveredRows(t, init, key);
      if key !in SaveAll(t, init).messages && Key(last) == key {
        assert Inserts(SaveAll(t, init), last);
      }
    }
  }

  /** The messages a thread gains as unread when `ms` reaches the store `t`. */
  ghost function Gained(t: Tables, ms: seq<Observed>, thread: ThreadKey): set<MsgKey> {
    set m | m in ms && New(t, m) && ThreadOf(m) == thread && m.bumpUnread :: Key(m)
  }

  lemma {:induction false} DeliveredUnread(t: Tables, ms: seq<Observed>, thread: ThreadKey)
    requires Deliveries(ms)
    ensures UnreadOf(SaveAll(t, ms), thread) == UnreadOf(t, thread) + |Gained(t, ms, thread)|
  {
    if ms == [] {
      assert Gained(t, ms, thread) == {};
    } else {
      var init, last := ms[..|ms| - 1], ms[|ms| - 1];
      var v := SaveAll(t, init);
      DeliveriesInit(ms);
      DeliveredUnread(t, init, thread);
      DeliveredRows(t, init, Key(last));
      UnreadStep(v, Save(last), thread);
      if ThreadOf(last) == thread && last.bumpUnread && Inserts(v, last) {
        GainedKeysStored(t, init, thread);
        assert Gained(t, ms, thread) == Gained(t, init, thread) + {Key(last)};
      } else {
        assert Gained(t, ms, thread) == Gained(t, init, thread);
      }
    }
  }

  lemma GainedKeysStored(t: Tables, ms: seq<Observed>, thread: ThreadKey)
    requires Deliveries(ms)
    ensures forall key :: key in Gained(t, ms, thread) ==> key in SaveAll(t, ms).messages
  {
    forall key | key in Gained(t, ms, thread) ensures key in SaveAll(t, ms).messages {
      DeliveredRows(t, ms, key);
    }
  }

  /** `n` is the latest stamp of a thread once `ms` has reached the store `t`. */
  ghost predicate LatestStamp(t: Tables, ms: seq<Observed>, thread: ThreadKey, n: int) {
    && (thread in t.threads ==> OrZero(t.threads[thread].lastAt) <= n)
    && (forall m :: m in ms && New(t, m) && ThreadOf(m) == thread ==> OrZero(m.ts) <= n)
    && ((thread in t.threads && n == OrZero(t.threads[thread].lastAt))
        || exists m :: m in ms && New(t, m) && ThreadOf(m) == thread && OrZero(m.ts) == n)
  }

  lemma {:induction false} DeliveredStamps(t: Tables, ms: seq<Observed>, thread: ThreadKey)
    requires Deliveries(ms)
    ensures var v := SaveAll(t, ms);
      && (thread in v.threads <==>
            thread in t.threads || exists m :: m in ms && New(t, m) && ThreadOf(m) == thread)
      && (thread in v.threads ==> LatestStamp(t, ms, thread, OrZero(v.threads[thread].lastAt)))
  {
    if ms != [] {
      var init, last := ms[..|ms| - 1], ms[|ms| - 1];
      DeliveriesInit(ms);
      DeliveredStamps(t, init, thread);
      DeliveredRows(t, init, Key(last));
      DeliveredStep(t, SaveAll(t, init), ms, thread);
    }
  }

  lemma DeliveredStep(t: Tables, v: Tables, ms: seq<Observed>, thread: ThreadKey)
    requires ms != [] && Deliveries(ms)
    requires var init := ms[..|ms| - 1];
      && (Key(ms[|ms| - 1]) in v.messages <==> !New(t, ms[|ms| - 1]) || exists m :: m in init && Key(m) == Key(ms[|ms| - 1]))
      && (thread in v.threads <==>
            thread in t.threads || exists m :: m in init && New(t, m) && ThreadOf(m) == thread)
      && (thread in v.threads ==> LatestStamp(t, init, thread, OrZero(v.threads[thread].lastAt)))
    ensures var w := Saved(v, ms[|ms| - 1]);
      && (thread in w.threads <==>
            thread in t.threads || exists m :: m in ms && New(t, m) && ThreadOf(m) == thread)
      && (thread in w.threads ==> LatestStamp(t, ms, thread, OrZero(w.threads[thread].lastAt)))
  {
    var init, last := ms[..|ms| - 1], ms[|ms| - 1];
    DeliveriesInit(ms);
    if !New(t, last) || last in init {
      assert !Inserts(v, last);
    } else {
      assert Inserts(v, last);
    }
  }

  /** Deliveries that cover the same messages, in any order and with any repetition, converge:
      same message table, same threads, same unread counts and same coalesced `last_at`. */
  lemma DeliveryConverges(t: Tables, a: seq<Observed>, b: seq<Observed>)
    requires Deliveries(a) && forall m :: m in a <==> m in b
    ensures var va, vb := SaveAll(t, a), SaveAll(t, b);
      && va.messages == vb.messages
      && va.threads.Keys == vb.threads.Keys
      && forall thread :: thread in va.threads ==>
        && va.threads[thread].unread == vb.threads[thread].unread
        && OrZero(va.threads[thread].lastAt) == OrZero(vb.threads[thread].lastAt)
  {
    var va, vb := SaveAll(t, a), SaveAll(t, b);
    forall key
      ensures key in va.messages <==> key in vb.messages
      ensures key in va.messages ==> va.messages[key] == vb.messages[key]
    {
      DeliveredRows(t, a, key);
      DeliveredRows(t, b, key);
    }
    forall thread
      ensures thread in va.threads <==> thread in vb.threads
      ensures thread in va.threads ==>
        va.threads[thread].unread == vb.threads[thread].unread
        && OrZero(va.threads[thread].lastAt) == OrZero(vb.threads[thread].lastAt)
    {
      DeliveredStamps(t, a, thread);
      DeliveredStamps(t, b, thread);
      DeliveredUnread(t, a, thread);
      DeliveredUnread(t, b, thread);
      assert Gained(t, a, thread) == Gained(t, b, thread);
    }
  }
}
