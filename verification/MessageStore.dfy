/** The desktop client's local message store: the SQL statements of the repository as
    updates of two tables, each a map keyed by its primary key. NULL is None. */
module MessageStore {
  import opened Wrappers

  type MsgKey = (string, string)     // account_id, msg_id
  type ThreadKey = (string, string)  // account_id, thread_id

  const ECHO_WINDOW_MS := 15000
  const STICKER_LABEL := "[Sticker]"

  datatype Sticker = Sticker(id: int, catId: int, stickerType: int, url: string)

  datatype Kind = Text | StickerKind

  datatype Row = Row(
    thread: string, fromId: Option<string>, fromName: Option<string>, body: Option<string>,
    outgoing: bool, kind: Kind, ts: Option<int>, sticker: Option<Sticker>,
    quote: Option<string>, link: Option<string>, reaction: Option<string>, deleted: bool)

  datatype Thread = Thread(kind: string, title: Option<string>, avatar: Option<string>, lastAt: Option<int>, unread: int)

  datatype Tables = Tables(messages: map<MsgKey, Row>, threads: map<ThreadKey, Thread>)

  const EMPTY := Tables(map[], map[])

  /** One observed message: the arguments of `save_message_with_rich`, and with a sticker
      those of `save_sticker_message_with_rich`. */
  datatype Observed = Observed(
    account: string, thread: string, threadKind: string, msgId: string,
    fromId: Option<string>, fromName: Option<string>, body: Option<string>, sticker: Option<Sticker>,
    outgoing: bool, ts: Option<int>, title: Option<string>, avatar: Option<string>,
    bumpUnread: bool, quote: Option<string>, link: Option<string>)

  datatype Identity = Identity(thread: string, title: Option<string>, avatar: Option<string>)

  function Coalesce<T>(a: Option<T>, b: Option<T>): Option<T> { if a.Some? then a else b }

  function OrZero(n: Option<int>): int { if n.Some? then n.value else 0 }

  function Max(a: int, b: int): int { if a >= b then a else b }

  function Abs(n: int): int { if n < 0 then -n else n }

  function Key(m: Observed): MsgKey { (m.account, m.msgId) }

  function ThreadOf(m: Observed): ThreadKey { (m.account, m.thread) }

  function RowOf(m: Observed): Row {
    if m.sticker.Some?
    then Row(m.thread, m.fromId, m.fromName, Some(STICKER_LABEL), m.outgoing, StickerKind, m.ts, m.sticker, m.quote, None, None, false)
    else Row(m.thread, m.fromId, m.fromName, m.body, m.outgoing, Text, m.ts, None, m.quote, m.link, None, false)
  }

  /** The row the echo query of an outgoing message looks for. A comparison with NULL is false. */
  predicate EchoRow(m: Observed, key: MsgKey, row: Row) {
    && key.0 == m.account && row.thread == m.thread && row.outgoing && key.1 != m.msgId
    && (if m.sticker.Some?
        then row.kind == StickerKind && row.sticker.Some? && row.sticker.value.id == m.sticker.value.id
        else m.body.Some? && row.body == m.body)
    && m.ts.Some? && Abs(OrZero(row.ts) - m.ts.value) <= ECHO_WINDOW_MS
  }

  predicate IsEcho(t: Tables, m: Observed) {
    m.outgoing && exists key :: key in t.messages && EchoRow(m, key, t.messages[key])
  }

  /** Whether saving `m` stores a new row. */
  predicate Inserts(t: Tables, m: Observed) { !IsEcho(t, m) && Key(m) !in t.messages }

  /** The upsert of the thread row behind an inserted message. */
  function Touched(t: Tables, m: Observed): Thread {
    var unread := if m.bumpUnread then 1 else 0;
    if ThreadOf(m) in t.threads then
      var row := t.threads[ThreadOf(m)];
      Thread(m.threadKind, Coalesce(m.title, row.title), Coalesce(m.avatar, row.avatar),
             Some(Max(OrZero(m.ts), OrZero(row.lastAt))), row.unread + unread)
    else Thread(m.threadKind, m.title, m.avatar, m.ts, unread)
  }

  function Saved(t: Tables, m: Observed): Tables {
    if !Inserts(t, m) then t
    else Tables(t.messages[Key(m) := RowOf(m)], t.threads[ThreadOf(m) := Touched(t, m)])
  }

  function UnreadCleared(t: Tables, key: ThreadKey): Tables {
    if key in t.threads then t.(threads := t.threads[key := t.threads[key].(unread := 0)]) else t
  }

  function Reacted(t: Tables, key: MsgKey, icon: string): Tables {
    if key in t.messages then t.(messages := t.messages[key := t.messages[key].(reaction := Some(icon))]) else t
  }

  function RecalledRow(row: Row): Row { row.(deleted := true, body := None, sticker := None, link := None) }

  function Recalled(t: Tables, key: MsgKey): Tables {
    if key in t.messages then t.(messages := t.messages[key := RecalledRow(t.messages[key])]) else t
  }

  function NonEmpty(s: Option<string>): Option<string> { if s == Some("") then None else s }

  predicate Enriches(t: Tables, account: string, id: Identity) {
    && (NonEmpty(id.title).Some? || NonEmpty(id.avatar).Some?)
    && (account, id.thread) in t.threads
  }

  function Enriched(t: Tables, account: string, id: Identity): Tables {
    if !Enriches(t, account, id) then t
    else
      var key := (account, id.thread);
      var row := t.threads[key];
      t.(threads := t.threads[key := row.(title := Coalesce(NonEmpty(id.title), row.title),
                                         avatar := Coalesce(NonEmpty(id.avatar), row.avatar))])
  }

  function Backfilled(t: Tables, account: string, ids: seq<Identity>): Tables
    decreases |ids|
  {
    if ids == [] then t else Backfilled(Enriched(t, account, ids[0]), account, ids[1..])
  }

  function BackfillCount(t: Tables, account: string, ids: seq<Identity>): nat
    decreases |ids|
  {
    if ids == [] then 0
    else (if Enriches(t, account, ids[0]) then 1 else 0)
         + BackfillCount(Enriched(t, account, ids[0]), account, ids[1..])
  }

  /** The rows counted before an outgoing text is stored. */
  function TextEchoes(messages: map<MsgKey, Row>, m: Observed, text: string, stamp: int): set<MsgKey> {
    set key | key in messages
      && key.0 == m.account && messages[key].thread == m.thread && messages[key].outgoing
      && messages[key].body == Some(text) && key.1 != m.msgId
      && Abs(OrZero(messages[key].ts) - stamp) <= ECHO_WINDOW_MS
  }

  /** The rows counted before an outgoing sticker is stored. */
  function StickerEchoes(messages: map<MsgKey, Row>, m: Observed, stickerId: int, stamp: int): set<MsgKey> {
    set key | key in messages
      && key.0 == m.account && messages[key].thread == m.thread && messages[key].outgoing
      && messages[key].kind == StickerKind
      && messages[key].sticker.Some? && messages[key].sticker.value.id == stickerId && key.1 != m.msgId
      && Abs(OrZero(messages[key].ts) - stamp) <= ECHO_WINDOW_MS
  }

  lemma TextEchoesFound(t: Tables, m: Observed)
    requires m.outgoing && m.sticker.None? && m.body.Some? && m.ts.Some?
    ensures |TextEchoes(t.messages, m, m.body.value, m.ts.value)| > 0 <==> IsEcho(t, m)
  {
    var found := TextEchoes(t.messages, m, m.body.value, m.ts.value);
    if found != {} {
      var key :| key in found;
      assert EchoRow(m, key, t.messages[key]);
    }
    forall key | key in t.messages && EchoRow(m, key, t.messages[key]) ensures key in found {}
  }

  lemma StickerEchoesFound(t: Tables, m: Observed)
    requires m.outgoing && m.sticker.Some? && m.ts.Some?
    ensures |StickerEchoes(t.messages, m, m.sticker.value.id, m.ts.value)| > 0 <==> IsEcho(t, m)
  {
    var found := StickerEchoes(t.messages, m, m.sticker.value.id, m.ts.value);
    if found != {} {
      var key :| key in found;
      assert EchoRow(m, key, t.messages[key]);
    }
    forall key | key in t.messages && EchoRow(m, key, t.messages[key]) ensures key in found {}
  }

  class Db {
    var messages: map<MsgKey, Row>
    var threads: map<ThreadKey, Thread>

    ghost function View(): Tables
      reads this
    {
      Tables(messages, threads)
    }

    constructor ()
      ensures View() == EMPTY
    {
      messages, threads := map[], map[];
    }

    /** `INSERT INTO threads … ON CONFLICT DO UPDATE` */
    method UpsertThread(m: Observed)
      modifies this`threads
      ensures threads == old(threads)[ThreadOf(m) := Touched(old(View()), m)]
    {
      var key := ThreadOf(m);
      var unreadDelta := if m.bumpUnread then 1 else 0;
      if key in threads {
        var row := threads[key];
        row := row.(kind := m.threadKind);
        row := row.(title := Coalesce(m.title, row.title), avatar := Coalesce(m.avatar, row.avatar));
        row := row.(lastAt := Some(Max(OrZero(m.ts), OrZero(row.lastAt))));
        row := row.(unread := row.unread + unreadDelta);
        threads := threads[key := row];
      } else {
        threads := threads[key := Thread(m.threadKind, m.title, m.avatar, m.ts, unreadDelta)];
      }
    }

    /** `save_message_with_rich` */
    method SaveMessageWithRich(m: Observed)
      requires m.sticker.None?
      modifies this
      ensures View() == Saved(old(View()), m)
    {
      if m.outgoing && m.body.Some? && m.ts.Some? {
        var existing := |TextEchoes(messages, m, m.body.value, m.ts.value)|;
        TextEchoesFound(View(), m);
        if existing > 0 {
          return;
        }
      }
      if Key(m) in messages {
        return;
      }
      messages := messages[Key(m) :=
        Row(m.thread, m.fromId, m.fromName, m.body, m.outgoing, Text, m.ts, None, m.quote, m.link, None, false)];
      UpsertThread(m);
    }

    /** `save_sticker_message_with_rich` */
    method SaveStickerMessageWithRich(m: Observed)
      requires m.sticker.Some?
      modifies this
      ensures View() == Saved(old(View()), m)
    {
      if m.outgoing && m.ts.Some? {
        var existing := |StickerEchoes(messages, m, m.sticker.value.id, m.ts.value)|;
        StickerEchoesFound(View(), m);
        if existing > 0 {
          return;
        }
      }
      if Key(m) in messages {
        return;
      }
      messages := messages[Key(m) :=
        Row(m.thread, m.fromId, m.fromName, Some(STICKER_LABEL), m.outgoing, StickerKind, m.ts, m.sticker, m.quote, None, None, false)];
      UpsertThread(m);
    }

    /** `clear_unread` */
    method ClearUnread(account: string, thread: string)
      modifies this`threads
      ensures View() == UnreadCleared(old(View()), (account, thread))
    {
      var key := (account, thread);
      if key in threads {
        threads := threads[key := threads[key].(unread := 0)];
      }
    }

    /** `apply_reaction` */
    method ApplyReaction(account: string, msgId: string, icon: string) returns (updated: bool)
      modifies this`messages
      ensures View() == Reacted(old(View()), (account, msgId), icon)
      ensures updated == ((account, msgId) in old(messages))
    {
      var key := (account, msgId);
      updated := key in messages;
      if updated {
        messages := messages[key := messages[key].(reaction := Some(icon))];
      }
    }

    /** `mark_message_deleted` */
    method MarkMessageDeleted(account: string, msgId: string) returns (updated: bool)
      modifies this`messages
      ensures View() == Recalled(old(View()), (account, msgId))
      ensures updated == ((account, msgId) in old(messages))
    {
      var key := (account, msgId);
      updated := key in messages;
      if updated {
        messages := messages[key := messages[key].(deleted := true, body := None, sticker := None, link := None)];
      }
    }

    /** `backfill_thread_identities` */
    method BackfillThreadIdentities(account: string, ids: seq<Identity>) returns (updated: nat)
      modifies this`threads
      ensures View() == Backfilled(old(View()), account, ids)
      ensures updated == BackfillCount(old(View()), account, ids)
    {
      updated := 0;
      var k := 0;
      while k < |ids|
        invariant 0 <= k <= |ids|
        invariant messages == old(messages)
        invariant Backfilled(View(), account, ids[k..]) == Backfilled(old(View()), account, ids)
        invariant updated + BackfillCount(View(), account, ids[k..]) == BackfillCount(old(View()), account, ids)
      {
        var id := ids[k];
        assert ids[k..][0] == id && ids[k..][1..] == ids[k + 1..];
        var title, avatar := NonEmpty(id.title), NonEmpty(id.avatar);
        if title.Some? || avatar.Some? {
          var key := (account, id.thread);
          if key in threads {
            var row := threads[key];
            threads := threads[key := row.(title := Coalesce(title, row.title), avatar := Coalesce(avatar, row.avatar))];
            updated := updated + 1;
          }
        }
        k := k + 1;
      }
    }
  }
}
