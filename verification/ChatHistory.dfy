/** What a bucket's counters and list order mean in terms of everything that was appended. */
module ChatHistory {
  import opened Wrappers
  import opened ChatView

  /** The row of a thread, if the list has one. */
  function RowOf(cs: seq<Conversation>, threadId: string): Option<Conversation> {
    if cs == [] then None
    else if cs[0].threadId == threadId then Some(cs[0])
    else RowOf(cs[1..], threadId)
  }

  /** The list without the rows of a thread, in order. */
  function Without(cs: seq<Conversation>, threadId: string): seq<Conversation> {
    if cs == [] then []
    else if cs[0].threadId == threadId then Without(cs[1..], threadId)
    else [cs[0]] + Without(cs[1..], threadId)
  }

  lemma {:induction false} RowAtIndex(cs: seq<Conversation>, threadId: string)
    ensures var i := ConversationIndex(cs, threadId);
      RowOf(cs, threadId) == if i < |cs| then Some(cs[i]) else None
  {
    if cs != [] && cs[0].threadId != threadId { RowAtIndex(cs[1..], threadId); }
  }

  lemma {:induction false} WithoutAbsent(cs: seq<Conversation>, threadId: string)
    requires forall k :: 0 <= k < |cs| ==> cs[k].threadId != threadId
    ensures Without(cs, threadId) == cs
  {
    if cs != [] { WithoutAbsent(cs[1..], threadId); }
  }

  lemma {:induction false} WithoutAtIndex(cs: seq<Conversation>, threadId: string, i: nat)
    requires DistinctThreads(cs) && i < |cs| && cs[i].threadId == threadId
    ensures cs[..i] + cs[i + 1..] == Without(cs, threadId)
  {
    if i == 0 {
      WithoutAbsent(cs[1..], threadId);
    } else {
      WithoutAtIndex(cs[1..], threadId, i - 1);
      assert cs[..i] + cs[i + 1..] == [cs[0]] + (cs[1..][..i - 1] + cs[1..][i..]);
    }
  }

  lemma {:induction false} WithoutKeepsOthers(cs: seq<Conversation>, threadId: string, other: string)
    requires other != threadId
    ensures RowOf(Without(cs, threadId), other) == RowOf(cs, other)
  {
    if cs != [] {
      WithoutKeepsOthers(cs[1..], threadId, other);
      var rest := Without(cs[1..], threadId);
      assert ([cs[0]] + rest)[1..] == rest;
    }
  }

  /** A fresh message brings its thread to the front, with its snippet and time, and one more
      unread if asked; the other rows follow unchanged and in order. */
  lemma BumpedOrder(d: Slice, message: ChatMessage, snippet: string, meta: Meta)
    requires DistinctThreads(d.conversations)
    ensures var cs := Bumped(d, message, snippet, meta);
      var before := RowOf(d.conversations, message.threadId);
      && cs != [] && cs[0].threadId == message.threadId && cs[0].lastSnippet == snippet && cs[0].lastAt == message.at
      && cs[0].unread == (if before.Some? then before.value.unread else 0) + (if meta.bumpUnread then 1 else 0)
      && cs[0].kind == (if before.Some? then before.value.kind else meta.kind)
      && (before.Some? && before.value.avatar.Some? ==> cs[0].avatar == before.value.avatar)
      && cs[1..] == Without(d.conversations, message.threadId)
  {
    var i := ConversationIndex(d.conversations, message.threadId);
    var cs := Bumped(d, message, snippet, meta);
    RowAtIndex(d.conversations, message.threadId);
    if i < |d.conversations| {
      WithoutAtIndex(d.conversations, message.threadId, i);
      assert cs == [cs[0]] + (d.conversations[..i] + d.conversations[i + 1..]);
    } else {
      WithoutAbsent(d.conversations, message.threadId);
    }
  }

  // ---- Which messages are added

  /** The k-th message was sent from here, at most 15 seconds from `message`, with the same sticker,
      or with no sticker on either and the same text. */
  predicate Repeated(ms: seq<ChatMessage>, k: nat, message: ChatMessage)
    requires k < |ms|
  {
    && ms[k].outgoing
    && message.at - 15000 <= ms[k].at <= message.at + 15000
    && (if message.sticker.Some? then ms[k].sticker.Some? && ms[k].sticker.value == message.sticker.value
        else ms[k].sticker.None? && ms[k].body == message.body)
  }

  ghost predicate IdKnown(ms: seq<ChatMessage>, message: ChatMessage) {
    exists k :: 0 <= k < |ms| && ms[k].id == message.id
  }

  ghost predicate SentBefore(ms: seq<ChatMessage>, message: ChatMessage) {
    message.outgoing && exists k :: 0 <= k < |ms| && Repeated(ms, k, message)
  }

  lemma ClassifiedBy(ms: seq<ChatMessage>, message: ChatMessage)
    ensures Classify(ms, message) == Duplicate <==> IdKnown(ms, message)
    ensures Classify(ms, message) == Fresh <==> !IdKnown(ms, message) && !SentBefore(ms, message)
    ensures Classify(ms, message).Echo? ==>
              var i := Classify(ms, message).index;
              i < |ms| && Repeated(ms, i, message) && forall k :: 0 <= k < i ==> !Repeated(ms, k, message)
  {
    assert forall k :: 0 <= k < |ms| ==> EchoOf(ms[k], message) == Repeated(ms, k, message);
  }

  // ---- Counting along a run

  function UnreadOf(d: Slice, threadId: string): nat {
    var row := RowOf(d.conversations, threadId);
    if row.Some? then row.value.unread else 0
  }

  /** The operation adds a message to the thread. */
  ghost predicate Adds(d: Slice, op: Op, threadId: string) {
    && op.Append? && op.message.threadId == threadId
    && !IdKnown(Messages(d, threadId), op.message) && !SentBefore(Messages(d, threadId), op.message)
  }

  /** The messages a run adds to a thread; with `unreadOnly`, those that count as unread. */
  ghost function Added(d: Slice, ops: seq<Op>, threadId: string, unreadOnly: bool): nat
    decreases |ops|
  {
    if ops == [] then 0
    else (if Adds(d, ops[0], threadId) && (unreadOnly ==> ops[0].meta.bumpUnread) then 1 else 0)
         + Added(Apply(d, ops[0]), ops[1..], threadId, unreadOnly)
  }

  lemma AppendCounts(d: Slice, message: ChatMessage, snippet: string, meta: Meta, threadId: string)
    requires DistinctThreads(d.conversations)
    ensures var v := Appended(d, message, snippet, meta);
      var isFresh := message.threadId == threadId && Classify(Messages(d, threadId), message) == Fresh;
      && |Messages(v, threadId)| == |Messages(d, threadId)| + (if isFresh then 1 else 0)
      && UnreadOf(v, threadId) == UnreadOf(d, threadId) + (if isFresh && meta.bumpUnread then 1 else 0)
  {
    if Classify(Messages(d, message.threadId), message) == Fresh {
      var cs := Bumped(d, message, snippet, meta);
      BumpedOrder(d, message, snippet, meta);
      if threadId != message.threadId {
        WithoutKeepsOthers(d.conversations, message.threadId, threadId);
        assert RowOf(cs, threadId) == RowOf(cs[1..], threadId);
      }
    }
  }

  lemma OpenCounts(d: Slice, openedId: string, title: Option<string>, now: int, threadId: string)
    ensures var v := Opened(d, openedId, title, now);
      |Messages(v, threadId)| == |Messages(d, threadId)| && UnreadOf(v, threadId) == UnreadOf(d, threadId)
  {
    RowAtIndex(d.conversations, openedId);
    var v := Opened(d, openedId, title, now);
    if v.conversations != d.conversations {
      assert v.conversations[1..] == d.conversations;
    }
  }

  lemma StepCounts(d: Slice, op: Op, threadId: string)
    requires DistinctThreads(d.conversations)
    ensures |Messages(Apply(d, op), threadId)| == |Messages(d, threadId)| + (if Adds(d, op, threadId) then 1 else 0)
    ensures UnreadOf(Apply(d, op), threadId)
         == UnreadOf(d, threadId) + (if Adds(d, op, threadId) && op.meta.bumpUnread then 1 else 0)
  {
    match op
    case Append(message, snippet, meta) =>
      ClassifiedBy(Messages(d, message.threadId), message);
      AppendCounts(d, message, snippet, meta, threadId);
    case Open(id, title, now) => OpenCounts(d, id, title, now, threadId);
    case React(_, _, _) =>
  }

  /** Along any run a thread gains one message per message that was neither a duplicate nor an
      echo, and its unread count grows by those of them that count as unread. */
  lemma {:induction false} RunCounts(d: Slice, ops: seq<Op>, threadId: string)
    requires Tidy(d)
    ensures |Messages(Run(d, ops), threadId)| == |Messages(d, threadId)| + Added(d, ops, threadId, false)
    ensures UnreadOf(Run(d, ops), threadId) == UnreadOf(d, threadId) + Added(d, ops, threadId, true)
    decreases |ops|
  {
    if ops != [] {
      RunTidy(d, [ops[0]]);
      assert Run(d, [ops[0]]) == Apply(d, ops[0]);
      StepCounts(d, ops[0], threadId);
      RunCounts(Apply(d, ops[0]), ops[1..], threadId);
    }
  }
}
