/** One account's conversations and messages in the mobile client, and how a new message,
    an echo of a sent one, a reaction or an opened thread changes them. */
module ChatView {
  import opened Wrappers

  const ECHO_WINDOW_MS := 15000

  datatype ThreadKind = User | Group

  /** `rest` stands for the fields only display reads. */
  datatype ChatMessage = ChatMessage(
    id: string, threadId: string, body: string, sticker: Option<int>, reactionIcon: Option<string>,
    outgoing: bool, at: int, rest: string)

  datatype Conversation = Conversation(
    threadId: string, kind: ThreadKind, title: string, lastSnippet: string, lastAt: int, unread: nat, avatar: Option<string>)

  /** A contact or a group of the account's directory. */
  datatype Entry = Entry(id: string, name: string, avatar: Option<string>)

  /** The per-account data. The active account's is mirrored into the view. */
  datatype Slice = Slice(
    conversations: seq<Conversation>, threads: map<string, seq<ChatMessage>>,
    contacts: seq<Entry>, contactsLoaded: bool, groups: seq<Entry>, groupsLoaded: bool,
    activeThread: Option<string>)

  const EMPTY := Slice([], map[], [], false, [], false, None)

  datatype Meta = Meta(kind: ThreadKind, title: string, bumpUnread: bool)

  function Abs(n: int): int { if n < 0 then -n else n }

  function Find(entries: seq<Entry>, id: string): Option<Entry> {
    if entries == [] then None else if entries[0].id == id then Some(entries[0]) else Find(entries[1..], id)
  }

  function EntryFor(d: Slice, threadId: string, kind: ThreadKind): Option<Entry> {
    Find(if kind == Group then d.groups else d.contacts, threadId)
  }

  /** `titleForIn`: an empty name falls back too. */
  function TitleFor(d: Slice, threadId: string, kind: ThreadKind, fallback: string): string {
    var e := EntryFor(d, threadId, kind);
    if e.Some? && e.value.name != "" then e.value.name else fallback
  }

  /** `avatarForIn` */
  function AvatarFor(d: Slice, threadId: string, kind: ThreadKind): Option<string> {
    var e := EntryFor(d, threadId, kind);
    if e.Some? then e.value.avatar else None
  }

  function Messages(d: Slice, threadId: string): seq<ChatMessage> {
    if threadId in d.threads then d.threads[threadId] else []
  }

  predicate HasId(ms: seq<ChatMessage>, id: string) { exists i :: 0 <= i < |ms| && ms[i].id == id }

  /** Same sticker, or no sticker on either and the same text. */
  predicate SameContent(a: ChatMessage, b: ChatMessage) {
    if b.sticker.Some? then a.sticker == b.sticker else a.sticker.None? && a.body == b.body
  }

  predicate EchoOf(m: ChatMessage, message: ChatMessage) {
    m.outgoing && SameContent(m, message) && Abs(m.at - message.at) <= ECHO_WINDOW_MS
  }

  /** Position of the first message that `message` echoes, or the length when there is none. */
  function EchoIndex(ms: seq<ChatMessage>, message: ChatMessage): (i: nat)
    ensures i <= |ms|
    ensures i < |ms| ==> EchoOf(ms[i], message)
    ensures forall j :: 0 <= j < i ==> !EchoOf(ms[j], message)
  {
    if ms == [] || EchoOf(ms[0], message) then 0 else 1 + EchoIndex(ms[1..], message)
  }

  function ConversationIndex(cs: seq<Conversation>, threadId: string): (i: nat)
    ensures i <= |cs|
    ensures i < |cs| ==> cs[i].threadId == threadId
    ensures forall j :: 0 <= j < i ==> cs[j].threadId != threadId
  {
    if cs == [] || cs[0].threadId == threadId then 0 else 1 + ConversationIndex(cs[1..], threadId)
  }

  datatype Outcome = Duplicate | Echo(index: nat) | Fresh

  /** What `appendToBucket` makes of a message. */
  function Classify(ms: seq<ChatMessage>, message: ChatMessage): Outcome {
    if HasId(ms, message.id) then Duplicate
    else if message.outgoing && EchoIndex(ms, message) < |ms| then Echo(EchoIndex(ms, message))
    else Fresh
  }

  function AppendedTo(ms: seq<ChatMessage>, message: ChatMessage): seq<ChatMessage> {
    match Classify(ms, message)
    case Duplicate => ms
    case Echo(i) => if i < |ms| then ms[i := ms[i].(id := message.id)] else ms
    case Fresh => ms + [message]
  }

  /** The conversation list after a fresh message: its row first, the others in order. */
  function Bumped(d: Slice, message: ChatMessage, snippet: string, meta: Meta): seq<Conversation> {
    var i := ConversationIndex(d.conversations, message.threadId);
    if i < |d.conversations| then
      var current := d.conversations[i];
      [current.(title := TitleFor(d, message.threadId, current.kind, meta.title),
                lastSnippet := snippet, lastAt := message.at,
                unread := if meta.bumpUnread then current.unread + 1 else current.unread,
                avatar := if current.avatar.Some? then current.avatar else AvatarFor(d, message.threadId, current.kind))]
      + d.conversations[..i] + d.conversations[i + 1..]
    else
      [Conversation(message.threadId, meta.kind, meta.title, snippet, message.at, if meta.bumpUnread then 1 else 0,
                    AvatarFor(d, message.threadId, meta.kind))]
      + d.conversations
  }

  /** Whether `appendToBucket` opens the thread: a new conversation while none is open. */
  predicate Opens(d: Slice, message: ChatMessage) {
    && Classify(Messages(d, message.threadId), message) == Fresh
    && ConversationIndex(d.conversations, message.threadId) == |d.conversations|
    && d.activeThread.None?
  }

  /** `appendToBucket` on the active account's bucket. */
  function Appended(d: Slice, message: ChatMessage, snippet: string, meta: Meta): Slice {
    var ms := Messages(d, message.threadId);
    match Classify(ms, message)
    case Duplicate => d
    case Echo(_) => d.(threads := d.threads[message.threadId := AppendedTo(ms, message)])
    case Fresh => d.(
      threads := d.threads[message.threadId := AppendedTo(ms, message)],
      conversations := Bumped(d, message, snippet, meta),
      activeThread := if Opens(d, message) then Some(message.threadId) else d.activeThread)
  }

  /** `openThread` on the active account's bucket, for a trimmed, non-empty id. */
  function Opened(d: Slice, threadId: string, title: Option<string>, now: int): Slice {
    var fallback := if title.Some? && title.value != "" then title.value else threadId;
    d.(threads := if threadId in d.threads then d.threads else d.threads[threadId := []],
       conversations :=
         if ConversationIndex(d.conversations, threadId) < |d.conversations| then d.conversations
         else [Conversation(threadId, User, TitleFor(d, threadId, User, fallback), "", now, 0, AvatarFor(d, threadId, User))]
              + d.conversations,
       activeThread := Some(threadId))
  }

  function ReactedList(ms: seq<ChatMessage>, msgId: string, icon: string): seq<ChatMessage> {
    seq(|ms|, i requires 0 <= i < |ms| => if ms[i].id == msgId then ms[i].(reactionIcon := Some(icon)) else ms[i])
  }

  /** `applyReactionToBucket` */
  function Reacted(d: Slice, threadId: string, msgId: string, icon: string): Slice {
    if threadId !in d.threads then d
    else d.(threads := d.threads[threadId := ReactedList(d.threads[threadId], msgId, icon)])
  }

  // ---- What every bucket keeps

  predicate DistinctIds(ms: seq<ChatMessage>) {
    forall i, j :: 0 <= i < j < |ms| ==> ms[i].id != ms[j].id
  }

  /** Any two sent messages of equal content are more than the echo window apart. */
  predicate Windowed(ms: seq<ChatMessage>) {
    forall i, j :: 0 <= i < j < |ms| && ms[i].outgoing && ms[j].outgoing && SameContent(ms[i], ms[j]) ==>
      Abs(ms[i].at - ms[j].at) > ECHO_WINDOW_MS
  }

  predicate DistinctThreads(cs: seq<Conversation>) {
    forall i, j :: 0 <= i < j < |cs| ==> cs[i].threadId != cs[j].threadId
  }

  ghost predicate Tidy(d: Slice) {
    && (forall t :: t in d.threads ==> DistinctIds(d.threads[t]) && Windowed(d.threads[t]))
    && DistinctThreads(d.conversations)
  }

  lemma EchoTidy(ms: seq<ChatMessage>, i: nat, id: string)
    requires DistinctIds(ms) && Windowed(ms) && i < |ms| && !HasId(ms, id)
    ensures DistinctIds(ms[i := ms[i].(id := id)]) && Windowed(ms[i := ms[i].(id := id)])
  {
    var after := ms[i := ms[i].(id := id)];
    forall j, k | 0 <= j < k < |after|
      ensures after[j].id != after[k].id
      ensures after[j].outgoing && after[k].outgoing && SameContent(after[j], after[k]) ==>
                Abs(after[j].at - after[k].at) > ECHO_WINDOW_MS
    {
      assert ms[j].id != ms[k].id && ms[j].id != id && ms[k].id != id;
      assert SameContent(after[j], after[k]) == SameContent(ms[j], ms[k]);
    }
  }

  lemma FreshTidy(ms: seq<ChatMessage>, message: ChatMessage)
    requires DistinctIds(ms) && Windowed(ms) && !HasId(ms, message.id)
    requires message.outgoing ==> forall j :: 0 <= j < |ms| ==> !EchoOf(ms[j], message)
    ensures DistinctIds(ms + [message]) && Windowed(ms + [message])
  {
  }

  lemma AppendedListTidy(ms: seq<ChatMessage>, message: ChatMessage)
    requires DistinctIds(ms) && Windowed(ms)
    ensures DistinctIds(AppendedTo(ms, message)) && Windowed(AppendedTo(ms, message))
  {
    match Classify(ms, message)
    case Duplicate =>
    case Echo(i) => EchoTidy(ms, i, message.id);
    case Fresh => FreshTidy(ms, message);
  }

  lemma OthersDistinct(cs: seq<Conversation>, i: nat, rest: seq<Conversation>)
    requires DistinctThreads(cs) && i < |cs| && rest == cs[..i] + cs[i + 1..]
    ensures DistinctThreads(rest)
    ensures forall k :: 0 <= k < |rest| ==> rest[k].threadId != cs[i].threadId
  {
    assert forall k :: 0 <= k < |rest| ==> rest[k] == cs[if k < i then k else k + 1];
  }

  lemma BumpedDistinct(d: Slice, message: ChatMessage, snippet: string, meta: Meta)
    requires DistinctThreads(d.conversations)
    ensures DistinctThreads(Bumped(d, message, snippet, meta))
  {
    var cs := d.conversations;
    var i := ConversationIndex(cs, message.threadId);
    if i < |cs| {
      var bumped := Bumped(d, message, snippet, meta);
      OthersDistinct(cs, i, cs[..i] + cs[i + 1..]);
      assert bumped == [bumped[0]] + (cs[..i] + cs[i + 1..]);
    }
  }

  /** A fresh message leaves the rows of other threads as they are. */
  lemma BumpedKeepsOthers(d: Slice, message: ChatMessage, snippet: string, meta: Meta, k: nat)
    requires k < |d.conversations| && d.conversations[k].threadId != message.threadId
    ensures d.conversations[k] in Bumped(d, message, snippet, meta)
  {
    var i := ConversationIndex(d.conversations, message.threadId);
    assert Bumped(d, message, snippet, meta)[if i < |d.conversations| && i < k then k else k + 1] == d.conversations[k];
  }

  lemma AppendedTidy(d: Slice, message: ChatMessage, snippet: string, meta: Meta)
    requires Tidy(d)
    ensures Tidy(Appended(d, message, snippet, meta))
  {
    AppendedListTidy(Messages(d, message.threadId), message);
    BumpedDistinct(d, message, snippet, meta);
  }

  lemma OpenedTidy(d: Slice, threadId: string, title: Option<string>, now: int)
    requires Tidy(d)
    ensures Tidy(Opened(d, threadId, title, now))
  {
  }

  lemma ReactedTidy(d: Slice, threadId: string, msgId: string, icon: string)
    requires Tidy(d)
    ensures Tidy(Reacted(d, threadId, msgId, icon))
  {
    if threadId in d.threads {
      var ms := d.threads[threadId];
      assert DistinctIds(ReactedList(ms, msgId, icon)) && Windowed(ReactedList(ms, msgId, icon));
    }
  }

  datatype Op =
    | Append(message: ChatMessage, snippet: string, meta: Meta)
    | Open(threadId: string, title: Option<string>, now: int)
    | React(thread: string, msgId: string, icon: string)

  function Apply(d: Slice, op: Op): Slice {
    match op
    case Append(message, snippet, meta) => Appended(d, message, snippet, meta)
    case Open(threadId, title, now) => Opened(d, threadId, title, now)
    case React(threadId, msgId, icon) => Reacted(d, threadId, msgId, icon)
  }

  function Run(d: Slice, ops: seq<Op>): Slice
    decreases |ops|
  {
    if ops == [] then d else Run(Apply(d, ops[0]), ops[1..])
  }

  /** Over any run of appends, opened threads and reactions, message ids stay unique per thread,
      thread ids unique per list, and equal sends more than the echo window apart. */
  lemma {:induction false} RunTidy(d: Slice, ops: seq<Op>)
    requires Tidy(d)
    ensures Tidy(Run(d, ops))
    decreases |ops|
  {
    if ops != [] {
      match ops[0] {
        case Append(message, snippet, meta) => AppendedTidy(d, message, snippet, meta);
        case Open(threadId, title, now) => OpenedTidy(d, threadId, title, now);
        case React(threadId, msgId, icon) => ReactedTidy(d, threadId, msgId, icon);
      }
      RunTidy(Apply(d, ops[0]), ops[1..]);
    }
  }

  /** An echo keeps the length and order of the list and every field but the id, which becomes
      the echo's; conversations and all other threads stay as they were. */
  lemma EchoAdoptsId(d: Slice, message: ChatMessage, snippet: string, meta: Meta)
    requires Classify(Messages(d, message.threadId), message).Echo?
    ensures var before, after := Messages(d, message.threadId), Messages(Appended(d, message, snippet, meta), message.threadId);
      && |after| == |before|
      && (exists k :: 0 <= k < |before|
            && EchoOf(before[k], message)
            && after[k] == before[k].(id := message.id)
            && forall i :: 0 <= i < |before| && i != k ==> after[i] == before[i])
      && Appended(d, message, snippet, meta).conversations == d.conversations
  {
  }

  /** The sent copy and its echo in either order leave one message. */
  lemma EchoIsOneMessage(d: Slice, sent: ChatMessage, echo: ChatMessage, snippet: string, meta: Meta)
    requires sent.threadId == echo.threadId && sent.id != echo.id
    requires echo.outgoing && EchoOf(sent, echo)
    requires Classify(Messages(d, sent.threadId), sent) == Fresh && !HasId(Messages(d, sent.threadId), echo.id)
    ensures var once := Appended(d, sent, snippet, meta);
      var twice := Appended(once, echo, snippet, meta);
      |Messages(twice, sent.threadId)| == |Messages(d, sent.threadId)| + 1
      && twice.conversations == once.conversations
  {
    var ms := Messages(d, sent.threadId);
    assert Messages(Appended(d, sent, snippet, meta), sent.threadId) == ms + [sent];
    assert !HasId(ms + [sent], echo.id);
    assert EchoOf((ms + [sent])[|ms|], echo);
  }
}
