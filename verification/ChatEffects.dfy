/** What one operation changes in a bucket, field by field, and what it leaves alone. */
module ChatEffects {
  import opened Wrappers
  import opened ChatView
  import opened ChatHistory

  // ---- Appending a message

  /** A message is added, at the end, if and only if its id is new and it repeats nothing sent
      within 15 seconds. */
  lemma AddedIff(d: Slice, message: ChatMessage, snippet: string, meta: Meta)
    ensures var ms := Messages(d, message.threadId);
      Messages(Appended(d, message, snippet, meta), message.threadId) == ms + [message]
      <==> !IdKnown(ms, message) && !SentBefore(ms, message)
  {
    var ms := Messages(d, message.threadId);
    ClassifiedBy(ms, message);
    assert |ms + [message]| == |ms| + 1;
  }

  /** A known id changes nothing. A repeated message gives its id to the first it repeats, and
      changes nothing else. */
  lemma NotAdded(d: Slice, message: ChatMessage, snippet: string, meta: Meta)
    ensures var ms := Messages(d, message.threadId);
      var v := Appended(d, message, snippet, meta);
      && (IdKnown(ms, message) ==> v == d)
      && (!IdKnown(ms, message) && SentBefore(ms, message) ==>
            exists i :: 0 <= i < |ms| && Repeated(ms, i, message) && (forall k :: 0 <= k < i ==> !Repeated(ms, k, message))
              && v == d.(threads := d.threads[message.threadId := ms[i := ms[i].(id := message.id)]]))
  {
    ClassifiedBy(Messages(d, message.threadId), message);
  }

  /** An added message leaves other threads and the directories alone; it opens its thread exactly
      when that was not listed and none is open. */
  lemma AddedLeaves(d: Slice, message: ChatMessage, snippet: string, meta: Meta)
    requires !IdKnown(Messages(d, message.threadId), message) && !SentBefore(Messages(d, message.threadId), message)
    ensures var v := Appended(d, message, snippet, meta);
      && v.threads.Keys == d.threads.Keys + {message.threadId}
      && (forall t :: t in d.threads && t != message.threadId ==> v.threads[t] == d.threads[t])
      && v.contacts == d.contacts && v.contactsLoaded == d.contactsLoaded
      && v.groups == d.groups && v.groupsLoaded == d.groupsLoaded
      && v.activeThread == (if d.activeThread == None && RowOf(d.conversations, message.threadId) == None
                            then Some(message.threadId) else d.activeThread)
  {
    ClassifiedBy(Messages(d, message.threadId), message);
    RowAtIndex(d.conversations, message.threadId);
  }

  // ---- Names from the directories

  /** The i-th entry is the first of that id. */
  predicate FirstEntry(entries: seq<Entry>, i: nat, id: string)
    requires i < |entries|
  {
    entries[i].id == id && forall k :: 0 <= k < i ==> entries[k].id != id
  }

  /** The title a directory gives a thread: the non-empty name of its first entry, else the fallback. */
  ghost predicate Titled(entries: seq<Entry>, id: string, fallback: string, title: string) {
    && ((forall i :: 0 <= i < |entries| ==> entries[i].id != id) ==> title == fallback)
    && (forall i :: 0 <= i < |entries| && FirstEntry(entries, i, id) ==>
          title == if entries[i].name != "" then entries[i].name else fallback)
  }

  ghost predicate Pictured(entries: seq<Entry>, id: string, avatar: Option<string>) {
    && ((forall i :: 0 <= i < |entries| ==> entries[i].id != id) ==> avatar == None)
    && (forall i :: 0 <= i < |entries| && FirstEntry(entries, i, id) ==> avatar == entries[i].avatar)
  }

  /** Groups are named by the group directory, people by the contacts. */
  function Directory(d: Slice, kind: ThreadKind): seq<Entry> {
    match kind case Group => d.groups case User => d.contacts
  }

  lemma {:induction false} FoundFirst(entries: seq<Entry>, id: string)
    ensures (forall i :: 0 <= i < |entries| ==> entries[i].id != id) ==> Find(entries, id) == None
    ensures forall i :: 0 <= i < |entries| && FirstEntry(entries, i, id) ==> Find(entries, id) == Some(entries[i])
  {
    if entries != [] {
      FoundFirst(entries[1..], id);
      forall i | 0 <= i < |entries| && FirstEntry(entries, i, id) ensures Find(entries, id) == Some(entries[i]) {
        if i > 0 {
          assert entries[0].id != id;
          assert FirstEntry(entries[1..], i - 1, id);
        }
      }
    }
  }

  lemma NamesFromDirectory(d: Slice, id: string, kind: ThreadKind, fallback: string)
    ensures Titled(Directory(d, kind), id, fallback, TitleFor(d, id, kind, fallback))
    ensures Pictured(Directory(d, kind), id, AvatarFor(d, id, kind))
  {
    FoundFirst(Directory(d, kind), id);
  }

  /** The row an added message puts in front: a listed thread keeps its kind and its avatar if it
      has one, and its title is looked up again; a new one takes kind and title as given. */
  lemma BumpedNames(d: Slice, message: ChatMessage, snippet: string, meta: Meta)
    ensures var head := Bumped(d, message, snippet, meta)[0];
      match RowOf(d.conversations, message.threadId)
      case Some(row) =>
        && Titled(Directory(d, row.kind), message.threadId, meta.title, head.title)
        && (if row.avatar.Some? then head.avatar == row.avatar else Pictured(Directory(d, row.kind), message.threadId, head.avatar))
      case None =>
        head.kind == meta.kind && head.title == meta.title && Pictured(Directory(d, meta.kind), message.threadId, head.avatar)
  {
    var id := message.threadId;
    RowAtIndex(d.conversations, id);
    NamesFromDirectory(d, id, meta.kind, meta.title);
    var i := ConversationIndex(d.conversations, id);
    if i < |d.conversations| { NamesFromDirectory(d, id, d.conversations[i].kind, meta.title); }
  }

  // ---- Opening a thread, reacting

  /** Opening a thread lists it in front if it was not listed, with an empty message list if it had
      none, and makes it the open one. Nothing else changes. */
  lemma OpenedExactly(d: Slice, threadId: string, title: Option<string>, now: int)
    ensures var v := Opened(d, threadId, title, now);
      && v.activeThread == Some(threadId)
      && (if threadId in d.threads then v.threads == d.threads else v.threads == d.threads[threadId := []])
      && v.contacts == d.contacts && v.contactsLoaded == d.contactsLoaded
      && v.groups == d.groups && v.groupsLoaded == d.groupsLoaded
      && (if RowOf(d.conversations, threadId).Some? then v.conversations == d.conversations
          else
            && |v.conversations| == |d.conversations| + 1 && v.conversations[1..] == d.conversations
            && var head := v.conversations[0];
               && head.threadId == threadId && head.kind == User && head.lastSnippet == "" && head.lastAt == now
               && head.unread == 0 && Pictured(d.contacts, threadId, head.avatar)
               && Titled(d.contacts, threadId, if title.Some? && title.value != "" then title.value else threadId, head.title))
  {
    RowAtIndex(d.conversations, threadId);
    NamesFromDirectory(d, threadId, User, if title.Some? && title.value != "" then title.value else threadId);
  }

  /** A reaction puts its icon on the messages of that id in that thread and changes nothing else. */
  lemma ReactedExactly(d: Slice, threadId: string, msgId: string, icon: string)
    ensures var v := Reacted(d, threadId, msgId, icon);
      && v == d.(threads := v.threads) && v.threads.Keys == d.threads.Keys
      && (forall t :: t in d.threads && t != threadId ==> v.threads[t] == d.threads[t])
      && (threadId in d.threads ==>
            var before, after := d.threads[threadId], v.threads[threadId];
            |after| == |before| && forall k :: 0 <= k < |before| ==>
              if before[k].id == msgId then after[k] == before[k].(reactionIcon := Some(icon)) else after[k] == before[k])
  {
  }
}
