/** What one account operation changes in the store, field by field, and what it leaves alone. */
module AccountEffects {
  import opened Wrappers
  import opened Accounts
  import opened AccountSwitching
  import ChatView
  import ChatHistory

  /** The rail keeps its entries; only the entry of `id` counts as read. */
  ghost predicate RailRead(before: seq<Tab>, after: seq<Tab>, id: string) {
    && |after| == |before|
    && forall k :: 0 <= k < |before| ==>
         && after[k].accountId == before[k].accountId
         && after[k].displayName == before[k].displayName && after[k].avatar == before[k].avatar
         && after[k].unread == (if before[k].accountId == id then 0 else before[k].unread)
  }

  /** The bucket of the account left behind holds what was shown; every other bucket is as it was. */
  ghost predicate ViewSaved(s: Session, v: Session) {
    && v.buckets.Keys == s.buckets.Keys
    && forall a :: a in s.buckets ==>
         v.buckets[a].profile == s.buckets[a].profile
         && v.buckets[a].data == (if s.active == Some(a) then s.view else s.buckets[a].data)
  }

  /** Activating an account saves the view, shows the account's bucket and profile and counts it as
      read on the rail; the account already active keeps its view. An unknown account changes nothing. */
  lemma ActivatedExactly(s: Session, id: string)
    ensures var v := Activated(s, id);
      if id !in s.buckets then v == s
      else
        && v.active == Some(id) && v.profile == Some(s.buckets[id].profile)
        && v.view == (if s.active == Some(id) then s.view else s.buckets[id].data)
        && ViewSaved(s, v) && RailRead(s.tabs, v.tabs, id)
  {
  }

  lemma SwitchedExactly(s: Session, id: string)
    ensures var v := Switched(s, id);
      if id !in s.buckets || s.active == Some(id) then v == s
      else
        && v.active == Some(id) && v.profile == Some(s.buckets[id].profile) && v.view == s.buckets[id].data
        && ViewSaved(s, v) && RailRead(s.tabs, v.tabs, id)
  {
    ActivatedExactly(s, id);
  }

  ghost predicate OnRail(tabs: seq<Tab>, id: string) { exists k :: 0 <= k < |tabs| && tabs[k].accountId == id }

  /** Adopting an account in the background gives it a bucket and a rail entry if it has none, and
      its new profile if it has; what it already held and what is shown stay. */
  lemma AdoptedExactly(s: Session, p: Profile)
    ensures var id, v := p.accountId, Adopted(s, p, false);
      && v.view == s.view && v.active == s.active && v.profile == s.profile
      && v.buckets.Keys == s.buckets.Keys + {id}
      && v.buckets[id].profile == p
      && v.buckets[id].data == (if id in s.buckets then s.buckets[id].data else ChatView.EMPTY)
      && (forall a :: a in s.buckets && a != id ==> v.buckets[a] == s.buckets[a])
      && v.tabs == (if OnRail(s.tabs, id) then s.tabs else s.tabs + [Tab(id, p.displayName, p.avatar, 0)])
  {
  }

  /** Adopting in the foreground also shows the account. */
  lemma AdoptedShows(s: Session, p: Profile)
    ensures var id, v := p.accountId, Adopted(s, p, true);
      && v.active == Some(id) && v.profile == Some(p)
      && v.view == (if s.active == Some(id) then s.view else if id in s.buckets then s.buckets[id].data else ChatView.EMPTY)
      && v.buckets.Keys == s.buckets.Keys + {id}
      && (forall a :: a in s.buckets && s.active == Some(a) ==> v.buckets[a].data == s.view)
      && (forall a :: a in s.buckets && s.active != Some(a) ==> v.buckets[a].data == s.buckets[a].data)
      && RailRead(Adopted(s, p, false).tabs, v.tabs, id)
  {
    AdoptedExactly(s, p);
    ActivatedExactly(Adopted(s, p, false), p.accountId);
  }

  lemma {:induction false} WithoutAbsentTab(tabs: seq<Tab>, id: string)
    requires forall k :: 0 <= k < |tabs| ==> tabs[k].accountId != id
    ensures WithoutTab(tabs, id) == tabs
  {
    if tabs != [] { WithoutAbsentTab(tabs[1..], id); }
  }

  lemma {:induction false} WithoutTabAt(tabs: seq<Tab>, i: nat)
    requires DistinctTabs(tabs) && i < |tabs|
    ensures WithoutTab(tabs, tabs[i].accountId) == tabs[..i] + tabs[i + 1..]
  {
    if i == 0 {
      WithoutAbsentTab(tabs[1..], tabs[0].accountId);
    } else {
      WithoutTabAt(tabs[1..], i - 1);
      assert tabs[..i] + tabs[i + 1..] == [tabs[0]] + (tabs[1..][..i - 1] + tabs[1..][i..]);
    }
  }

  /** The rail without the account, the others in order. */
  ghost predicate RailWithout(before: seq<Tab>, after: seq<Tab>, id: string) {
    && (!OnRail(before, id) ==> after == before)
    && (forall i :: 0 <= i < |before| && before[i].accountId == id ==> after == before[..i] + before[i + 1..])
  }

  lemma WithoutTabIs(tabs: seq<Tab>, id: string)
    requires DistinctTabs(tabs)
    ensures RailWithout(tabs, WithoutTab(tabs, id), id)
  {
    if OnRail(tabs, id) {
      forall i | 0 <= i < |tabs| && tabs[i].accountId == id ensures WithoutTab(tabs, id) == tabs[..i] + tabs[i + 1..] {
        WithoutTabAt(tabs, i);
      }
    } else {
      WithoutAbsentTab(tabs, id);
    }
  }

  /** Logging out removes bucket and rail entry of the account. If it was shown, the first account
      left on the rail is, with its bucket as it was, or nothing when none is left. */
  lemma LoggedOutExactly(s: Session, id: string)
    requires Inv(s)
    ensures var v := LoggedOut(s, id);
      && v.buckets.Keys == s.buckets.Keys - {id}
      && (forall a :: a in v.buckets ==> v.buckets[a] == s.buckets[a])
      && exists left: seq<Tab> :: RailWithout(s.tabs, left, id) &&
           if s.active != Some(id) then v.tabs == left && v.view == s.view && v.active == s.active && v.profile == s.profile
           else if left == [] then v.tabs == [] && v.view == ChatView.EMPTY && v.active == None && v.profile == None
           else
             var next := left[0].accountId;
             && next in s.buckets && v.active == Some(next)
             && v.view == s.buckets[next].data && v.profile == Some(s.buckets[next].profile)
             && RailRead(left, v.tabs, next)
  {
    var left := WithoutTab(s.tabs, id);
    WithoutTabIs(s.tabs, id);
    if s.active == Some(id) && left != [] {
      var next := left[0].accountId;
      assert HasTab(left, next);
      WithoutTabEffect(s.tabs, id, next);
      ActivatedExactly(Session(s.profile, s.view, left, None, s.buckets - {id}), next);
    }
  }

  /** A background write-back: the bucket's threads and conversations are replaced, and shown if the
      account is. Its contacts, groups and open thread, and every other bucket, stay. */
  lemma HydratedExactly(s: Session, id: string, threads: map<string, seq<ChatView.ChatMessage>>,
                        conversations: seq<ChatView.Conversation>)
    ensures var v := Hydrated(s, id, threads, conversations);
      && v.active == s.active && v.profile == s.profile && v.tabs == s.tabs && v.buckets.Keys == s.buckets.Keys
      && (forall a :: a in s.buckets && a != id ==> v.buckets[a] == s.buckets[a])
      && (id in s.buckets ==>
            && v.buckets[id].profile == s.buckets[id].profile
            && Reloaded(s.buckets[id].data, v.buckets[id].data, threads, conversations))
      && (if id in s.buckets && s.active == Some(id) then Reloaded(s.view, v.view, threads, conversations) else v.view == s.view)
  {
  }

  predicate Reloaded(before: Slice, after: Slice, threads: map<string, seq<ChatView.ChatMessage>>,
                     conversations: seq<ChatView.Conversation>) {
    && after.threads == threads && after.conversations == conversations
    && after.contacts == before.contacts && after.contactsLoaded == before.contactsLoaded
    && after.groups == before.groups && after.groupsLoaded == before.groupsLoaded && after.activeThread == before.activeThread
  }

  /** Only the contacts changed, and they count as loaded. */
  predicate ContactsSet(before: Slice, after: Slice, contacts: seq<ChatView.Entry>) {
    && after.contacts == contacts && after.contactsLoaded
    && after.threads == before.threads && after.conversations == before.conversations
    && after.groups == before.groups && after.groupsLoaded == before.groupsLoaded && after.activeThread == before.activeThread
  }

  lemma ContactsLoadedExactly(s: Session, id: string, contacts: seq<ChatView.Entry>)
    ensures var v := ContactsLoaded(s, id, contacts);
      && v.active == s.active && v.profile == s.profile && v.tabs == s.tabs && v.buckets.Keys == s.buckets.Keys
      && (forall a :: a in s.buckets && a != id ==> v.buckets[a] == s.buckets[a])
      && (id in s.buckets ==>
            v.buckets[id].profile == s.buckets[id].profile && ContactsSet(s.buckets[id].data, v.buckets[id].data, contacts))
      && (if s.active == Some(id) then ContactsSet(s.view, v.view, contacts) else v.view == s.view)
  {
  }

  // ---- Operations on the active account's threads

  /** One bucket changed to `data`; the view shows its threads and conversations. */
  ghost predicate Mirrored(s: Session, v: Session, id: string, data: Slice) {
    && id in s.buckets
    && v.active == s.active && v.profile == s.profile && v.tabs == s.tabs && v.buckets.Keys == s.buckets.Keys
    && (forall a :: a in s.buckets && a != id ==> v.buckets[a] == s.buckets[a])
    && v.buckets[id].profile == s.buckets[id].profile && v.buckets[id].data == data
    && v.view.threads == data.threads && v.view.conversations == data.conversations
    && v.view.contacts == s.view.contacts && v.view.contactsLoaded == s.view.contactsLoaded
    && v.view.groups == s.view.groups && v.view.groupsLoaded == s.view.groupsLoaded
  }

  /** A sent message never counts as unread; its thread has the kind and title the view shows, or is
      a person's thread named by its id. */
  predicate SentMeta(view: Slice, threadId: string, meta: ChatView.Meta) {
    && !meta.bumpUnread
    && match ChatHistory.RowOf(view.conversations, threadId)
       case Some(row) => meta.kind == row.kind && meta.title == row.title
       case None => meta.kind == ChatView.User && meta.title == threadId
  }

  lemma AppendedToActiveExactly(s: Session, message: ChatView.ChatMessage, snippet: string)
    requires Inv(s)
    ensures var v := AppendedToActive(s, message, snippet);
      match s.active
      case None => v == s
      case Some(id) =>
        && (exists meta: ChatView.Meta :: SentMeta(s.view, message.threadId, meta)
              && Mirrored(s, v, id, ChatView.Appended(s.buckets[id].data, message, snippet, meta)))
        && (if v.buckets[id].data.activeThread != s.buckets[id].data.activeThread
            then v.view.activeThread == v.buckets[id].data.activeThread
            else v.view.activeThread == s.view.activeThread)
  {
    ChatHistory.RowAtIndex(s.view.conversations, message.threadId);
    if s.active.Some? {
      assert SentMeta(s.view, message.threadId, MetaFor(s.view, message.threadId));
      OpenedByAppend(s.buckets[s.active.value].data, message, snippet, MetaFor(s.view, message.threadId));
    }
  }

  lemma OpenedByAppend(d: Slice, message: ChatView.ChatMessage, snippet: string, meta: ChatView.Meta)
    ensures ChatView.Opens(d, message) <==> ChatView.Appended(d, message, snippet, meta).activeThread != d.activeThread
    ensures ChatView.Opens(d, message) ==> ChatView.Appended(d, message, snippet, meta).activeThread == Some(message.threadId)
  {
  }

  lemma ReactedInActiveExactly(s: Session, threadId: string, msgId: string, icon: string)
    requires Inv(s)
    ensures var v := ReactedInActive(s, threadId, msgId, icon);
      match s.active
      case None => v == s
      case Some(id) =>
        Mirrored(s, v, id, ChatView.Reacted(s.buckets[id].data, threadId, msgId, icon)) && v.view.activeThread == s.view.activeThread
  {
  }

  lemma ThreadOpenedExactly(s: Session, threadId: string, title: Option<string>, now: int)
    requires Inv(s)
    ensures var v := ThreadOpened(s, threadId, title, now);
      if s.active == None || threadId == "" then v == s
      else
        var id := s.active.value;
        Mirrored(s, v, id, ChatView.Opened(s.buckets[id].data, threadId, title, now)) && v.view.activeThread == Some(threadId)
  {
  }

  /** Selecting a thread opens it in the view. If its first row counts unread messages, every row of
      the thread counts none; rows of other threads, and all buckets, stay. */
  lemma ThreadSelectedExactly(s: Session, threadId: string)
    ensures var v := ThreadSelected(s, threadId);
      && v == s.(view := v.view) && v.view.activeThread == Some(threadId)
      && v.view == s.view.(activeThread := v.view.activeThread, conversations := v.view.conversations)
      && var before, after := s.view.conversations, v.view.conversations;
         var row := ChatHistory.RowOf(before, threadId);
         if row == None || row.value.unread == 0 then after == before
         else
           && |after| == |before|
           && forall k :: 0 <= k < |before| ==>
                after[k] == if before[k].threadId == threadId then before[k].(unread := 0) else before[k]
  {
    ChatHistory.RowAtIndex(s.view.conversations, threadId);
  }
}
