/** The multi-account store of the mobile client: one bucket per account, the active one
    mirrored into the visible view, saved and restored on every switch. */
module Accounts {
  import opened Wrappers
  import ChatView

  type Slice = ChatView.Slice

  datatype Profile = Profile(accountId: string, displayName: Option<string>, avatar: Option<string>)

  datatype Tab = Tab(accountId: string, displayName: Option<string>, avatar: Option<string>, unread: nat)

  datatype Bucket = Bucket(profile: Profile, data: Slice)

  /** The store as a value. */
  datatype Session = Session(
    profile: Option<Profile>, view: Slice, tabs: seq<Tab>, active: Option<string>, buckets: map<string, Bucket>)

  const SIGNED_OUT := Session(None, ChatView.EMPTY, [], None, map[])

  predicate HasTab(tabs: seq<Tab>, id: string) { exists i :: 0 <= i < |tabs| && tabs[i].accountId == id }

  function WithoutTab(tabs: seq<Tab>, id: string): seq<Tab> {
    if tabs == [] then []
    else if tabs[0].accountId == id then WithoutTab(tabs[1..], id)
    else [tabs[0]] + WithoutTab(tabs[1..], id)
  }

  function UnreadSet(tabs: seq<Tab>, id: string, n: nat): seq<Tab> {
    seq(|tabs|, i requires 0 <= i < |tabs| => if tabs[i].accountId == id then tabs[i].(unread := n) else tabs[i])
  }

  /** The view written back into the active account's bucket. */
  function SavedView(s: Session): Session {
    if s.active.Some? && s.active.value in s.buckets
    then s.(buckets := s.buckets[s.active.value := s.buckets[s.active.value].(data := s.view)])
    else s
  }

  /** `activate` */
  function Activated(s: Session, id: string): Session {
    if id !in s.buckets then s
    else
      var saved := SavedView(s);
      saved.(active := Some(id), profile := Some(saved.buckets[id].profile), view := saved.buckets[id].data,
             tabs := UnreadSet(s.tabs, id, 0))
  }

  /** `switchAccount` */
  function Switched(s: Session, id: string): Session {
    if s.active == Some(id) then s else Activated(s, id)
  }

  function AdoptedBucket(s: Session, p: Profile): Bucket {
    if p.accountId in s.buckets then s.buckets[p.accountId].(profile := p) else Bucket(p, ChatView.EMPTY)
  }

  /** `adoptAccount` */
  function Adopted(s: Session, p: Profile, activate: bool): Session {
    var id := p.accountId;
    var bucket := AdoptedBucket(s, p);
    var tabs := if HasTab(s.tabs, id) then s.tabs else s.tabs + [Tab(id, p.displayName, p.avatar, 0)];
    var adopted := s.(buckets := s.buckets[id := bucket], tabs := tabs);
    if activate then Activated(adopted, id) else adopted
  }

  /** `logoutAccount` once the server has deleted the account. */
  function LoggedOut(s: Session, id: string): Session {
    var left := s.(buckets := s.buckets - {id}, tabs := WithoutTab(s.tabs, id));
    if s.active != Some(id) then left
    else if left.tabs != [] then Activated(left.(active := None), left.tabs[0].accountId)
    else left.(active := None, profile := None, view := ChatView.EMPTY)
  }

  /** The write-back of `hydrateCloudHistory` into the bucket it fetched for. */
  function Hydrated(s: Session, id: string, threads: map<string, seq<ChatView.ChatMessage>>,
                    conversations: seq<ChatView.Conversation>): Session {
    if id !in s.buckets then s
    else
      var filled := s.(buckets := s.buckets[id :=
        s.buckets[id].(data := s.buckets[id].data.(threads := threads, conversations := conversations))]);
      if s.active == Some(id) then filled.(view := s.view.(threads := threads, conversations := conversations))
      else filled
  }

  /** The write-back of `loadContacts`. */
  function ContactsLoaded(s: Session, id: string, contacts: seq<ChatView.Entry>): Session {
    var filled := if id in s.buckets
      then s.(buckets := s.buckets[id :=
             s.buckets[id].(data := s.buckets[id].data.(contacts := contacts, contactsLoaded := true))])
      else s;
    if s.active == Some(id) then filled.(view := s.view.(contacts := contacts, contactsLoaded := true)) else filled
  }

  /** Kind and title of a message's thread as the view has them; sending never counts as unread. */
  function MetaFor(view: Slice, threadId: string): ChatView.Meta {
    var i := ChatView.ConversationIndex(view.conversations, threadId);
    if i < |view.conversations| then ChatView.Meta(view.conversations[i].kind, view.conversations[i].title, false)
    else ChatView.Meta(ChatView.User, threadId, false)
  }

  /** `appendToActive`: the bucket changes, then threads and conversations are mirrored. */
  function AppendedToActive(s: Session, message: ChatView.ChatMessage, snippet: string): Session {
    if s.active.None? || s.active.value !in s.buckets then s
    else
      var d := s.buckets[s.active.value].data;
      var d' := ChatView.Appended(d, message, snippet, MetaFor(s.view, message.threadId));
      s.(buckets := s.buckets[s.active.value := s.buckets[s.active.value].(data := d')],
         view := s.view.(threads := d'.threads, conversations := d'.conversations,
                         activeThread := if ChatView.Opens(d, message) then Some(message.threadId) else s.view.activeThread))
  }

  /** The write-back of `sendReaction`. */
  function ReactedInActive(s: Session, threadId: string, msgId: string, icon: string): Session {
    if s.active.None? || s.active.value !in s.buckets then s
    else
      var d' := ChatView.Reacted(s.buckets[s.active.value].data, threadId, msgId, icon);
      s.(buckets := s.buckets[s.active.value := s.buckets[s.active.value].(data := d')],
         view := s.view.(threads := d'.threads, conversations := d'.conversations))
  }

  /** `openThread` */
  function ThreadOpened(s: Session, threadId: string, title: Option<string>, now: int): Session {
    if threadId == "" || s.active.None? || s.active.value !in s.buckets then s
    else
      var d' := ChatView.Opened(s.buckets[s.active.value].data, threadId, title, now);
      s.(buckets := s.buckets[s.active.value := s.buckets[s.active.value].(data := d')],
         view := s.view.(threads := d'.threads, conversations := d'.conversations, activeThread := Some(threadId)))
  }

  function Read(cs: seq<ChatView.Conversation>, threadId: string): seq<ChatView.Conversation> {
    seq(|cs|, i requires 0 <= i < |cs| => if cs[i].threadId == threadId then cs[i].(unread := 0) else cs[i])
  }

  /** `selectThread`: only the view learns that the thread was read. */
  function ThreadSelected(s: Session, threadId: string): Session {
    var i := ChatView.ConversationIndex(s.view.conversations, threadId);
    var cs := if i < |s.view.conversations| && s.view.conversations[i].unread > 0
              then Read(s.view.conversations, threadId) else s.view.conversations;
    s.(view := s.view.(conversations := cs, activeThread := Some(threadId)))
  }

  // ---- The store in place

  class AccountData {
    var profile: Profile
    var data: Slice

    constructor (profile: Profile)
      ensures this.profile == profile && data == ChatView.EMPTY
    {
      this.profile := profile;
      data := ChatView.EMPTY;
    }

    /** The reconciliation of `appendToBucket`: whether the message is known, its echo adopting the id. */
    method Reconcile(message: ChatView.ChatMessage) returns (known: bool)
      modifies this`data
      ensures var ms := ChatView.Messages(old(data), message.threadId);
        var outcome := ChatView.Classify(ms, message);
        && known == !outcome.Fresh?
        && data == if outcome.Echo?
                   then old(data).(threads := old(data.threads)[message.threadId := ChatView.AppendedTo(ms, message)])
                   else old(data)
    {
      var existing := ChatView.Messages(data, message.threadId);
      if ChatView.HasId(existing, message.id) {
        return true;
      }
      if message.outgoing {
        var dupIdx := ChatView.EchoIndex(existing, message);
        if dupIdx < |existing| {
          var merged := existing[dupIdx := existing[dupIdx].(id := message.id)];
          data := data.(threads := data.threads[message.threadId := merged]);
          return true;
        }
      }
      return false;
    }

    /** The conversation list of `appendToBucket`; says whether the thread was listed. */
    method BumpConversation(message: ChatView.ChatMessage, snippet: string, meta: ChatView.Meta) returns (known: bool)
      modifies this`data
      ensures data == old(data).(conversations := ChatView.Bumped(old(data), message, snippet, meta))
      ensures known <==> ChatView.ConversationIndex(old(data.conversations), message.threadId) < |old(data.conversations)|
    {
      var cs := data.conversations;
      var idx := ChatView.ConversationIndex(cs, message.threadId);
      known := idx < |cs|;
      if known {
        var current := cs[idx];
        var updated := current.(
          title := ChatView.TitleFor(data, message.threadId, current.kind, meta.title),
          lastSnippet := snippet,
          lastAt := message.at,
          unread := if meta.bumpUnread then current.unread + 1 else current.unread,
          avatar := if current.avatar.Some? then current.avatar else ChatView.AvatarFor(data, message.threadId, current.kind));
        data := data.(conversations := [updated] + cs[..idx] + cs[idx + 1..]);
      } else {
        var conversation := ChatView.Conversation(
          message.threadId, meta.kind, meta.title, snippet, message.at, if meta.bumpUnread then 1 else 0,
          ChatView.AvatarFor(data, message.threadId, meta.kind));
        data := data.(conversations := [conversation] + cs);
      }
    }

    /** The bucket's part of `openThread`. */
    method Open(threadId: string, title: Option<string>, now: int)
      modifies this`data
      ensures data == ChatView.Opened(old(data), threadId, title, now)
    {
      if threadId !in data.threads {
        data := data.(threads := data.threads[threadId := []]);
      }
      if ChatView.ConversationIndex(data.conversations, threadId) == |data.conversations| {
        var fallback := if title.Some? && title.value != "" then title.value else threadId;
        var conversation := ChatView.Conversation(
          threadId, ChatView.User, ChatView.TitleFor(data, threadId, ChatView.User, fallback), "", now, 0,
          ChatView.AvatarFor(data, threadId, ChatView.User));
        data := data.(conversations := [conversation] + data.conversations);
      }
      data := data.(activeThread := Some(threadId));
    }

    /** `applyReactionToBucket` */
    method ApplyReaction(threadId: string, msgId: string, icon: string)
      modifies this`data
      ensures data == ChatView.Reacted(old(data), threadId, msgId, icon)
    {
      if threadId !in data.threads {
        return;
      }
      var list := data.threads[threadId];
      var reacted: seq<ChatView.ChatMessage> := [];
      for k := 0 to |list|
        invariant reacted == ChatView.ReactedList(list, msgId, icon)[..k]
        invariant data == old(data)
      {
        var m := list[k];
        reacted := reacted + [if m.id == msgId then m.(reactionIcon := Some(icon)) else m];
      }
      assert reacted == ChatView.ReactedList(list, msgId, icon);
      data := data.(threads := data.threads[threadId := reacted]);
    }
  }

  /** What the bucket objects hold. */
  ghost function Contents(buckets: map<string, AccountData>): map<string, Bucket>
    reads buckets.Values
  {
    map id | id in buckets :: Bucket(buckets[id].profile, buckets[id].data)
  }

  class SessionStore {
    var profile: Option<Profile>
    var view: Slice
    var accounts: seq<Tab>
    var activeAccountId: Option<string>
    var buckets: map<string, AccountData>

    ghost predicate Valid()
      reads this
    {
      forall a, b :: a in buckets && b in buckets && a != b ==> buckets[a] != buckets[b]
    }

    ghost function View(): Session
      reads this, buckets.Values
    {
      Session(profile, view, accounts, activeAccountId, Contents(buckets))
    }

    constructor ()
      ensures Valid() && View() == SIGNED_OUT
    {
      profile, view, accounts, activeAccountId, buckets := None, ChatView.EMPTY, [], None, map[];
    }

    /** The first half of `activate`: the view goes back into the active bucket. */
    method SaveView()
      requires Valid()
      modifies buckets.Values
      ensures View() == SavedView(old(View()))
    {
      if activeAccountId.Some? && activeAccountId.value in buckets {
        var cur := buckets[activeAccountId.value];
        cur.data := view;
        assert Contents(buckets) == old(Contents(buckets))[activeAccountId.value := Bucket(cur.profile, view)];
      }
    }

    /** `activate` */
    method Activate(id: string)
      requires Valid()
      modifies this, buckets.Values
      ensures Valid() && buckets == old(buckets)
      ensures View() == Activated(old(View()), id)
    {
      if id !in buckets {
        return;
      }
      var target := buckets[id];
      SaveView();
      activeAccountId := Some(id);
      profile := Some(target.profile);
      view := target.data;
      accounts := UnreadSet(accounts, id, 0);
    }

    /** `switchAccount` */
    method SwitchAccount(id: string)
      requires Valid()
      modifies this, buckets.Values
      ensures Valid() && buckets == old(buckets)
      ensures View() == Switched(old(View()), id)
    {
      if activeAccountId == Some(id) {
        return;
      }
      Activate(id);
    }

    /** The bucket of `adoptAccount`. */
    method PutBucket(p: Profile)
      requires Valid()
      modifies this`buckets, buckets.Values
      ensures Valid() && fresh(buckets.Values - old(buckets.Values))
      ensures View() == old(View()).(buckets := old(View()).buckets[p.accountId := AdoptedBucket(old(View()), p)])
    {
      var id := p.accountId;
      if id !in buckets {
        var bucket := new AccountData(p);
        buckets := buckets[id := bucket];
        assert Contents(buckets) == old(Contents(buckets))[id := Bucket(p, ChatView.EMPTY)];
      } else {
        var b := buckets[id];
        b.profile := p;
        assert Contents(buckets) == old(Contents(buckets))[id := Bucket(p, b.data)];
      }
    }

    /** The bucket and rail entry of `adoptAccount`. */
    method AddOrUpdate(p: Profile)
      requires Valid()
      modifies this, buckets.Values
      ensures Valid() && fresh(buckets.Values - old(buckets.Values))
      ensures View() == Adopted(old(View()), p, false)
    {
      PutBucket(p);
      if !HasTab(accounts, p.accountId) {
        accounts := accounts + [Tab(p.accountId, p.displayName, p.avatar, 0)];
      }
    }

    /** `adoptAccount` */
    method AdoptAccount(p: Profile, activate: bool)
      requires Valid()
      modifies this, buckets.Values
      ensures Valid()
      ensures View() == Adopted(old(View()), p, activate)
    {
      AddOrUpdate(p);
      if activate {
        Activate(p.accountId);
      }
    }

    /** The pruning of `logoutAccount`. */
    method Prune(id: string)
      requires Valid()
      modifies this`buckets, this`accounts
      ensures Valid() && buckets.Values <= old(buckets.Values)
      ensures View() == old(View()).(buckets := old(View()).buckets - {id}, tabs := WithoutTab(old(accounts), id))
    {
      buckets := buckets - {id};
      accounts := WithoutTab(accounts, id);
    }

    /** `logoutAccount` once the server has deleted the account. */
    method LogoutAccount(id: string)
      requires Valid()
      modifies this, buckets.Values
      ensures Valid()
      ensures View() == LoggedOut(old(View()), id)
    {
      Prune(id);
      ghost var left := View();
      if activeAccountId == Some(id) {
        if accounts != [] {
          activeAccountId := None;
          assert View() == left.(active := None);
          Activate(accounts[0].accountId);
        } else {
          activeAccountId, profile, view := None, None, ChatView.EMPTY;
        }
      }
    }

    /** The reset of `unlinkDevice`. */
    method UnlinkDevice()
      modifies this
      ensures Valid() && View() == SIGNED_OUT
    {
      buckets, accounts, activeAccountId, profile, view := map[], [], None, None, ChatView.EMPTY;
    }

    /** The write-back of `hydrateCloudHistory`. */
    method HydrateWriteBack(id: string, threads: map<string, seq<ChatView.ChatMessage>>,
                            conversations: seq<ChatView.Conversation>)
      requires Valid()
      modifies this, buckets.Values
      ensures Valid() && buckets == old(buckets)
      ensures View() == Hydrated(old(View()), id, threads, conversations)
    {
      if id !in buckets {
        return;
      }
      var b := buckets[id];
      b.data := b.data.(threads := threads);
      b.data := b.data.(conversations := conversations);
      assert Contents(buckets) == old(Contents(buckets))[id := Bucket(b.profile, b.data)];
      if activeAccountId == Some(id) {
        view := view.(threads := b.data.threads, conversations := b.data.conversations);
      }
    }

    /** The write-back of `loadContacts`. */
    method LoadContacts(id: string, contacts: seq<ChatView.Entry>)
      requires Valid()
      modifies this, buckets.Values
      ensures Valid() && buckets == old(buckets)
      ensures View() == ContactsLoaded(old(View()), id, contacts)
    {
      if id in buckets {
        buckets[id].data := buckets[id].data.(contacts := contacts, contactsLoaded := true);
      }
      if activeAccountId == Some(id) {
        view := view.(contacts := contacts, contactsLoaded := true);
      }
    }

    /** `appendToActive` with `appendToBucket` behind it. */
    method AppendToActive(message: ChatView.ChatMessage, snippet: string)
      requires Valid()
      modifies this, buckets.Values
      ensures Valid() && buckets == old(buckets)
      ensures View() == AppendedToActive(old(View()), message, snippet)
    {
      if activeAccountId.None? || activeAccountId.value !in buckets {
        return;
      }
      var b := buckets[activeAccountId.value];
      AppendToBucket(b, message, snippet, MetaFor(view, message.threadId));
      view := view.(threads := b.data.threads, conversations := b.data.conversations);
      assert Contents(buckets) == old(Contents(buckets))[activeAccountId.value := Bucket(b.profile, b.data)];
    }

    /** The write-back of `sendReaction`. */
    method ReactInActive(threadId: string, msgId: string, icon: string)
      requires Valid()
      modifies this, buckets.Values
      ensures Valid() && buckets == old(buckets)
      ensures View() == ReactedInActive(old(View()), threadId, msgId, icon)
    {
      if activeAccountId.None? || activeAccountId.value !in buckets {
        return;
      }
      var b := buckets[activeAccountId.value];
      b.ApplyReaction(threadId, msgId, icon);
      view := view.(threads := b.data.threads, conversations := b.data.conversations);
      assert Contents(buckets) == old(Contents(buckets))[activeAccountId.value := Bucket(b.profile, b.data)];
    }

    /** `appendToBucket`; the bucket is the active account's. */
    method AppendToBucket(b: AccountData, message: ChatView.ChatMessage, snippet: string, meta: ChatView.Meta)
      modifies this`view, b`data
      ensures b.data == ChatView.Appended(old(b.data), message, snippet, meta)
      ensures view == if ChatView.Opens(old(b.data), message)
                      then old(view).(activeThread := Some(message.threadId)) else old(view)
    {
      var known := b.Reconcile(message);
      if known {
        return;
      }
      var d := b.data;
      var existing := ChatView.Messages(d, message.threadId);
      b.data := d.(threads := d.threads[message.threadId := existing + [message]]);
      var listed := b.BumpConversation(message, snippet, meta);
      if !listed && b.data.activeThread.None? {
        b.data := b.data.(activeThread := Some(message.threadId));
        view := view.(activeThread := Some(message.threadId));
      }
    }

    /** `openThread`, for a trimmed id. */
    method OpenThread(threadId: string, title: Option<string>, now: int)
      requires Valid()
      modifies this, buckets.Values
      ensures Valid() && buckets == old(buckets)
      ensures View() == ThreadOpened(old(View()), threadId, title, now)
    {
      if threadId == "" || activeAccountId.None? || activeAccountId.value !in buckets {
        return;
      }
      var b := buckets[activeAccountId.value];
      b.Open(threadId, title, now);
      view := view.(threads := b.data.threads, conversations := b.data.conversations, activeThread := Some(threadId));
      assert Contents(buckets) == old(Contents(buckets))[activeAccountId.value := Bucket(b.profile, b.data)];
    }

    /** `selectThread` */
    method SelectThread(threadId: string)
      modifies this`view
      ensures View() == ThreadSelected(old(View()), threadId)
    {
      view := view.(activeThread := Some(threadId));
      var i := ChatView.ConversationIndex(view.conversations, threadId);
      if i < |view.conversations| && view.conversations[i].unread > 0 {
        view := view.(conversations := Read(view.conversations, threadId));
      }
    }
  }
}
