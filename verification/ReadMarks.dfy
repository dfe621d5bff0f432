/** When a thread that was read stays read. `selectThread` clears the count in the view only, and
    most operations bring the bucket's conversations back into the view. */
module ReadMarks {
  import opened Wrappers
  import opened Accounts
  import opened AccountSwitching
  import ChatView
  import ChatHistory

  type Slice = ChatView.Slice

  /** The unread count a list shows for a thread: its first row's, zero without one. */
  function Shown(cs: seq<ChatView.Conversation>, threadId: string): nat {
    var row := ChatHistory.RowOf(cs, threadId);
    if row.Some? then row.value.unread else 0
  }

  /** What an operation does to the two counts of one account's thread: the one its view shows,
      or showed last, and the one its bucket holds. */
  datatype Effect =
    | Leaves             // neither changes
    | Mirrors            // the bucket's conversations are shown
    | Saves              // the shown conversations go into the bucket
    | Reloads(n: nat)    // both come from the server
    | Reads              // the thread is read in the view

  /** The effect of an operation on the thread of the account `id`. */
  function EffectOf(s: Session, op: Op, id: string, threadId: string): Effect {
    var before, after := s.active == Some(id), Apply(s, op).active == Some(id);
    if op.Hydrate? && op.id == id then Reloads(Shown(op.conversations, threadId))
    else if before && !after then Saves
    else if !before && after then Mirrors
    else if !before then Leaves
    else match op
      case Append(_, _) => Mirrors
      case React(_, _, _) => Mirrors
      case Open(openedId, _, _) => if openedId == "" then Leaves else Mirrors
      case Select(selected) => if selected == threadId then Reads else Leaves
      case Adopt(p, activate) => if activate && p.accountId == id then Saves else Leaves
      case _ => Leaves
  }

  /** The effects along a run. */
  function Effects(s: Session, ops: seq<Op>, id: string, threadId: string): seq<Effect>
    decreases |ops|
  {
    if ops == [] then [] else [EffectOf(s, ops[0], id, threadId)] + Effects(Apply(s, ops[0]), ops[1..], id, threadId)
  }

  datatype Counts = Counts(shown: nat, stored: nat)

  function Track(c: Counts, e: Effect): Counts {
    match e
    case Leaves => c
    case Mirrors => c.(shown := c.stored)
    case Saves => c.(stored := c.shown)
    case Reloads(n) => Counts(n, n)
    case Reads => c.(shown := 0)
  }

  function TrackAll(c: Counts, effects: seq<Effect>): Counts
    decreases |effects|
  {
    if effects == [] then c else TrackAll(Track(c, effects[0]), effects[1..])
  }

  /** The account is neither removed nor is the device unlinked. */
  predicate Keeps(op: Op, id: string) { !(op.Logout? && op.id == id) && !op.Unlink? }

  /** `c` holds the account's counts: while it is away only the stored one is real. */
  ghost predicate Follows(s: Session, id: string, threadId: string, c: Counts) {
    && Inv(s) && id in s.buckets
    && Shown(s.buckets[id].data.conversations, threadId) == c.stored
    && (s.active == Some(id) ==> Shown(s.view.conversations, threadId) == c.shown)
  }

  // ---- The lists

  lemma ShownAtIndex(cs: seq<ChatView.Conversation>, threadId: string)
    ensures var i := ChatView.ConversationIndex(cs, threadId);
      Shown(cs, threadId) == if i < |cs| then cs[i].unread else 0
  {
    ChatHistory.RowAtIndex(cs, threadId);
  }

  lemma ShownBehind(row: ChatView.Conversation, cs: seq<ChatView.Conversation>, threadId: string)
    ensures Shown([row] + cs, threadId) == if row.threadId == threadId then row.unread else Shown(cs, threadId)
  {
    assert ([row] + cs)[1..] == cs;
  }

  lemma {:induction false} RemovedKeepsShown(cs: seq<ChatView.Conversation>, i: nat, threadId: string)
    requires i < |cs| && cs[i].threadId != threadId
    ensures Shown(cs[..i] + cs[i + 1..], threadId) == Shown(cs, threadId)
  {
    if i == 0 {
      assert cs[..0] + cs[1..] == cs[1..];
    } else {
      var tail := cs[1..];
      RemovedKeepsShown(tail, i - 1, threadId);
      assert cs[..i] + cs[i + 1..] == [cs[0]] + (tail[..i - 1] + tail[i..]);
      ShownBehind(cs[0], tail[..i - 1] + tail[i..], threadId);
    }
  }

  /** Moving a thread's first row to the front changes no count. */
  lemma MovedKeepsShown(cs: seq<ChatView.Conversation>, i: nat, row: ChatView.Conversation, threadId: string)
    requires i < |cs| && i == ChatView.ConversationIndex(cs, row.threadId) && row.unread == cs[i].unread
    ensures Shown([row] + cs[..i] + cs[i + 1..], threadId) == Shown(cs, threadId)
  {
    var rest := cs[..i] + cs[i + 1..];
    assert [row] + cs[..i] + cs[i + 1..] == [row] + rest;
    ShownBehind(row, rest, threadId);
    if row.threadId == threadId { ShownAtIndex(cs, threadId); } else { RemovedKeepsShown(cs, i, threadId); }
  }

  lemma NewRowKeepsShown(cs: seq<ChatView.Conversation>, row: ChatView.Conversation, threadId: string)
    requires ChatView.ConversationIndex(cs, row.threadId) == |cs| && row.unread == 0
    ensures Shown([row] + cs, threadId) == Shown(cs, threadId)
  {
    ShownBehind(row, cs, threadId);
    if row.threadId == threadId { ShownAtIndex(cs, threadId); }
  }

  /** Whatever becomes of a message that does not count as unread, no count changes. */
  lemma AppendKeepsShown(d: Slice, message: ChatView.ChatMessage, snippet: string, meta: ChatView.Meta, threadId: string)
    requires !meta.bumpUnread
    ensures Shown(ChatView.Appended(d, message, snippet, meta).conversations, threadId) == Shown(d.conversations, threadId)
  {
    if ChatView.Classify(ChatView.Messages(d, message.threadId), message).Fresh? {
      var cs := ChatView.Bumped(d, message, snippet, meta);
      var i := ChatView.ConversationIndex(d.conversations, message.threadId);
      if i < |d.conversations| {
        MovedKeepsShown(d.conversations, i, cs[0], threadId);
      } else {
        NewRowKeepsShown(d.conversations, cs[0], threadId);
      }
    }
  }

  lemma OpenKeepsShown(d: Slice, openedId: string, title: Option<string>, now: int, threadId: string)
    ensures Shown(ChatView.Opened(d, openedId, title, now).conversations, threadId) == Shown(d.conversations, threadId)
  {
    var cs := ChatView.Opened(d, openedId, title, now).conversations;
    if cs != d.conversations { NewRowKeepsShown(d.conversations, cs[0], threadId); }
  }

  lemma {:induction false} ReadShows(cs: seq<ChatView.Conversation>, read: string, threadId: string)
    ensures Shown(Read(cs, read), threadId) == if threadId == read then 0 else Shown(cs, threadId)
  {
    if cs != [] {
      assert Read(cs, read)[1..] == Read(cs[1..], read);
      ReadShows(cs[1..], read, threadId);
    }
  }

  lemma SelectShows(s: Session, read: string, threadId: string)
    ensures Shown(ThreadSelected(s, read).view.conversations, threadId)
         == if threadId == read then 0 else Shown(s.view.conversations, threadId)
  {
    ReadShows(s.view.conversations, read, threadId);
    ShownAtIndex(s.view.conversations, read);
  }

  // ---- One operation

  predicate InThread(op: Op) { op.Append? || op.React? || op.Open? || op.Select? }

  /** Another account's thread operation. */
  lemma AwayOpFollows(s: Session, op: Op, id: string, threadId: string, c: Counts)
    requires Follows(s, id, threadId, c) && InThread(op) && s.active != Some(id)
    ensures Follows(Apply(s, op), id, threadId, c) && Apply(s, op).active == s.active
  {
    ApplyKeepsInv(s, op);
  }

  /** The bucket's conversations, their counts unchanged, are shown. */
  lemma MirrorFollows(s: Session, v: Session, id: string, threadId: string, c: Counts)
    requires Follows(s, id, threadId, c) && Inv(v) && v.active == Some(id)
    requires v.view.conversations == v.buckets[id].data.conversations
    requires Shown(v.view.conversations, threadId) == c.stored
    ensures Follows(v, id, threadId, Track(c, Mirrors))
  {
  }

  lemma AppendFollows(s: Session, message: ChatView.ChatMessage, snippet: string, id: string, threadId: string, c: Counts)
    requires Follows(s, id, threadId, c) && s.active == Some(id)
    ensures Follows(AppendedToActive(s, message, snippet), id, threadId, Track(c, Mirrors))
  {
    ApplyKeepsInv(s, Append(message, snippet));
    AppendKeepsShown(s.buckets[id].data, message, snippet, MetaFor(s.view, message.threadId), threadId);
    MirrorFollows(s, AppendedToActive(s, message, snippet), id, threadId, c);
  }

  lemma OpenFollows(s: Session, openedId: string, title: Option<string>, now: int, id: string, threadId: string, c: Counts)
    requires Follows(s, id, threadId, c) && s.active == Some(id) && openedId != ""
    ensures Follows(ThreadOpened(s, openedId, title, now), id, threadId, Track(c, Mirrors))
  {
    ApplyKeepsInv(s, Open(openedId, title, now));
    OpenKeepsShown(s.buckets[id].data, openedId, title, now, threadId);
    MirrorFollows(s, ThreadOpened(s, openedId, title, now), id, threadId, c);
  }

  lemma ReactFollows(s: Session, target: string, msgId: string, icon: string, id: string, threadId: string, c: Counts)
    requires Follows(s, id, threadId, c) && s.active == Some(id)
    ensures Follows(ReactedInActive(s, target, msgId, icon), id, threadId, Track(c, Mirrors))
  {
    ApplyKeepsInv(s, React(target, msgId, icon));
    MirrorFollows(s, ReactedInActive(s, target, msgId, icon), id, threadId, c);
  }

  lemma SelectFollows(s: Session, read: string, id: string, threadId: string, c: Counts)
    requires Follows(s, id, threadId, c) && s.active == Some(id)
    ensures Follows(ThreadSelected(s, read), id, threadId, Track(c, if read == threadId then Reads else Leaves))
  {
    ApplyKeepsInv(s, Select(read));
    SelectShows(s, read, threadId);
  }

  /** The operations on the active account's threads. */
  lemma ThreadOpFollows(s: Session, op: Op, id: string, threadId: string, c: Counts)
    requires Follows(s, id, threadId, c) && InThread(op)
    ensures Follows(Apply(s, op), id, threadId, Track(c, EffectOf(s, op, id, threadId)))
  {
    if s.active != Some(id) {
      AwayOpFollows(s, op, id, threadId, c);
    } else {
      match op
      case Append(message, snippet) => AppendFollows(s, message, snippet, id, threadId, c);
      case React(target, msgId, icon) => ReactFollows(s, target, msgId, icon, id, threadId, c);
      case Open(openedId, title, now) => if openedId != "" { OpenFollows(s, openedId, title, now, id, threadId, c); }
      case Select(read) => SelectFollows(s, read, id, threadId, c);
    }
  }

  /** Saving the view and loading a bucket. */
  lemma ActivatedFollows(s: Session, other: string, id: string, threadId: string, c: Counts)
    requires Follows(s, id, threadId, c) && other in s.buckets
    ensures var v := Activated(s, other);
      var effect := if s.active == Some(id) then Saves else if other == id then Mirrors else Leaves;
      Follows(v, id, threadId, Track(c, effect))
  {
    ActivatedKeepsInv(s, other);
  }

  lemma AdoptFollows(s: Session, p: Profile, activate: bool, id: string, threadId: string, c: Counts)
    requires Follows(s, id, threadId, c)
    ensures Follows(Apply(s, Adopt(p, activate)), id, threadId, Track(c, EffectOf(s, Adopt(p, activate), id, threadId)))
  {
    var adopted := Adopted(s, p, false);
    AdoptedKeepsInv(s, p, false);
    assert Follows(adopted, id, threadId, c);
    if activate { ActivatedFollows(adopted, p.accountId, id, threadId, c); }
  }

  lemma LogoutFollows(s: Session, gone: string, id: string, threadId: string, c: Counts)
    requires Follows(s, id, threadId, c) && gone != id
    ensures Follows(Apply(s, Logout(gone)), id, threadId, Track(c, EffectOf(s, Logout(gone), id, threadId)))
  {
    LoggedOutKeepsInv(s, gone);
  }

  lemma HydrateFollows(s: Session, loaded: string, threads: map<string, seq<ChatView.ChatMessage>>,
                       conversations: seq<ChatView.Conversation>, id: string, threadId: string, c: Counts)
    requires Follows(s, id, threadId, c)
    ensures Follows(Hydrated(s, loaded, threads, conversations), id, threadId,
                    Track(c, if loaded == id then Reloads(Shown(conversations, threadId)) else Leaves))
    ensures Hydrated(s, loaded, threads, conversations).active == s.active
  {
    ApplyKeepsInv(s, Hydrate(loaded, threads, conversations));
  }

  lemma ContactsFollow(s: Session, loaded: string, contacts: seq<ChatView.Entry>, id: string, threadId: string, c: Counts)
    requires Follows(s, id, threadId, c)
    ensures Follows(ContactsLoaded(s, loaded, contacts), id, threadId, c)
    ensures ContactsLoaded(s, loaded, contacts).active == s.active
  {
    ApplyKeepsInv(s, Op.LoadContacts(loaded, contacts));
  }

  lemma SwitchFollows(s: Session, other: string, id: string, threadId: string, c: Counts)
    requires Follows(s, id, threadId, c)
    ensures Follows(Switched(s, other), id, threadId, Track(c, EffectOf(s, Switch(other), id, threadId)))
  {
    if s.active != Some(other) && other in s.buckets { ActivatedFollows(s, other, id, threadId, c); }
  }

  lemma OpFollows(s: Session, op: Op, id: string, threadId: string, c: Counts)
    requires Follows(s, id, threadId, c) && Keeps(op, id)
    ensures Follows(Apply(s, op), id, threadId, Track(c, EffectOf(s, op, id, threadId)))
  {
    match op
    case Adopt(p, activate) => AdoptFollows(s, p, activate, id, threadId, c);
    case Switch(other) => SwitchFollows(s, other, id, threadId, c);
    case Logout(gone) => LogoutFollows(s, gone, id, threadId, c);
    case Hydrate(loaded, threads, conversations) => HydrateFollows(s, loaded, threads, conversations, id, threadId, c);
    case LoadContacts(loaded, contacts) => ContactsFollow(s, loaded, contacts, id, threadId, c);
    case _ => ThreadOpFollows(s, op, id, threadId, c);
  }

  // ---- Whole runs

  /** Along any run that keeps the account, its two counts are what the effects make of them. */
  lemma {:induction false} RunFollows(s: Session, ops: seq<Op>, id: string, threadId: string, c: Counts)
    requires Follows(s, id, threadId, c) && forall op :: op in ops ==> Keeps(op, id)
    ensures Follows(Run(s, ops), id, threadId, TrackAll(c, Effects(s, ops, id, threadId)))
    decreases |ops|
  {
    if ops != [] {
      var e := EffectOf(s, ops[0], id, threadId);
      OpFollows(s, ops[0], id, threadId, c);
      RunFollows(Apply(s, ops[0]), ops[1..], id, threadId, Track(c, e));
      var rest := Effects(Apply(s, ops[0]), ops[1..], id, threadId);
      assert ([e] + rest)[1..] == rest;
    }
  }

  // ---- When the mark is kept

  /** The count of the last reload, if there is one. */
  function LastReload(effects: seq<Effect>): Option<nat> {
    if effects == [] then None
    else if LastReload(effects[1..]).Some? then LastReload(effects[1..])
    else if effects[0].Reloads? then Some(effects[0].n)
    else None
  }

  /** The bucket is shown before the view was ever saved to it. */
  ghost predicate ShownUnsaved(effects: seq<Effect>) {
    exists i :: 0 <= i < |effects| && effects[i] == Mirrors && Saves !in effects[..i]
  }

  /** A nonzero count comes back: that of the last reload, or without one the bucket's own. */
  ghost predicate Restores(effects: seq<Effect>, stored: nat) {
    if LastReload(effects).Some? then LastReload(effects).value != 0
    else stored != 0 && ShownUnsaved(effects)
  }

  /** Once both counts agree, only a reload changes them. */
  lemma {:induction false} AgreedCounts(effects: seq<Effect>, n: nat)
    requires Reads !in effects
    ensures var m := if LastReload(effects).Some? then LastReload(effects).value else n;
      TrackAll(Counts(n, n), effects) == Counts(m, m)
    decreases |effects|
  {
    if effects != [] {
      assert effects == [effects[0]] + effects[1..];
      AgreedCounts(effects[1..], Track(Counts(n, n), effects[0]).shown);
    }
  }

  lemma UnsavedBehind(effects: seq<Effect>)
    requires effects != []
    ensures ShownUnsaved(effects) <==>
      effects[0] == Mirrors || (effects[0] != Saves && ShownUnsaved(effects[1..]))
  {
    if effects[0] == Mirrors { assert Saves !in effects[..0]; }
    if effects[0] != Saves && ShownUnsaved(effects[1..]) {
      var i :| 0 <= i < |effects[1..]| && effects[1..][i] == Mirrors && Saves !in effects[1..][..i];
      assert effects[..i + 1] == [effects[0]] + effects[1..][..i];
      assert effects[i + 1] == Mirrors;
    }
    if ShownUnsaved(effects) && effects[0] != Mirrors {
      var i :| 0 <= i < |effects| && effects[i] == Mirrors && Saves !in effects[..i];
      assert effects[..i][0] == effects[0];
      assert effects[..i] == [effects[0]] + effects[1..][..i - 1];
      assert effects[1..][i - 1] == Mirrors;
    }
  }

  /** The count shown after a thread was read, from the effects alone. */
  lemma {:induction false} ShownAfterRead(effects: seq<Effect>, stored: nat)
    requires Reads !in effects
    ensures TrackAll(Counts(0, stored), effects).shown
         == if LastReload(effects).Some? then LastReload(effects).value
            else if ShownUnsaved(effects) then stored else 0
    decreases |effects|
  {
    if effects != [] {
      var e, rest := effects[0], effects[1..];
      assert effects == [e] + rest;
      UnsavedBehind(effects);
      match e {
        case Leaves => ShownAfterRead(rest, stored);
        case Mirrors => AgreedCounts(rest, stored);
        case Saves => AgreedCounts(rest, 0);
        case Reloads(n) => AgreedCounts(rest, n);
      }
    }
  }

  /** A thread is read, then anything happens on any accounts that neither reads it again nor
      removes its account, and the account is shown at the end. The thread still counts as read if
      and only if no nonzero count came back: from the last reload of the account, or without a
      reload, from its bucket, by an operation that shows the bucket before the first that saves
      the view. */
  lemma ReadMarkKeptIff(s: Session, read: string, ops: seq<Op>, id: string)
    requires Inv(s) && s.active == Some(id) && forall op :: op in ops ==> Keeps(op, id)
    requires Run(ThreadSelected(s, read), ops).active == Some(id)
    requires Reads !in Effects(ThreadSelected(s, read), ops, id, read)
    ensures var effects := Effects(ThreadSelected(s, read), ops, id, read);
      Shown(Run(ThreadSelected(s, read), ops).view.conversations, read) == 0
      <==> !Restores(effects, Shown(s.buckets[id].data.conversations, read))
  {
    var selected := ThreadSelected(s, read);
    var stored := Shown(s.buckets[id].data.conversations, read);
    SelectShows(s, read, read);
    RunFollows(selected, ops, id, read, Counts(0, stored));
    ShownAfterRead(Effects(selected, ops, id, read), stored);
  }

  lemma {:induction false} RunSplit(s: Session, a: seq<Op>, b: seq<Op>)
    ensures Run(s, a + b) == Run(Run(s, a), b)
    decreases |a|
  {
    if a == [] {
      assert a + b == b;
    } else {
      assert (a + b)[1..] == a[1..] + b;
      RunSplit(Apply(s, a[0]), a[1..], b);
    }
  }

  lemma RunReads(s: Session, before: seq<Op>, read: string, after: seq<Op>)
    ensures Run(s, before + ([Select(read)] + after)) == Run(ThreadSelected(Run(s, before), read), after)
  {
    var at := Run(s, before);
    var ops := [Select(read)] + after;
    RunSplit(s, before, ops);
    assert ops[0] == Select(read) && ops[1..] == after;
    assert Run(at, ops) == Run(Apply(at, ops[0]), ops[1..]);
  }

  /** So the end `v` of any run is decided by what follows the last reading of the thread, at `t`,
      and by the bucket's count at that time. */
  lemma LastReadDecides(s: Session, before: seq<Op>, read: string, after: seq<Op>, id: string, t: Session, v: Session)
    requires Inv(s) && t == Run(s, before) && v == Run(s, before + ([Select(read)] + after))
    requires t.active == Some(id) && v.active == Some(id) && forall op :: op in after ==> Keeps(op, id)
    requires Reads !in Effects(ThreadSelected(t, read), after, id, read)
    ensures id in t.buckets
    ensures Shown(v.view.conversations, read) == 0
       <==> !Restores(Effects(ThreadSelected(t, read), after, id, read), Shown(t.buckets[id].data.conversations, read))
  {
    AccountSwitching.RunKeepsInv(s, before);
    RunReads(s, before, read, after);
    ReadMarkKeptIff(t, read, after, id);
  }

  // ---- One visit

  /** The operation shows the active bucket's conversations. */
  predicate BringsBack(op: Op) { op.Append? || op.React? || (op.Open? && op.threadId != "") }

  /** The operation leaves the account `id` active, without reloading it or reading the thread. */
  predicate Stays(op: Op, id: string, read: string) {
    match op
    case Adopt(_, activate) => !activate
    case Switch(other) => other == id
    case Logout(gone) => gone != id
    case Unlink => false
    case Hydrate(loaded, _, _) => loaded != id
    case Select(threadId) => threadId != read
    case _ => true
  }

  lemma StayingEffect(s: Session, op: Op, id: string, read: string)
    requires s.active == Some(id) && Stays(op, id, read)
    ensures Apply(s, op).active == Some(id)
    ensures EffectOf(s, op, id, read) == if BringsBack(op) then Mirrors else Leaves
  {
  }

  lemma {:induction false} StayingEffects(s: Session, ops: seq<Op>, id: string, read: string)
    requires s.active == Some(id) && forall op :: op in ops ==> Stays(op, id, read)
    ensures Run(s, ops).active == Some(id)
    ensures var effects := Effects(s, ops, id, read);
      && |effects| == |ops|
      && forall i :: 0 <= i < |ops| ==> effects[i] == if BringsBack(ops[i]) then Mirrors else Leaves
    decreases |ops|
  {
    if ops != [] {
      assert ops[0] in ops;
      StayingEffect(s, ops[0], id, read);
      StayingEffects(Apply(s, ops[0]), ops[1..], id, read);
    }
  }

  lemma {:induction false} NoReload(effects: seq<Effect>)
    requires forall i :: 0 <= i < |effects| ==> effects[i] == Mirrors || effects[i] == Leaves
    ensures LastReload(effects).None?
  {
    if effects != [] { NoReload(effects[1..]); }
  }

  /** While the account stays open and is not reloaded, a read thread stays read if and only if its
      bucket counted no unread message, or nothing was sent, no reaction given and no thread opened
      by id. */
  lemma OneVisitKeptIff(s: Session, read: string, ops: seq<Op>, id: string)
    requires Inv(s) && s.active == Some(id) && forall op :: op in ops ==> Stays(op, id, read)
    ensures Shown(Run(ThreadSelected(s, read), ops).view.conversations, read) == 0
       <==> Shown(s.buckets[id].data.conversations, read) == 0 || forall op :: op in ops ==> !BringsBack(op)
  {
    var effects := Effects(ThreadSelected(s, read), ops, id, read);
    StayingEffects(ThreadSelected(s, read), ops, id, read);
    NoReload(effects);
    ReadMarkKeptIff(s, read, ops, id);
    if ShownUnsaved(effects) {
      var i :| 0 <= i < |effects| && effects[i] == Mirrors;
      assert ops[i] in ops && BringsBack(ops[i]);
    }
    if op :| op in ops && BringsBack(op) {
      var i :| 0 <= i < |ops| && ops[i] == op;
      assert effects[i] == Mirrors && Saves !in effects[..i];
    }
  }

  // ---- Where view and bucket part

  /** Each single operation that shows the bucket brings its count back, whatever thread it is
      about and, for a message, whether it is fresh, a duplicate or an echo. */
  lemma ReadMarkIsLost(s: Session, read: string, op: Op)
    requires Inv(s) && s.active.Some? && BringsBack(op)
    ensures Shown(Apply(ThreadSelected(s, read), op).view.conversations, read)
         == Shown(s.buckets[s.active.value].data.conversations, read)
  {
    var id := s.active.value;
    SelectShows(s, read, read);
    OpFollows(ThreadSelected(s, read), op, id, read, Counts(0, Shown(s.buckets[id].data.conversations, read)));
  }

  const ROW := ChatView.Conversation("t", ChatView.User, "T", "hi", 1, 3, None)
  const DATA := ChatView.Slice([ROW], map[], [], false, [], false, None)
  const PROFILE := Profile("a", None, None)
  const ONE_UNREAD := Session(Some(PROFILE), DATA, [Tab("a", None, None, 0)], Some("a"), map["a" := Bucket(PROFILE, DATA)])
  const REPLY := ChatView.ChatMessage("m", "t", "hello", None, None, true, 2, "")

  /** Reading a thread with three unread messages and replying in it shows three unread again. */
  lemma ReplyLosesReadMark()
    ensures Inv(ONE_UNREAD)
    ensures var selected := ThreadSelected(ONE_UNREAD, "t");
      && Shown(selected.view.conversations, "t") == 0
      && Shown(Apply(selected, Append(REPLY, "hello")).view.conversations, "t") == 3
  {
    assert ONE_UNREAD.tabs[0].accountId == "a";
    SelectShows(ONE_UNREAD, "t", "t");
    ReadMarkIsLost(ONE_UNREAD, "t", Append(REPLY, "hello"));
  }
}
