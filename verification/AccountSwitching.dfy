/** What holds along every run of account operations. */
module AccountSwitching {
  import opened Wrappers
  import opened Accounts
  import ChatView

  datatype Op =
    | Adopt(p: Profile, activate: bool)
    | Switch(id: string)
    | Logout(id: string)
    | Unlink
    | Hydrate(id: string, threads: map<string, seq<ChatView.ChatMessage>>, conversations: seq<ChatView.Conversation>)
    | LoadContacts(id: string, contacts: seq<ChatView.Entry>)
    | Append(message: ChatView.ChatMessage, snippet: string)
    | React(target: string, msgId: string, icon: string)
    | Open(threadId: string, title: Option<string>, now: int)
    | Select(thread: string)

  function Apply(s: Session, op: Op): Session {
    match op
    case Adopt(p, activate) => Adopted(s, p, activate)
    case Switch(id) => Switched(s, id)
    case Logout(id) => LoggedOut(s, id)
    case Unlink => SIGNED_OUT
    case Hydrate(id, threads, conversations) => Hydrated(s, id, threads, conversations)
    case LoadContacts(id, contacts) => ContactsLoaded(s, id, contacts)
    case Append(message, snippet) => AppendedToActive(s, message, snippet)
    case React(threadId, msgId, icon) => ReactedInActive(s, threadId, msgId, icon)
    case Open(threadId, title, now) => ThreadOpened(s, threadId, title, now)
    case Select(threadId) => ThreadSelected(s, threadId)
  }

  function Run(s: Session, ops: seq<Op>): Session
    decreases |ops|
  {
    if ops == [] then s else Run(Apply(s, ops[0]), ops[1..])
  }

  // ---- Invariants

  predicate DistinctTabs(tabs: seq<Tab>) {
    forall i, j :: 0 <= i < j < |tabs| ==> tabs[i].accountId != tabs[j].accountId
  }

  /** The rail lists exactly the accounts that have a bucket, each once. */
  ghost predicate RailMatches(tabs: seq<Tab>, ids: set<string>) {
    DistinctTabs(tabs) && forall id :: HasTab(tabs, id) <==> id in ids
  }

  /** The parts of the view that always equal the active bucket. Conversations and the open
      thread may run ahead of it, see `ThreadSelected`. */
  predicate Mirrors(view: Slice, d: Slice) {
    view.threads == d.threads && view.contacts == d.contacts && view.contactsLoaded == d.contactsLoaded
    && view.groups == d.groups && view.groupsLoaded == d.groupsLoaded
  }

  ghost predicate Inv(s: Session) {
    && RailMatches(s.tabs, s.buckets.Keys)
    && (s.profile.Some? <==> s.active.Some?)
    && (s.active.Some? ==> s.active.value in s.buckets && Mirrors(s.view, s.buckets[s.active.value].data))
  }

  lemma {:induction false} WithoutTabEffect(tabs: seq<Tab>, id: string, other: string)
    requires DistinctTabs(tabs)
    ensures DistinctTabs(WithoutTab(tabs, id))
    ensures HasTab(WithoutTab(tabs, id), other) <==> other != id && HasTab(tabs, other)
  {
    if tabs != [] {
      WithoutTabEffect(tabs[1..], id, other);
      HasTabCons(tabs[0], tabs[1..], other);
      assert tabs == [tabs[0]] + tabs[1..];
      var rest := WithoutTab(tabs[1..], id);
      HasTabCons(tabs[0], rest, other);
      WithoutTabEffect(tabs[1..], id, tabs[0].accountId);
      forall i | 0 <= i < |tabs[1..]| ensures tabs[1..][i].accountId != tabs[0].accountId {
        assert tabs[1..][i] == tabs[i + 1];
      }
      assert !HasTab(rest, tabs[0].accountId);
    }
  }

  lemma HasTabCons(tab: Tab, tabs: seq<Tab>, id: string)
    ensures HasTab([tab] + tabs, id) <==> tab.accountId == id || HasTab(tabs, id)
  {
    if HasTab(tabs, id) {
      var i :| 0 <= i < |tabs| && tabs[i].accountId == id;
      assert ([tab] + tabs)[i + 1].accountId == id;
    }
    if tab.accountId == id { assert ([tab] + tabs)[0].accountId == id; }
  }

  lemma UnreadKeepsRail(tabs: seq<Tab>, id: string, n: nat, ids: set<string>)
    requires RailMatches(tabs, ids)
    ensures RailMatches(UnreadSet(tabs, id, n), ids)
  {
    forall other ensures HasTab(UnreadSet(tabs, id, n), other) <==> HasTab(tabs, other) {
      if HasTab(tabs, other) {
        var i :| 0 <= i < |tabs| && tabs[i].accountId == other;
        assert UnreadSet(tabs, id, n)[i].accountId == other;
      }
    }
  }

  lemma ActivatedKeepsInv(s: Session, id: string)
    requires RailMatches(s.tabs, s.buckets.Keys)
    requires s.active.None? ==> id in s.buckets
    requires s.active.Some? ==> Inv(s)
    ensures Inv(Activated(s, id))
  {
    if id in s.buckets { UnreadKeepsRail(s.tabs, id, 0, s.buckets.Keys); }
  }

  lemma AdoptedKeepsInv(s: Session, p: Profile, activate: bool)
    requires Inv(s)
    ensures Inv(Adopted(s, p, activate))
  {
    var s' := Adopted(s, p, false);
    assert RailMatches(s'.tabs, s'.buckets.Keys) by {
      var id := p.accountId;
      if !HasTab(s.tabs, id) {
        forall other ensures HasTab(s'.tabs, other) <==> HasTab(s.tabs, other) || other == id {
          if HasTab(s.tabs, other) {
            var i :| 0 <= i < |s.tabs| && s.tabs[i].accountId == other;
            assert s'.tabs[i].accountId == other;
          }
          if other == id { assert s'.tabs[|s.tabs|].accountId == other; }
        }
      }
    }
    if activate { ActivatedKeepsInv(s', p.accountId); }
  }

  lemma LoggedOutKeepsInv(s: Session, id: string)
    requires Inv(s)
    ensures Inv(LoggedOut(s, id))
  {
    var left := s.(buckets := s.buckets - {id}, tabs := WithoutTab(s.tabs, id));
    forall other ensures HasTab(left.tabs, other) <==> other in left.buckets.Keys {
      WithoutTabEffect(s.tabs, id, other);
    }
    WithoutTabEffect(s.tabs, id, id);
    if s.active == Some(id) && left.tabs != [] {
      assert HasTab(left.tabs, left.tabs[0].accountId);
      ActivatedKeepsInv(left.(active := None), left.tabs[0].accountId);
    }
  }

  /** Neither the rail, the active account nor the set of buckets changes. */
  predicate SameRail(s: Session, v: Session) {
    v.tabs == s.tabs && v.buckets.Keys == s.buckets.Keys && v.active == s.active && v.profile == s.profile
  }

  lemma ThreadOpKeepsInv(s: Session, op: Op)
    requires Inv(s) && (op.Append? || op.React? || op.Open? || op.Select?)
    ensures Inv(Apply(s, op))
  {
    assert SameRail(s, Apply(s, op));
  }

  lemma LoadKeepsInv(s: Session, op: Op)
    requires Inv(s) && (op.Hydrate? || op.LoadContacts?)
    ensures Inv(Apply(s, op))
  {
    assert SameRail(s, Apply(s, op));
  }

  lemma ApplyKeepsInv(s: Session, op: Op)
    requires Inv(s)
    ensures Inv(Apply(s, op))
  {
    match op
    case Adopt(p, activate) => AdoptedKeepsInv(s, p, activate);
    case Switch(id) => if id in s.buckets { ActivatedKeepsInv(s, id); }
    case Logout(id) => LoggedOutKeepsInv(s, id);
    case Unlink => SignedOutInv();
    case Hydrate(_, _, _) => LoadKeepsInv(s, op);
    case LoadContacts(_, _) => LoadKeepsInv(s, op);
    case _ => ThreadOpKeepsInv(s, op);
  }

  /** After any run: rail ids are the bucket keys without repeats, a profile is shown exactly
      when an account is active, that account has a bucket, and the shown threads, contacts
      and groups are the bucket's. */
  lemma {:induction false} RunKeepsInv(s: Session, ops: seq<Op>)
    requires Inv(s)
    ensures Inv(Run(s, ops))
    decreases |ops|
  {
    if ops != [] {
      ApplyKeepsInv(s, ops[0]);
      RunKeepsInv(Apply(s, ops[0]), ops[1..]);
    }
  }

  lemma SignedOutInv()
    ensures Inv(SIGNED_OUT)
  {
  }

  // ---- Isolation and lossless switching

  /** Work for another account never changes what is shown. */
  lemma BackgroundLeavesView(s: Session, op: Op)
    requires op.Hydrate? || op.LoadContacts? || op.Logout? ==> s.active != Some(op.id)
    requires op.Adopt? ==> !op.activate
    requires op.Hydrate? || op.LoadContacts? || op.Logout? || op.Adopt?
    ensures var v := Apply(s, op);
      v.view == s.view && v.active == s.active && v.profile == s.profile
  {
  }

  /** The operation neither reloads nor removes the account `id`. */
  predicate Spares(op: Op, id: string) {
    match op
    case Hydrate(a, _, _) => a != id
    case LoadContacts(a, _) => a != id
    case Logout(a) => a != id
    case Unlink => false
    case _ => true
  }

  /** The account `id` is never active before the end of the run, and never reloaded or removed. */
  predicate Away(s: Session, ops: seq<Op>, id: string)
    decreases |ops|
  {
    s.active != Some(id) && (ops == [] || (Spares(ops[0], id) && Away(Apply(s, ops[0]), ops[1..], id)))
  }

  lemma BucketUntouched(s: Session, op: Op, id: string)
    requires s.active != Some(id) && id in s.buckets && Spares(op, id)
    ensures id in Apply(s, op).buckets && Apply(s, op).buckets[id].data == s.buckets[id].data
  {
  }

  lemma {:induction false} AwayKeepsBucket(s: Session, ops: seq<Op>, id: string)
    requires id in s.buckets && Away(s, ops, id)
    ensures id in Run(s, ops).buckets && Run(s, ops).buckets[id].data == s.buckets[id].data
    ensures Run(s, ops).active != Some(id)
    decreases |ops|
  {
    if ops != [] {
      BucketUntouched(s, ops[0], id);
      AwayKeepsBucket(Apply(s, ops[0]), ops[1..], id);
    }
  }

  /** Leaving an account, doing anything with the others and coming back restores its
      conversations, threads, contacts, groups and open thread exactly as they were shown. */
  lemma SwitchingIsLossless(s: Session, other: string, ops: seq<Op>)
    requires Inv(s) && s.active.Some? && other in s.buckets && other != s.active.value
    requires Away(Switched(s, other), ops, s.active.value)
    ensures var back := Switched(Run(Switched(s, other), ops), s.active.value);
      back.active == s.active && back.view == s.view
  {
    AwayKeepsBucket(Switched(s, other), ops, s.active.value);
  }
}
