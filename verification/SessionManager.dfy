/** Lifecycle of the per-account sessions: which listener is held, which were stopped. */
module Sessions {
  import opened Wrappers
  import opened Throttle

  /** A realtime listener socket; `stop` closes it. */
  class Listener {
    var stops: nat

    constructor ()
      ensures stops == 0
    {
      stops := 0;
    }

    method Stop()
      modifies this
      ensures stops == old(stops) + 1
    {
      stops := stops + 1;
    }
  }

  datatype ManagedSession<+H> = ManagedSession(handle: H, listener: Listener)

  datatype SessionError = NotFound(account: AccountId)

  class SessionManager<H> {
    var sessions: map<AccountId, ManagedSession<H>>
    const throttle: SendThrottle
    ghost var inserted: set<Listener>  // every listener ever handed over

    ghost function Held(): set<Listener>
      reads this
    {
      set a | a in sessions :: sessions[a].listener
    }

    ghost function Running(): set<Listener>
      reads this, inserted
    {
      set l | l in inserted && l.stops == 0
    }

    /** Conservation: a listener once inserted is held and was never stopped, or it was
        stopped exactly once and is no longer held; no two accounts share one. */
    ghost predicate Valid()
      reads this, inserted
    {
      && Held() <= inserted
      && (forall l :: l in inserted ==> l.stops == if l in Held() then 0 else 1)
      && (forall a, b :: a in sessions && b in sessions && a != b
            ==> sessions[a].listener != sessions[b].listener)
    }

    constructor (interval: nat)
      ensures Valid() && sessions == map[] && inserted == {}
      ensures fresh(throttle) && throttle.interval == interval
    {
      throttle := new SendThrottle(interval);
      sessions := map[];
      inserted := {};
    }

    /** `insert`: a session already there is a restart, and its listener is stopped first.
        Ownership of the listener passes in, so it was never inserted before. */
    method Insert(account: AccountId, handle: H, listener: Listener)
      requires Valid()
      requires listener !in inserted && listener.stops == 0
      modifies this, inserted
      ensures Valid()
      ensures sessions == old(sessions)[account := ManagedSession(handle, listener)]
      ensures inserted == old(inserted) + {listener}
      ensures throttle.nextAllowed == old(throttle.nextAllowed)
      ensures forall l :: l in old(inserted) ==>
        l.stops == old(l.stops) + if account in old(sessions) && l == old(sessions[account].listener) then 1 else 0
    {
      if account in sessions {
        var previous := sessions[account];
        sessions := sessions - {account};
        previous.listener.Stop();
      }
      sessions := sessions[account := ManagedSession(handle, listener)];
      inserted := inserted + {listener};
      assert sessions == old(sessions)[account := ManagedSession(handle, listener)];
      assert sessions[account].listener == listener;
      assert forall a :: a in sessions && a != account ==> sessions[a] == old(sessions)[a];
      forall l | l in inserted
        ensures l in Held() <==> l == listener || (l in old(Held()) && !(account in old(sessions) && l == old(sessions[account].listener)))
      {
        if l in old(Held()) {
          var a :| a in old(sessions) && old(sessions)[a].listener == l;
          if a != account { assert a in sessions && sessions[a].listener == l; }
        }
      }
    }

    /** `remove` */
    method Remove(account: AccountId) returns (removed: bool)
      requires Valid()
      modifies this, throttle, inserted
      ensures Valid()
      ensures removed == (account in old(sessions))
      ensures sessions == old(sessions) - {account}
      ensures inserted == old(inserted)
      ensures throttle.nextAllowed == if removed then old(throttle.nextAllowed) - {account} else old(throttle.nextAllowed)
      ensures forall l :: l in inserted ==>
        l.stops == old(l.stops) + if account in old(sessions) && l == old(sessions[account].listener) then 1 else 0
    {
      removed := account in sessions;
      if removed {
        var session := sessions[account];
        sessions := sessions - {account};
        session.listener.Stop();
        throttle.Forget(account);
        assert forall a :: a in sessions ==> a != account && sessions[a] == old(sessions)[a];
        forall l | l in inserted
          ensures l in Held() <==> l in old(Held()) && l != session.listener
        {
          if l in old(Held()) {
            var a :| a in old(sessions) && old(sessions)[a].listener == l;
            if a != account { assert a in sessions && sessions[a].listener == l; }
          }
        }
      }
    }

    /** `get`: the lookup of a send, under the lock of the sessions. */
    method Get(account: AccountId) returns (handle: Option<H>)
      ensures handle.Some? <==> account in sessions
      ensures handle.Some? ==> handle.value == sessions[account].handle
    {
      if account in sessions {
        return Some(sessions[account].handle);
      }
      return None;
    }

    /** The reservation of a send, under the lock of the throttle. The session found before may
        have been removed and forgotten by now; the slot is handed out all the same. */
    method ReserveSlot(account: AccountId, now: int) returns (wait: nat)
      requires Valid()
      modifies throttle
      ensures Valid()
      ensures now + wait == SlotFor(old(Lookup(throttle.nextAllowed, account)), now)
      ensures throttle.nextAllowed == Step(throttle.interval, old(throttle.nextAllowed), Reserve(account, now))
    {
      wait := throttle.Reserve(account, now);
    }

    /** `send_text_with_quote` and `send_sticker` up to the send itself, when nothing runs between
        the two locks: an account without a session is refused, any other waits for its slot. */
    method ReserveSend(account: AccountId, now: int) returns (r: Result<nat, SessionError>)
      requires Valid()
      modifies throttle
      ensures Valid()
      ensures r.Err? <==> account !in sessions
      ensures r.Err? ==> r.error == NotFound(account) && throttle.nextAllowed == old(throttle.nextAllowed)
      ensures r.Ok? ==>
        && now + r.value == SlotFor(old(Lookup(throttle.nextAllowed, account)), now)
        && throttle.nextAllowed == Step(throttle.interval, old(throttle.nextAllowed), Reserve(account, now))
    {
      var handle := Get(account);
      if handle.None? {
        return Err(NotFound(account));
      }
      var wait := ReserveSlot(account, now);
      return Ok(wait);
    }

    /** As many listeners run as there are sessions. */
    lemma RunningCount()
      requires Valid()
      ensures Running() == Held()
      ensures |Running()| == |sessions|
    {
      var holder := map a | a in sessions :: sessions[a].listener;
      InjectiveImageSize(holder);
      var image := Image(holder);
      forall l ensures l in Held() <==> l in image {
        if l in Held() {
          var a :| a in sessions && sessions[a].listener == l;
          assert a in holder && holder[a] == l;
        }
      }
      assert holder.Keys == sessions.Keys;
      assert Running() == Held() == image;
      assert |holder| == |holder.Keys| && |sessions| == |sessions.Keys|;
    }
  }

  function Image<K, V>(m: map<K, V>): set<V> { set a | a in m :: m[a] }

  lemma {:induction false} InjectiveImageSize<K, V>(m: map<K, V>)
    requires forall a, b :: a in m && b in m && a != b ==> m[a] != m[b]
    ensures |Image(m)| == |m|
    decreases |m|
  {
    var image := Image(m);
    if m == map[] {
      assert image == {};
    } else {
      var k :| k in m;
      var rest := m - {k};
      InjectiveImageSize(rest);
      var restImage := Image(rest);
      assert m[k] !in restImage;
      assert image == restImage + {m[k]} by {
        forall v | v in image ensures v in restImage + {m[k]} {
          var a :| a in m && m[a] == v;
          if a != k { assert a in rest && rest[a] == v; }
        }
      }
    }
  }
}
