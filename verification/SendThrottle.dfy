/** Per-account send pacing of the desktop session layer, as a scheduler: what slot
    the n-th reservation gets, and that no other first-come-first-served schedule
    gives an earlier one. Times and the interval are in one integer unit. */
module Throttle {
  import opened Wrappers

  type AccountId = string
  type Pacing = map<AccountId, int>

  function Max(a: int, b: int): int { if a >= b then a else b }

  /** The slot a reservation made at `now` receives under the pacing state `next`. */
  function SlotFor(next: Option<int>, now: int): int {
    if next.Some? then Max(next.value, now) else now
  }

  function Lookup(pacing: Pacing, account: AccountId): Option<int> {
    if account in pacing then Some(pacing[account]) else None
  }

  class SendThrottle {
    const interval: nat
    var nextAllowed: Pacing

    constructor (interval: nat)
      ensures this.interval == interval && nextAllowed == map[]
    {
      this.interval := interval;
      nextAllowed := map[];
    }

    /** `reserve`: hands out the wait until the slot and pushes the next slot back. */
    method Reserve(account: AccountId, now: int) returns (wait: nat)
      modifies this
      ensures now + wait == SlotFor(old(Lookup(nextAllowed, account)), now)
      ensures nextAllowed == Step(interval, old(nextAllowed), Op.Reserve(account, now))
      ensures nextAllowed == old(nextAllowed)[account := now + wait + interval]
    {
      var scheduled := if account in nextAllowed then Max(nextAllowed[account], now) else now;
      wait := scheduled - now;
      nextAllowed := nextAllowed[account := scheduled + interval];
    }

    /** `forget` */
    method Forget(account: AccountId)
      modifies this
      ensures nextAllowed == Step(interval, old(nextAllowed), Op.Forget(account))
      ensures nextAllowed == old(nextAllowed) - {account}
    {
      nextAllowed := nextAllowed - {account};
    }
  }

  // ---- Runs over any number of accounts

  datatype Op = Reserve(account: AccountId, now: int) | Forget(account: AccountId)

  /** The effect of one call on the pacing table, as `Reserve` and `Forget` promise it. */
  function Step(interval: nat, pacing: Pacing, op: Op): Pacing {
    match op
    case Reserve(a, now) => pacing[a := SlotFor(Lookup(pacing, a), now) + interval]
    case Forget(a) => pacing - {a}
  }

  /** The slots handed to `account` along a run, in order. */
  function Slots(interval: nat, pacing: Pacing, ops: seq<Op>, account: AccountId): seq<int>
    decreases |ops|
  {
    if ops == [] then []
    else
      var rest := Slots(interval, Step(interval, pacing, ops[0]), ops[1..], account);
      if ops[0].Reserve? && ops[0].account == account
      then [SlotFor(Lookup(pacing, account), ops[0].now)] + rest
      else rest
  }

  /** The calls of a run that name `account`. */
  function CallsFor(ops: seq<Op>, account: AccountId): seq<Op> {
    if ops == [] then []
    else if ops[0].account == account then [ops[0]] + CallsFor(ops[1..], account)
    else CallsFor(ops[1..], account)
  }

  /** Accounts are paced independently: only its own calls decide an account's slots. */
  lemma {:induction false} AccountsIndependent(interval: nat, p: Pacing, q: Pacing, ops: seq<Op>, account: AccountId)
    requires Lookup(p, account) == Lookup(q, account)
    ensures Slots(interval, p, ops, account) == Slots(interval, q, CallsFor(ops, account), account)
    decreases |ops|
  {
    if ops != [] {
      var own := CallsFor(ops, account);
      var p' := Step(interval, p, ops[0]);
      if ops[0].account == account {
        assert own[1..] == CallsFor(ops[1..], account);
        AccountsIndependent(interval, p', Step(interval, q, ops[0]), ops[1..], account);
      } else {
        AccountsIndependent(interval, p', q, ops[1..], account);
      }
    }
  }

  // ---- One account, requests at times `ts`, never forgotten

  function Requests(account: AccountId, ts: seq<int>): seq<Op> {
    seq(|ts|, i requires 0 <= i < |ts| => Reserve(account, ts[i]))
  }

  /** A schedule for requests at `ts`: nothing before its request, sends in request
      order and at least `interval` apart. */
  ghost predicate Feasible(interval: nat, ts: seq<int>, schedule: seq<int>) {
    && |schedule| == |ts|
    && (forall i :: 0 <= i < |ts| ==> ts[i] <= schedule[i])
    && (forall i :: 0 < i < |ts| ==> schedule[i - 1] + interval <= schedule[i])
  }

  lemma SlotsFirst(interval: nat, pacing: Pacing, account: AccountId, ts: seq<int>)
    requires ts != []
    ensures var slot := SlotFor(Lookup(pacing, account), ts[0]);
      Slots(interval, pacing, Requests(account, ts), account)
      == [slot] + Slots(interval, pacing[account := slot + interval], Requests(account, ts[1..]), account)
  {
    assert Requests(account, ts)[1..] == Requests(account, ts[1..]);
  }

  /** One account's slots are a schedule that begins no earlier than its pacing state. */
  lemma {:induction false} SlotsFeasible(interval: nat, pacing: Pacing, account: AccountId, ts: seq<int>)
    ensures var slots := Slots(interval, pacing, Requests(account, ts), account);
      Feasible(interval, ts, slots) && (account in pacing && ts != [] ==> pacing[account] <= slots[0])
    decreases |ts|
  {
    if ts != [] {
      var slot := SlotFor(Lookup(pacing, account), ts[0]);
      var later := pacing[account := slot + interval];
      SlotsFirst(interval, pacing, account, ts);
      SlotsFeasible(interval, later, account, ts[1..]);
      FeasibleFirst(interval, ts, slot, Slots(interval, later, Requests(account, ts[1..]), account));
    }
  }

  lemma FeasibleFirst(interval: nat, ts: seq<int>, slot: int, rest: seq<int>)
    requires ts != [] && ts[0] <= slot && Feasible(interval, ts[1..], rest)
    requires rest != [] ==> slot + interval <= rest[0]
    ensures Feasible(interval, ts, [slot] + rest)
  {
    var slots := [slot] + rest;
    forall i | 0 < i < |ts|
      ensures ts[i] <= slots[i] && slots[i - 1] + interval <= slots[i]
    {
      assert ts[1..][i - 1] <= rest[i - 1];
    }
  }

  /** Every slot is one of the candidates. */
  lemma {:induction false} SlotAttained(interval: nat, pacing: Pacing, account: AccountId, ts: seq<int>, n: nat)
    requires n < |ts|
    ensures var slots := Slots(interval, pacing, Requests(account, ts), account);
      |slots| == |ts| && Attained(interval, pacing, account, ts, n, slots[n])
    decreases |ts|
  {
    var slot := SlotFor(Lookup(pacing, account), ts[0]);
    var later := pacing[account := slot + interval];
    SlotsFirst(interval, pacing, account, ts);
    SlotsFeasible(interval, later, account, ts[1..]);
    var rest := Slots(interval, later, Requests(account, ts[1..]), account);
    if n == 0 {
      assert slot == ts[0] + (n - 0) * interval || (account in pacing && slot == pacing[account]);
    } else {
      SlotAttained(interval, later, account, ts[1..], n - 1);
      AttainedShift(interval, pacing, account, ts, n, rest[n - 1]);
    }
  }

  /** `slot` is one of the candidates for the n-th reservation: some earlier request, or the
      pacing state found at the start, pushed back by one interval per reservation since. */
  ghost predicate Attained(interval: nat, pacing: Pacing, account: AccountId, ts: seq<int>, n: nat, slot: int)
    requires n < |ts|
  {
    || (exists i :: 0 <= i <= n && slot == ts[i] + (n - i) * interval)
    || (account in pacing && slot == pacing[account] + n * interval)
  }

  lemma AttainedShift(interval: nat, pacing: Pacing, account: AccountId, ts: seq<int>, n: nat, slot: int)
    requires 0 < n < |ts|
    requires Attained(interval, pacing[account := SlotFor(Lookup(pacing, account), ts[0]) + interval],
                      account, ts[1..], n - 1, slot)
    ensures Attained(interval, pacing, account, ts, n, slot)
  {
    var first := SlotFor(Lookup(pacing, account), ts[0]);
    if i :| 0 <= i <= n - 1 && slot == ts[1..][i] + (n - 1 - i) * interval {
      assert slot == ts[i + 1] + (n - (i + 1)) * interval;
    } else {
      assert slot == first + interval + (n - 1) * interval == first + n * interval;
      if first == ts[0] { assert slot == ts[0] + (n - 0) * interval; }
    }
  }

  /** No request is served before `interval` has passed since each earlier one. */
  lemma {:induction false} FeasibleLowerBound(interval: nat, ts: seq<int>, schedule: seq<int>, i: nat, n: nat)
    requires Feasible(interval, ts, schedule) && i <= n < |ts|
    ensures ts[i] + (n - i) * interval <= schedule[n]
    decreases n - i
  {
    if i < n {
      FeasibleLowerBound(interval, ts, schedule, i, n - 1);
      assert (n - i) * interval == (n - 1 - i) * interval + interval;
    }
  }

  /** The n-th slot is the largest of `ts[i] + (n - i) * interval`. */
  lemma SlotClosedForm(interval: nat, account: AccountId, ts: seq<int>, n: nat)
    requires n < |ts|
    ensures var slots := Slots(interval, map[], Requests(account, ts), account);
      && |slots| == |ts|
      && (forall i :: 0 <= i <= n ==> ts[i] + (n - i) * interval <= slots[n])
      && (exists i :: 0 <= i <= n && slots[n] == ts[i] + (n - i) * interval)
  {
    var slots := Slots(interval, map[], Requests(account, ts), account);
    SlotsFeasible(interval, map[], account, ts);
    SlotAttained(interval, map[], account, ts, n);
    assert Attained(interval, map[], account, ts, n, slots[n]);
    forall i | 0 <= i <= n
      ensures ts[i] + (n - i) * interval <= slots[n]
    {
      FeasibleLowerBound(interval, ts, slots, i, n);
    }
  }

  /** The throttle's schedule is feasible whatever the request times, and every feasible
      schedule serves each request no earlier. */
  lemma ScheduleIsOptimal(interval: nat, account: AccountId, ts: seq<int>, other: seq<int>)
    ensures Feasible(interval, ts, Slots(interval, map[], Requests(account, ts), account))
    ensures Feasible(interval, ts, other) ==>
      forall n :: 0 <= n < |ts| ==> Slots(interval, map[], Requests(account, ts), account)[n] <= other[n]
  {
    SlotsFeasible(interval, map[], account, ts);
    var slots := Slots(interval, map[], Requests(account, ts), account);
    if Feasible(interval, ts, other) {
      forall n | 0 <= n < |ts|
        ensures slots[n] <= other[n]
      {
        SlotClosedForm(interval, account, ts, n);
        var i :| 0 <= i <= n && slots[n] == ts[i] + (n - i) * interval;
        FeasibleLowerBound(interval, ts, other, i, n);
      }
    }
  }

  // ---- Forgetting an account

  /** A forgotten account starts over: its next send need not wait. Other accounts keep their pace. */
  lemma ForgottenStartsOver(interval: nat, pacing: Pacing, account: AccountId, other: AccountId, now: int)
    ensures SlotFor(Lookup(Step(interval, pacing, Forget(account)), account), now) == now
    ensures other != account ==> Lookup(Step(interval, pacing, Forget(account)), other) == Lookup(pacing, other)
  {
  }

  /** Along a run naming one account, with `last` the latest slot already handed out: every
      reservation that finds no pacing state comes at least `interval` after that slot. */
  predicate ForgottenLongEnough(interval: nat, pacing: Pacing, last: Option<int>, ops: seq<Op>)
    decreases |ops|
  {
    ops == [] ||
    match ops[0]
    case Reserve(a, now) =>
      && (a !in pacing && last.Some? ==> last.value + interval <= now)
      && ForgottenLongEnough(interval, Step(interval, pacing, ops[0]), Some(SlotFor(Lookup(pacing, a), now)), ops[1..])
    case Forget(_) => ForgottenLongEnough(interval, Step(interval, pacing, ops[0]), last, ops[1..])
  }

  ghost predicate Spaced(interval: nat, last: Option<int>, slots: seq<int>) {
    && (last.Some? && slots != [] ==> last.value + interval <= slots[0])
    && (forall i :: 0 < i < |slots| ==> slots[i - 1] + interval <= slots[i])
  }

  /** `forget` is the only call that can break the spacing, and it does so exactly when the
      account is used again within `interval` of its last slot. */
  lemma {:induction false} SpacedIffForgottenLongEnough(
    interval: nat, pacing: Pacing, last: Option<int>, ops: seq<Op>, account: AccountId)
    requires forall i :: 0 <= i < |ops| ==> ops[i].account == account
    requires account in pacing ==> last.Some? && pacing[account] == last.value + interval
    ensures Spaced(interval, last, Slots(interval, pacing, ops, account))
       <==> ForgottenLongEnough(interval, pacing, last, ops)
    decreases |ops|
  {
    if ops != [] {
      var slots := Slots(interval, pacing, ops, account);
      var p' := Step(interval, pacing, ops[0]);
      if ops[0].Reserve? {
        var slot := SlotFor(Lookup(pacing, account), ops[0].now);
        SpacedIffForgottenLongEnough(interval, p', Some(slot), ops[1..], account);
        var rest := Slots(interval, p', ops[1..], account);
        assert slots == [slot] + rest;
        if Spaced(interval, last, slots) {
          forall i | 0 < i < |rest| ensures rest[i - 1] + interval <= rest[i] {
            assert slots[i] + interval <= slots[i + 1];
          }
          if rest != [] { assert slots[0] + interval <= slots[1]; }
        }
      } else {
        SpacedIffForgottenLongEnough(interval, p', last, ops[1..], account);
      }
    }
  }
}
