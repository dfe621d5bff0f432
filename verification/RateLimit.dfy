/** The sliding-window limit on magic-link requests. The count and the insert of one request
    are separate statements, so other requests may run in between. */
module RateLimit {
  import opened Wrappers

  datatype Stored = Stored(email: string, created: int)

  datatype Error = RateLimited

  /** `SELECT count(*) … WHERE email = … AND created_at >= since` */
  function CountSince(links: seq<Stored>, email: string, since: int): nat {
    if links == [] then 0
    else CountSince(links[..|links| - 1], email, since)
         + (if links[|links| - 1].email == email && links[|links| - 1].created >= since then 1 else 0)
  }

  /** Links stored for `email` within the closed window from `lo` to `hi`. */
  function CountWithin(links: seq<Stored>, email: string, lo: int, hi: int): nat {
    if links == [] then 0
    else CountWithin(links[..|links| - 1], email, lo, hi)
         + (if links[|links| - 1].email == email && lo <= links[|links| - 1].created <= hi then 1 else 0)
  }

  /** Links stored for `email` within the window that begins at `x`. */
  function InWindow(c: Config, links: seq<Stored>, email: string, x: int): nat {
    CountWithin(links, email, x, x + c.window)
  }

  /** `magic_link_rate_limit` and `magic_link_rate_window`. */
  datatype Config = Config(limit: int, window: nat)

  /** `open` holds the requests between their count and their insert. */
  datatype World = World(now: int, links: seq<Stored>, open: map<nat, string>)

  datatype Step =
    | Tick(d: nat)
    | Count(id: nat, email: string, lag: nat)   // the window's start was computed `lag` earlier
    | Insert(id: nat)
    | Fail(id: nat)

  predicate Enabled(w: World, step: Step) {
    match step
    case Tick(_) => true
    case Count(id, _, _) => id !in w.open
    case Insert(id) => id in w.open
    case Fail(id) => id in w.open
  }

  function Apply(c: Config, w: World, step: Step): World
    requires Enabled(w, step)
  {
    match step
    case Tick(d) => w.(now := w.now + d)
    case Count(id, email, lag) =>
      if CountSince(w.links, email, w.now - lag - c.window) >= c.limit then w else w.(open := w.open[id := email])
    case Insert(id) => w.(links := w.links + [Stored(w.open[id], w.now)], open := w.open - {id})
    case Fail(id) => w.(open := w.open - {id})
  }

  const EMPTY := World(0, [], map[])

  function OpenFor(w: World, email: string): set<nat> { set id | id in w.open && w.open[id] == email }

  /** The most links a window may hold when at most `k` requests of an email are open at once. */
  function Bound(c: Config, k: nat): int { if c.limit >= 1 && k >= 1 then c.limit + k - 1 else 0 }

  /** A run that never has more than `k` requests of the email open; other emails are free. */
  predicate IsRun(c: Config, w: World, steps: seq<Step>, email: string, k: nat)
    decreases |steps|
  {
    |OpenFor(w, email)| <= k
    && (steps == [] || (Enabled(w, steps[0]) && IsRun(c, Apply(c, w, steps[0]), steps[1..], email, k)))
  }

  function After(c: Config, w: World, steps: seq<Step>, email: string, k: nat): World
    requires IsRun(c, w, steps, email, k)
    decreases |steps|
  {
    if steps == [] then w else After(c, Apply(c, w, steps[0]), steps[1..], email, k)
  }

  /** Links of the email still in the window ending now, together with those about to be stored. */
  ghost predicate Inv(c: Config, w: World, email: string, k: nat) {
    && (forall link :: link in w.links ==> link.created <= w.now)
    && CountSince(w.links, email, w.now - c.window) + |OpenFor(w, email)| <= Bound(c, k)
    && (forall x :: InWindow(c, w.links, email, x) <= Bound(c, k))
  }

  lemma {:induction false} CountSinceAntitone(links: seq<Stored>, email: string, a: int, b: int)
    requires a <= b
    ensures CountSince(links, email, b) <= CountSince(links, email, a)
  {
    if links != [] { CountSinceAntitone(links[..|links| - 1], email, a, b); }
  }

  lemma {:induction false} WithinIsSince(links: seq<Stored>, email: string, lo: int, hi: int)
    ensures CountWithin(links, email, lo, hi) <= CountSince(links, email, lo)
  {
    if links != [] { WithinIsSince(links[..|links| - 1], email, lo, hi); }
  }

  lemma CountsSnoc(links: seq<Stored>, link: Stored, email: string, lo: int, hi: int)
    ensures CountSince(links + [link], email, lo)
         == CountSince(links, email, lo) + (if link.email == email && link.created >= lo then 1 else 0)
    ensures CountWithin(links + [link], email, lo, hi)
         == CountWithin(links, email, lo, hi) + (if link.email == email && lo <= link.created <= hi then 1 else 0)
  {
    assert (links + [link])[..|links|] == links;
  }

  lemma TickKeepsInv(c: Config, w: World, d: nat, email: string, k: nat)
    requires Inv(c, w, email, k)
    ensures Inv(c, Apply(c, w, Tick(d)), email, k)
  {
    var v := Apply(c, w, Tick(d));
    CountSinceAntitone(w.links, email, w.now - c.window, v.now - c.window);
    assert OpenFor(v, email) == OpenFor(w, email);
  }

  lemma CountKeepsInv(c: Config, w: World, id: nat, counted: string, lag: nat, email: string, k: nat)
    requires Inv(c, w, email, k) && Enabled(w, Count(id, counted, lag))
    requires |OpenFor(Apply(c, w, Count(id, counted, lag)), email)| <= k
    ensures Inv(c, Apply(c, w, Count(id, counted, lag)), email, k)
  {
    var v := Apply(c, w, Count(id, counted, lag));
    if v != w && counted == email {
      CountSinceAntitone(w.links, email, w.now - lag - c.window, w.now - c.window);
      assert id in OpenFor(v, email);
    } else {
      assert OpenFor(v, email) == OpenFor(w, email);
    }
  }

  lemma CloseOpen(w: World, v: World, id: nat, email: string)
    requires id in w.open && v.open == w.open - {id}
    ensures |OpenFor(v, email)| == |OpenFor(w, email)| - (if w.open[id] == email then 1 else 0)
  {
    assert OpenFor(v, email) == OpenFor(w, email) - {id};
  }

  lemma InsertKeepsInv(c: Config, w: World, id: nat, email: string, k: nat)
    requires Inv(c, w, email, k) && Enabled(w, Insert(id))
    ensures Inv(c, Apply(c, w, Insert(id)), email, k)
  {
    var v := Apply(c, w, Insert(id));
    var link := Stored(w.open[id], w.now);
    CountsSnoc(w.links, link, email, w.now - c.window, w.now);
    CloseOpen(w, v, id, email);
    forall x ensures InWindow(c, v.links, email, x) <= Bound(c, k) {
      CountsSnoc(w.links, link, email, x, x + c.window);
      assert InWindow(c, w.links, email, x) <= Bound(c, k);
      if link.email == email && x <= w.now <= x + c.window {
        WithinIsSince(w.links, email, x, x + c.window);
        CountSinceAntitone(w.links, email, w.now - c.window, x);
        assert id in OpenFor(w, email);
      }
    }
  }

  lemma FailKeepsInv(c: Config, w: World, id: nat, email: string, k: nat)
    requires Inv(c, w, email, k) && Enabled(w, Fail(id))
    ensures Inv(c, Apply(c, w, Fail(id)), email, k)
  {
    CloseOpen(w, Apply(c, w, Fail(id)), id, email);
  }

  lemma {:induction false} RunKeepsInv(c: Config, w: World, steps: seq<Step>, email: string, k: nat)
    requires Inv(c, w, email, k) && IsRun(c, w, steps, email, k)
    ensures Inv(c, After(c, w, steps, email, k), email, k)
    decreases |steps|
  {
    if steps != [] {
      match steps[0] {
        case Tick(d) => TickKeepsInv(c, w, d, email, k);
        case Count(id, counted, lag) => CountKeepsInv(c, w, id, counted, lag, email, k);
        case Insert(id) => InsertKeepsInv(c, w, id, email, k);
        case Fail(id) => FailKeepsInv(c, w, id, email, k);
      }
      RunKeepsInv(c, Apply(c, w, steps[0]), steps[1..], email, k);
    }
  }

  /** Over runs of any length with at most `k` requests of the email open at once, whatever the
      other emails do, no closed window holds more than `limit + k - 1` links of it; handled one
      at a time, `limit`. */
  lemma WindowBound(c: Config, steps: seq<Step>, email: string, k: nat, x: int)
    requires IsRun(c, EMPTY, steps, email, k)
    ensures InWindow(c, After(c, EMPTY, steps, email, k).links, email, x) <= Bound(c, k)
    ensures k == 1 && c.limit >= 0 ==>
      InWindow(c, After(c, EMPTY, steps, email, k).links, email, x) <= c.limit
  {
    assert OpenFor(EMPTY, email) == {};
    RunKeepsInv(c, EMPTY, steps, email, k);
  }

  // ---- Who is let through

  /** The links of the email stored at or after a time. */
  function Recent(links: seq<Stored>, email: string, since: int): set<nat> {
    set i: nat | i < |links| && links[i].email == email && since <= links[i].created
  }

  /** The count is the number of such links. */
  lemma {:induction false} CountSinceIs(links: seq<Stored>, email: string, since: int)
    ensures CountSince(links, email, since) == |Recent(links, email, since)|
  {
    if links == [] {
      assert Recent(links, email, since) == {};
    } else {
      var n := |links| - 1;
      CountSinceIs(links[..n], email, since);
      var last := if links[n].email == email && since <= links[n].created then {n} else {};
      assert Recent(links, email, since) == Recent(links[..n], email, since) + last;
    }
  }

  /** A request is let through to store its link if and only if fewer links of its email than the
      limit were stored within the window before it. Counting stores nothing. */
  lemma LetThroughIff(c: Config, w: World, id: nat, email: string, lag: nat)
    requires id !in w.open
    ensures var v := Apply(c, w, Count(id, email, lag));
      && v.links == w.links && v.now == w.now
      && v.open == (if |Recent(w.links, email, w.now - lag - c.window)| < c.limit then w.open[id := email] else w.open)
  {
    CountSinceIs(w.links, email, w.now - lag - c.window);
  }

  /** Once all its links have left the window, an email is let through again. */
  lemma LetThroughAfterWindow(c: Config, w: World, id: nat, email: string)
    requires id !in w.open && c.limit >= 1
    requires forall link :: link in w.links && link.email == email ==> link.created + c.window < w.now
    ensures id in Apply(c, w, Count(id, email, 0)).open
  {
    LetThroughIff(c, w, id, email, 0);
    var recent := Recent(w.links, email, w.now - c.window);
    assert recent == {};
  }

  /** Inserting stores one link, stamped now, behind the others. */
  lemma InsertedExactly(c: Config, w: World, id: nat)
    requires id in w.open
    ensures var v := Apply(c, w, Insert(id));
      && |v.links| == |w.links| + 1 && v.links[..|w.links|] == w.links
      && v.links[|w.links|].email == w.open[id] && v.links[|w.links|].created == w.now
      && id !in v.open && v.now == w.now
  {
  }

  // ---- The bound is reached

  function Opened(email: string, m: nat): map<nat, string> {
    if m == 0 then map[] else Opened(email, m - 1)[m - 1 := email]
  }

  /** `n` links stored and the requests `0..m` open, all of one email, all at time 0. */
  function Burst(email: string, n: nat, m: nat): World {
    World(0, seq(n, _ => Stored(email, 0)), Opened(email, m))
  }

  lemma {:induction false} BurstCounts(email: string, n: nat, m: nat, since: int, hi: int)
    requires since <= 0 <= hi
    ensures CountSince(Burst(email, n, m).links, email, since) == n
    ensures CountWithin(Burst(email, n, m).links, email, since, hi) == n
    decreases n
  {
    if n > 0 {
      assert Burst(email, n, m).links == Burst(email, n - 1, m).links + [Stored(email, 0)];
      BurstCounts(email, n - 1, m, since, hi);
      CountsSnoc(Burst(email, n - 1, m).links, Stored(email, 0), email, since, hi);
    }
  }

  ghost predicate Reachable(c: Config, w: World, email: string, k: nat) {
    exists steps :: IsRun(c, EMPTY, steps, email, k) && After(c, EMPTY, steps, email, k) == w
  }

  lemma {:induction false} RunSnoc(c: Config, w: World, steps: seq<Step>, step: Step, email: string, k: nat)
    requires IsRun(c, w, steps, email, k) && Enabled(After(c, w, steps, email, k), step)
    requires |OpenFor(Apply(c, After(c, w, steps, email, k), step), email)| <= k
    ensures IsRun(c, w, steps + [step], email, k)
    ensures After(c, w, steps + [step], email, k) == Apply(c, After(c, w, steps, email, k), step)
    decreases |steps|
  {
    if steps == [] {
      assert [step][1..] == [] && [] + [step] == [step];
    } else {
      assert (steps + [step])[1..] == steps[1..] + [step];
      RunSnoc(c, Apply(c, w, steps[0]), steps[1..], step, email, k);
    }
  }

  lemma Reach(c: Config, w: World, step: Step, v: World, email: string, k: nat)
    requires Reachable(c, w, email, k) && Enabled(w, step) && Apply(c, w, step) == v && |OpenFor(v, email)| <= k
    ensures Reachable(c, v, email, k)
  {
    var steps :| IsRun(c, EMPTY, steps, email, k) && After(c, EMPTY, steps, email, k) == w;
    RunSnoc(c, EMPTY, steps, step, email, k);
  }

  lemma {:induction false} OpenedSize(email: string, m: nat)
    ensures |Opened(email, m).Keys| == m
    ensures forall id :: id in Opened(email, m) ==> id < m && Opened(email, m)[id] == email
    decreases m
  {
    if m > 0 {
      OpenedSize(email, m - 1);
      assert Opened(email, m).Keys == Opened(email, m - 1).Keys + {m - 1};
    }
  }

  lemma BurstOpen(email: string, n: nat, m: nat, k: nat)
    requires m <= k
    ensures |OpenFor(Burst(email, n, m), email)| <= k
  {
    OpenedSize(email, m);
    SubsetSize(OpenFor(Burst(email, n, m), email), Opened(email, m).Keys);
  }

  lemma SubsetSize<T>(a: set<T>, b: set<T>)
    requires a <= b
    ensures |a| <= |b|
  {
    assert b == a + (b - a);
  }

  /** Requests one after the other fill the window up to one below the limit. */
  lemma {:induction false} FillSerially(c: Config, email: string, n: nat, k: nat)
    requires n < c.limit && k >= 1
    ensures Reachable(c, Burst(email, n, 0), email, k)
    decreases n
  {
    BurstOpen(email, n, 0, k);
    if n == 0 {
      assert Burst(email, 0, 0) == EMPTY;
      assert IsRun(c, EMPTY, [], email, k) && After(c, EMPTY, [], email, k) == EMPTY;
    } else {
      FillSerially(c, email, n - 1, k);
      CountOne(c, email, n - 1, 0, k);
      InsertOne(c, email, n - 1, 0, k);
    }
  }

  lemma CountOne(c: Config, email: string, n: nat, m: nat, k: nat)
    requires n < c.limit && m < k && Reachable(c, Burst(email, n, m), email, k)
    ensures Reachable(c, Burst(email, n, m + 1), email, k)
  {
    BurstCounts(email, n, m, 0 - c.window, 0);
    BurstOpen(email, n, m + 1, k);
    OpenedSize(email, m);
    Reach(c, Burst(email, n, m), Count(m, email, 0), Burst(email, n, m + 1), email, k);
  }

  lemma InsertOne(c: Config, email: string, n: nat, m: nat, k: nat)
    requires m < k && Reachable(c, Burst(email, n, m + 1), email, k)
    ensures Reachable(c, Burst(email, n + 1, m), email, k)
  {
    BurstOpen(email, n + 1, m, k);
    OpenedSize(email, m);
    assert Opened(email, m)[m := email] - {m} == Opened(email, m);
    assert Burst(email, n, m + 1).links + [Stored(email, 0)] == Burst(email, n + 1, m).links;
    Reach(c, Burst(email, n, m + 1), Insert(m), Burst(email, n + 1, m), email, k);
  }

  lemma {:induction false} CountAll(c: Config, email: string, n: nat, m: nat, k: nat)
    requires n < c.limit && m <= k && Reachable(c, Burst(email, n, 0), email, k)
    ensures Reachable(c, Burst(email, n, m), email, k)
    decreases m
  {
    if m > 0 {
      CountAll(c, email, n, m - 1, k);
      CountOne(c, email, n, m - 1, k);
    }
  }

  lemma {:induction false} InsertAll(c: Config, email: string, n: nat, m: nat, k: nat)
    requires m <= k && Reachable(c, Burst(email, n, m), email, k)
    ensures Reachable(c, Burst(email, n + m, 0), email, k)
    decreases m
  {
    if m > 0 {
      InsertOne(c, email, n, m - 1, k);
      InsertAll(c, email, n + 1, m - 1, k);
    }
  }

  /** With `k` concurrent requests the bound is attained, so the limit itself holds exactly
      when requests of an email are handled one at a time. */
  lemma BoundIsTight(c: Config, email: string, k: nat)
    requires c.limit >= 1 && k >= 1
    ensures Reachable(c, Burst(email, c.limit + k - 1, 0), email, k)
    ensures InWindow(c, Burst(email, c.limit + k - 1, 0).links, email, 0) == Bound(c, k)
  {
    FillSerially(c, email, c.limit - 1, k);
    CountAll(c, email, c.limit - 1, k, k);
    InsertAll(c, email, c.limit - 1, k, k);
    BurstCounts(email, c.limit + k - 1, 0, 0, c.window);
  }

  // ---- The handler

  class MagicLinks {
    var links: seq<Stored>
    const config: Config

    constructor (config: Config)
      ensures links == [] && this.config == config
    {
      this.config := config;
      links := [];
    }

    /** `count_magic_links_since` */
    method CountMagicLinksSince(email: string, since: int) returns (n: nat)
      ensures n == |Recent(links, email, since)|
    {
      n := 0;
      for i := 0 to |links|
        invariant n == CountSince(links[..i], email, since)
      {
        assert links[..i + 1][..i] == links[..i];
        if links[i].email == email && links[i].created >= since {
          n := n + 1;
        }
      }
      assert links[..|links|] == links;
      CountSinceIs(links, email, since);
    }

    /** `request_magic_link`, handled alone: the steps `Count` and `Insert` at one time. */
    method RequestMagicLink(id: nat, email: string, now: int) returns (r: Result<(), Error>)
      modifies this
      ensures var counted := Apply(config, World(now, old(links), map[]), Count(id, email, 0));
        if id in counted.open
        then r.Ok? && links == Apply(config, counted, Insert(id)).links
        else r == Err(RateLimited) && links == old(links)
      ensures if |Recent(old(links), email, now - config.window)| < config.limit
              then r.Ok? && links == old(links) + [Stored(email, now)]
              else r == Err(RateLimited) && links == old(links)
    {
      CountSinceIs(links, email, now - config.window);
      var n := CountMagicLinksSince(email, now - config.window);
      if n >= config.limit {
        return Err(RateLimited);
      }
      links := links + [Stored(email, now)];
      return Ok(());
    }
  }
}
