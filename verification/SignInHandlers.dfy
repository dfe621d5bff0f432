/** The sign-in handlers as the server writes them, over the tables they update in place. Each
    does what its request does in the interleaved model when no other request runs meanwhile. */
module SignInHandlers {
  import opened Wrappers
  import opened Crypto
  import opened SignIn

  /** Statements a request has yet to execute, at most. */
  function Rank(r: Req): nat {
    match r
    case LinkIsValid(_, _, _) => 8
    case LinkUserByEmail(_, _, _) => 7
    case LinkUserSecrets(_, _, _, _) => 6
    case LinkConsumeInvalid(_, _) => 5
    case LinkConsumeKnown(_, _, _) => 5
    case LinkConsumeNew(_, _, _) => 5
    case CodeConsume(_) => 7
    case CodeByIdentity(_, _) => 6
    case CodeByEmail(_, _) => 5
    case SelectUser(_, _, _, _) => 4
    case InsertUser(_, _, _, _) => 3
    case UpsertIdentity(_, _, _, _) => 2
    case InsertDevice(_, _, _) => 1
    case Done(_) => 0
  }

  lemma StatementRank(env: Env, w: World, id: nat, r: Req, draw: Draw)
    requires !r.Done?
    ensures Rank(Statement(env, w, id, r, draw).next) < Rank(r)
  {
  }

  /** The request at `r` runs its remaining statements alone: the tables it leaves, the response. */
  ghost function Alone(env: Env, w: World, id: nat, r: Req, draw: Draw): (World, Response)
    decreases Rank(r)
  {
    if r.Done? then (w, r.response)
    else
      var o := Statement(env, w, id, r, draw);
      StatementRank(env, w, id, r, draw);
      Alone(env, Written(w, id, o.write), id, o.next, draw)
  }

  function Repeated(a: Action, n: nat): seq<Action> {
    if n == 0 then [] else [a] + Repeated(a, n - 1)
  }

  lemma StatementIgnoresReqs(env: Env, w: World, reqs: map<nat, Req>, id: nat, r: Req, draw: Draw)
    ensures Statement(env, w.(reqs := reqs), id, r, draw) == Statement(env, w, id, r, draw)
  {
  }

  lemma WrittenIgnoresReqs(w: World, reqs: map<nat, Req>, id: nat, e: Write)
    requires Allowed(w, e)
    ensures Allowed(w.(reqs := reqs), e)
    ensures Written(w.(reqs := reqs), id, e) == Written(w, id, e).(reqs := reqs)
  {
  }

  lemma AdvanceOnce(env: Env, w: World, id: nat, r: Req, draw: Draw)
    requires GoodDraw(draw)
    ensures var o := Statement(env, w, id, r, draw);
      Enabled(At(w, id, r), Advance(id, draw))
      && Apply(env, At(w, id, r), Advance(id, draw)) == At(Written(w, id, o.write), id, o.next)
  {
    var reqs := At(w, id, r).reqs;
    var o := Statement(env, w, id, r, draw);
    StatementIgnoresReqs(env, w, reqs, id, r, draw);
    WrittenIgnoresReqs(w, reqs, id, o.write);
    assert reqs[id := o.next] == w.reqs[id := o.next];
  }

  /** Running alone is one run of the interleaved model: the request advances until it is done. */
  lemma {:induction false} AloneIsRun(env: Env, w: World, id: nat, r: Req, draw: Draw, n: nat)
    requires GoodDraw(draw) && n >= Rank(r)
    ensures var actions := Repeated(Advance(id, draw), n);
      && IsRun(env, At(w, id, r), actions)
      && After(env, At(w, id, r), actions)
         == (var (v, response) := Alone(env, w, id, r, draw); At(v, id, Done(response)))
    decreases n
  {
    if n > 0 {
      var actions := Repeated(Advance(id, draw), n);
      assert actions[0] == Advance(id, draw) && actions[1..] == Repeated(Advance(id, draw), n - 1);
      AdvanceOnce(env, w, id, r, draw);
      var o := Statement(env, w, id, r, draw);
      if !r.Done? { StatementRank(env, w, id, r, draw); }
      AloneIsRun(env, Written(w, id, o.write), id, o.next, draw, n - 1);
    }
  }

  lemma AloneStep(env: Env, w: World, id: nat, r: Req, draw: Draw)
    requires !r.Done?
    ensures var o := Statement(env, w, id, r, draw);
      Alone(env, w, id, r, draw) == Alone(env, Written(w, id, o.write), id, o.next, draw)
  {
  }

  /** The link is looked at, then the user of its email. */
  lemma AloneLooksUp(env: Env, w: World, id: nat, email: string, hash: string, key: Option<string>, draw: Draw)
    ensures !LinkUsable(w, email, hash) ==> Alone(env, w, id, LinkIsValid(email, hash, key), draw) == (w, Refused(Unauthorized))
    ensures LinkUsable(w, email, hash) ==>
              Alone(env, w, id, LinkIsValid(email, hash, key), draw)
              == match UserByEmail(w.users, email)
                 case Some(u) =>
                   if key.Some? then Alone(env, w, id, LinkUserSecrets(email, hash, u, key.value), draw)
                   else (w, Refused(RecoveryKeyRequired))
                 case None => Alone(env, w, id, LinkConsumeNew(email, hash, draw), draw)
  {
    AloneStep(env, w, id, LinkIsValid(email, hash, key), draw);
    if LinkUsable(w, email, hash) {
      AloneStep(env, w, id, LinkUserByEmail(email, hash, key), draw);
    }
  }

  lemma AloneCompares(env: Env, w: World, id: nat, email: string, hash: string, user: nat, offered: string, draw: Draw)
    requires user in w.users && LinkUsable(w, email, hash)
    ensures Alone(env, w, id, LinkUserSecrets(email, hash, user, offered), draw)
         == var v := Written(w, id, MarkLink(hash));
            if env.verify(w.users[user].keys.recoveryHash, offered)
            then Alone(env, v, id, InsertDevice(Link(hash), user, None), draw)
            else (v, Refused(RecoveryKeyInvalid))
  {
    AloneStep(env, w, id, LinkUserSecrets(email, hash, user, offered), draw);
    if env.verify(w.users[user].keys.recoveryHash, offered) {
      AloneStep(env, w, id, LinkConsumeKnown(email, hash, user), draw);
    } else {
      AloneStep(env, w, id, LinkConsumeInvalid(email, hash), draw);
    }
  }

  lemma AloneConsumesNew(env: Env, w: World, id: nat, email: string, hash: string, drawn: Draw, draw: Draw)
    requires LinkUsable(w, email, hash)
    ensures Alone(env, w, id, LinkConsumeNew(email, hash, drawn), draw)
         == Alone(env, Written(w, id, MarkLink(hash)), id, SelectUser(Link(hash), email, drawn, None), draw)
  {
    AloneStep(env, w, id, LinkConsumeNew(email, hash, drawn), draw);
  }

  /** `get_or_create_user` is the statements `SelectUser` and `InsertUser`. */
  lemma AloneGetsOrCreates(env: Env, w: World, id: nat, source: Source, email: string, drawn: Draw, claimed: Option<Claim>, draw: Draw)
    ensures Alone(env, w, id, SelectUser(source, email, drawn, claimed), draw)
         == match UserByEmail(w.users, email)
            case Some(u) => Alone(env, w, id, WithUser(source, u, None, claimed), draw)
            case None =>
              var v := Written(w, id, NewUser(UserRow(email, StoredKeys(env.c, env.seed, drawn), id)));
              Alone(env, v, id, WithUser(source, w.nextUser, Some(drawn.recoveryKey), claimed), draw)
  {
    AloneStep(env, w, id, SelectUser(source, email, drawn, claimed), draw);
    if UserByEmail(w.users, email).None? {
      AloneStep(env, w, id, InsertUser(source, email, drawn, claimed), draw);
    }
  }

  lemma AloneFinishes(env: Env, w: World, id: nat, source: Source, user: nat, issued: Option<string>, draw: Draw)
    ensures Alone(env, w, id, InsertDevice(source, user, issued), draw)
         == (Written(w, id, NewDevice(DeviceRow(user, source, id))), Granted(user, w.nextDevice, issued))
  {
  }

  /** Where `oauth_device_user_id` leaves the tables, with the user and the key it issues. */
  ghost function UserFor(env: Env, w: World, id: nat, claim: Claim, draw: Draw): (World, nat, Option<string>) {
    var found := if claim.userId.Some? then claim.userId
                 else if claim.identity in w.identities then Some(w.identities[claim.identity])
                 else UserByEmail(w.users, claim.email);
    match found
    case Some(user) => (w, user, None)
    case None => (Written(w, id, NewUser(UserRow(claim.email, StoredKeys(env.c, env.seed, draw), id))), w.nextUser, Some(draw.recoveryKey))
  }

  /** A consumed code of a verified email finds or creates its user, then records the identity. */
  lemma AloneFindsUser(env: Env, w: World, id: nat, hash: string, claim: Claim, draw: Draw)
    requires claim.userId.None?
    ensures var (v, user, issued) := UserFor(env, w, id, claim, draw);
      Alone(env, w, id, CodeByIdentity(hash, claim), draw) == Alone(env, v, id, UpsertIdentity(hash, claim, user, issued), draw)
  {
    AloneStep(env, w, id, CodeByIdentity(hash, claim), draw);
    if claim.identity !in w.identities {
      AloneStep(env, w, id, CodeByEmail(hash, claim), draw);
      AloneGetsOrCreates(env, w, id, Code(hash), claim.email, draw, Some(claim), draw);
    }
  }

  lemma AloneRecordsIdentity(env: Env, w: World, id: nat, hash: string, claim: Claim, user: nat, issued: Option<string>, draw: Draw)
    ensures Alone(env, w, id, UpsertIdentity(hash, claim, user, issued), draw)
         == var v := Written(w, id, SetIdentity(claim.identity, user));
            if claim.nameValid
            then (Written(v, id, NewDevice(DeviceRow(user, Code(hash), id))), Granted(user, v.nextDevice, issued))
            else (v, Refused(BadRequest))
  {
    AloneStep(env, w, id, UpsertIdentity(hash, claim, user, issued), draw);
    AloneFinishes(env, Written(w, id, SetIdentity(claim.identity, user)), id, Code(hash), user, issued, draw);
  }

  lemma AloneConsumesCode(env: Env, w: World, id: nat, hash: string, draw: Draw)
    ensures !CodeUsable(w, hash) ==> Alone(env, w, id, CodeConsume(hash), draw) == (w, Refused(Unauthorized))
    ensures CodeUsable(w, hash) && !w.codes[hash].claim.emailVerified ==>
              Alone(env, w, id, CodeConsume(hash), draw) == (Written(w, id, MarkCode(hash)), Refused(Forbidden))
    ensures CodeUsable(w, hash) && w.codes[hash].claim.emailVerified ==>
              var claim := w.codes[hash].claim;
              var (v, user, issued) := UserFor(env, Written(w, id, MarkCode(hash)), id, claim, draw);
              Alone(env, w, id, CodeConsume(hash), draw) == Alone(env, v, id, UpsertIdentity(hash, claim, user, issued), draw)
  {
    AloneStep(env, w, id, CodeConsume(hash), draw);
    if CodeUsable(w, hash) && w.codes[hash].claim.userId.None? {
      AloneFindsUser(env, Written(w, id, MarkCode(hash)), id, hash, w.codes[hash].claim, draw);
    }
  }

  // ---- The handlers, said once over the tables

  ghost predicate KnowsEmail(users: map<nat, UserRow>, email: string) { exists u: nat :: HasEmail(users, u, email) }

  /** The row of a used link, and of a used code. */
  function UsedLink(row: LinkRow, now: int, id: nat): LinkRow { LinkRow(row.email, row.expires, Some(Use(now, id))) }

  function UsedCode(row: CodeRow, now: int, id: nat): CodeRow { CodeRow(row.claim, row.expires, Some(Use(now, id))) }

  /** A new email: the link used, a user and a device stored, the recovery key returned. */
  predicate SignsUp(env: Env, w: World, id: nat, email: string, hash: string, draw: Draw, v: World, r: Response)
    requires hash in w.links
  {
    && r == Granted(w.nextUser, w.nextDevice, Some(draw.recoveryKey))
    && v == w.(links := w.links[hash := UsedLink(w.links[hash], w.now, id)],
               users := w.users[w.nextUser := UserRow(email, StoredKeys(env.c, env.seed, draw), id)], nextUser := w.nextUser + 1,
               devices := w.devices[w.nextDevice := DeviceRow(w.nextUser, Link(hash), id)], nextDevice := w.nextDevice + 1)
  }

  /** A known email with a recovery key: the link used, and a device stored if the key is right. */
  predicate SignsIn(env: Env, w: World, id: nat, hash: string, user: nat, key: string, v: World, r: Response)
    requires hash in w.links && user in w.users
  {
    if env.verify(w.users[user].keys.recoveryHash, key) then
      && r == Granted(user, w.nextDevice, None)
      && v == w.(links := w.links[hash := UsedLink(w.links[hash], w.now, id)],
                 devices := w.devices[w.nextDevice := DeviceRow(user, Link(hash), id)], nextDevice := w.nextDevice + 1)
    else
      r == Refused(RecoveryKeyInvalid) && v == w.(links := w.links[hash := UsedLink(w.links[hash], w.now, id)])
  }

  /** What one `verify_magic_link` makes of the tables `w`, and its response: refused without a
      trace for a link that is not this email's, used or expired, and for a known email without a
      recovery key. */
  ghost predicate LinkVerified(env: Env, w: World, id: nat, email: string, hash: string, key: Option<string>, draw: Draw,
                               v: World, r: Response) {
    if !(hash in w.links && w.links[hash].email == email && w.links[hash].used == None && w.now < w.links[hash].expires) then
      v == w && r == Refused(Unauthorized)
    else if !KnowsEmail(w.users, email) then SignsUp(env, w, id, email, hash, draw, v, r)
    else if key == None then v == w && r == Refused(RecoveryKeyRequired)
    else exists u: nat :: HasEmail(w.users, u, email) && SignsIn(env, w, id, hash, u, key.value, v, r)
  }

  lemma AloneSignsUp(env: Env, w: World, id: nat, email: string, hash: string, key: Option<string>, draw: Draw)
    requires LinkUsable(w, email, hash) && UserByEmail(w.users, email).None?
    ensures var (v, r) := Alone(env, w, id, LinkIsValid(email, hash, key), draw); SignsUp(env, w, id, email, hash, draw, v, r)
  {
    FirstSignInAlone(env, w, id, email, hash, key, draw);
  }

  lemma AloneSignsIn(env: Env, w: World, id: nat, email: string, hash: string, user: nat, key: string, draw: Draw)
    requires LinkUsable(w, email, hash) && user in w.users
    ensures var (v, r) := Alone(env, w, id, LinkUserSecrets(email, hash, user, key), draw);
      SignsIn(env, w, id, hash, user, key, v, r)
  {
    AloneCompares(env, w, id, email, hash, user, key, draw);
    AloneFinishes(env, Written(w, id, MarkLink(hash)), id, Link(hash), user, None, draw);
  }

  lemma AloneVerifiesLink(env: Env, w: World, id: nat, email: string, hash: string, key: Option<string>, draw: Draw)
    ensures var (v, r) := Alone(env, w, id, LinkIsValid(email, hash, key), draw);
      LinkVerified(env, w, id, email, hash, key, draw, v, r)
  {
    AloneLooksUp(env, w, id, email, hash, key, draw);
    if LinkUsable(w, email, hash) {
      match UserByEmail(w.users, email)
      case None => AloneSignsUp(env, w, id, email, hash, key, draw);
      case Some(u) => if key.Some? { AloneSignsIn(env, w, id, email, hash, u, key.value, draw); }
    }
  }

  /** Emails are unique, so there is only one outcome: that of the request's statements run alone. */
  lemma LinkVerifiedIffAlone(env: Env, w: World, id: nat, email: string, hash: string, key: Option<string>, draw: Draw,
                             v: World, r: Response)
    requires UsersOk(w)
    ensures LinkVerified(env, w, id, email, hash, key, draw, v, r)
       <==> (v, r) == Alone(env, w, id, LinkIsValid(email, hash, key), draw)
  {
    AloneVerifiesLink(env, w, id, email, hash, key, draw);
    var (v', r') := Alone(env, w, id, LinkIsValid(email, hash, key), draw);
    if LinkVerified(env, w, id, email, hash, key, draw, v, r) {
      OneLinkOutcome(env, w, id, email, hash, key, draw, v, r, v', r');
    }
  }

  lemma OneLinkOutcome(env: Env, w: World, id: nat, email: string, hash: string, key: Option<string>, draw: Draw,
                       v: World, r: Response, v': World, r': Response)
    requires UsersOk(w)
    requires LinkVerified(env, w, id, email, hash, key, draw, v, r) && LinkVerified(env, w, id, email, hash, key, draw, v', r')
    ensures v == v' && r == r'
  {
  }

  /** The user a redeemed code signs in, if the tables know one: named by the code, else linked to
      its identity, else of its email. */
  ghost predicate IsUserOf(w: World, claim: Claim, user: nat) {
    if claim.userId.Some? then user == claim.userId.value
    else if claim.identity in w.identities then user == w.identities[claim.identity]
    else HasEmail(w.users, user, claim.email)
  }

  ghost predicate KnowsUserOf(w: World, claim: Claim) {
    claim.userId.Some? || claim.identity in w.identities || KnowsEmail(w.users, claim.email)
  }

  /** The rest of redeeming a code: its identity leads to the user, and a device is stored when the
      device name is valid. */
  predicate Redeems(w: World, id: nat, hash: string, claim: Claim, user: nat, issued: Option<string>, v: World, r: Response) {
    if claim.nameValid then
      && r == Granted(user, w.nextDevice, issued)
      && v == w.(identities := w.identities[claim.identity := user],
                 devices := w.devices[w.nextDevice := DeviceRow(user, Code(hash), id)], nextDevice := w.nextDevice + 1)
    else
      v == w.(identities := w.identities[claim.identity := user]) && r == Refused(BadRequest)
  }

  /** What one `verify_oauth_desktop_code` makes of the tables: the code is used up whatever follows,
      and for a verified email its user is found or created. */
  ghost predicate CodeVerified(env: Env, w: World, id: nat, hash: string, draw: Draw, v: World, r: Response) {
    if !(hash in w.codes && w.codes[hash].used == None && w.now < w.codes[hash].expires) then
      v == w && r == Refused(Unauthorized)
    else
      var claim := w.codes[hash].claim;
      var x := w.(codes := w.codes[hash := UsedCode(w.codes[hash], w.now, id)]);
      if !claim.emailVerified then v == x && r == Refused(Forbidden)
      else if KnowsUserOf(w, claim) then
        exists u: nat :: IsUserOf(w, claim, u) && Redeems(x, id, hash, claim, u, None, v, r)
      else
        Redeems(x.(users := w.users[w.nextUser := UserRow(claim.email, StoredKeys(env.c, env.seed, draw), id)],
                   nextUser := w.nextUser + 1),
                id, hash, claim, w.nextUser, Some(draw.recoveryKey), v, r)
  }

  lemma UserForFinds(env: Env, w: World, id: nat, hash: string, draw: Draw)
    requires CodeUsable(w, hash)
    ensures var x := Written(w, id, MarkCode(hash));
      var claim := w.codes[hash].claim;
      var (v, user, issued) := UserFor(env, x, id, claim, draw);
      if KnowsUserOf(w, claim) then IsUserOf(w, claim, user) && v == x && issued == None
      else
        && user == w.nextUser && issued == Some(draw.recoveryKey)
        && v == x.(users := w.users[w.nextUser := UserRow(claim.email, StoredKeys(env.c, env.seed, draw), id)],
                   nextUser := w.nextUser + 1)
  {
  }

  lemma AloneRedeems(env: Env, w: World, id: nat, hash: string, claim: Claim, user: nat, issued: Option<string>, draw: Draw)
    ensures var (v, r) := Alone(env, w, id, UpsertIdentity(hash, claim, user, issued), draw);
      Redeems(w, id, hash, claim, user, issued, v, r)
  {
    AloneRecordsIdentity(env, w, id, hash, claim, user, issued, draw);
  }

  lemma AloneVerifiesCode(env: Env, w: World, id: nat, hash: string, draw: Draw)
    ensures var (v, r) := Alone(env, w, id, CodeConsume(hash), draw); CodeVerified(env, w, id, hash, draw, v, r)
  {
    AloneConsumesCode(env, w, id, hash, draw);
    if CodeUsable(w, hash) && w.codes[hash].claim.emailVerified {
      var claim := w.codes[hash].claim;
      var (x, user, issued) := UserFor(env, Written(w, id, MarkCode(hash)), id, claim, draw);
      UserForFinds(env, w, id, hash, draw);
      AloneRedeems(env, x, id, hash, claim, user, issued, draw);
    }
  }

  lemma OneCodeOutcome(env: Env, w: World, id: nat, hash: string, draw: Draw, v: World, r: Response, v': World, r': Response)
    requires UsersOk(w)
    requires CodeVerified(env, w, id, hash, draw, v, r) && CodeVerified(env, w, id, hash, draw, v', r')
    ensures v == v' && r == r'
  {
  }

  lemma CodeVerifiedIffAlone(env: Env, w: World, id: nat, hash: string, draw: Draw, v: World, r: Response)
    requires UsersOk(w)
    ensures CodeVerified(env, w, id, hash, draw, v, r) <==> (v, r) == Alone(env, w, id, CodeConsume(hash), draw)
  {
    AloneVerifiesCode(env, w, id, hash, draw);
    var (v', r') := Alone(env, w, id, CodeConsume(hash), draw);
    if CodeVerified(env, w, id, hash, draw, v, r) { OneCodeOutcome(env, w, id, hash, draw, v, r, v', r'); }
  }

  /** A granted sign-in adds exactly the one device it names, which was not there before; a
      refused one adds none. */
  lemma OneDeviceGained(env: Env, w: World, id: nat, r: Req, draw: Draw)
    requires r.LinkIsValid? || r.CodeConsume?
    requires forall d :: d in w.devices ==> d < w.nextDevice
    ensures var (v, response) := Alone(env, w, id, r, draw);
      if response.Granted? then
        && response.device !in w.devices
        && v.devices == w.devices[response.device := DeviceRow(response.user, if r.LinkIsValid? then Link(r.hash) else Code(r.hash), id)]
      else v.devices == w.devices
  {
    if r.LinkIsValid? { AloneVerifiesLink(env, w, id, r.email, r.hash, r.key, draw); } else { AloneVerifiesCode(env, w, id, r.hash, draw); }
  }

  class ServerDb {
    var now: int
    var links: map<string, LinkRow>
    var codes: map<string, CodeRow>
    var users: map<nat, UserRow>
    var identities: map<(string, string), nat>
    var devices: map<nat, DeviceRow>
    var nextUser: nat
    var nextDevice: nat

    function Tables(): World
      reads this
    {
      World(now, links, codes, users, identities, devices, map[], nextUser, nextDevice, 0)
    }

    /** Emails are unique and ids are handed out upwards. */
    predicate Valid()
      reads this
    {
      UsersOk(Tables()) && forall d :: d in devices ==> d < nextDevice
    }

    constructor ()
      ensures Valid() && Tables() == EMPTY
    {
      now, nextUser, nextDevice := 0, 0, 0;
      links, codes, users, identities, devices := map[], map[], map[], map[], map[];
    }

    /** `magic_link_is_valid` */
    method MagicLinkIsValid(email: string, hash: string) returns (valid: bool)
      ensures valid <==> hash in links && links[hash].email == email && links[hash].used == None && now < links[hash].expires
    {
      valid := hash in links && links[hash].email == email && links[hash].used.None? && links[hash].expires > now;
    }

    /** `user_id_by_email` */
    method UserIdByEmail(email: string) returns (user: Option<nat>)
      requires Valid()
      ensures user == UserByEmail(users, email)
      ensures if user.Some? then HasEmail(users, user.value, email) else forall u :: u in users ==> users[u].email != email
    {
      if u :| u in users && users[u].email == email {
        assert HasEmail(users, u, email);
        return Some(u);
      }
      assert forall u: nat :: !HasEmail(users, u, email);
      return None;
    }

    /** `user_secrets` */
    method UserSecrets(user: nat) returns (r: Result<Keys, Error>)
      ensures r == if user in users then Ok(users[user].keys) else Err(NotFound)
    {
      return if user in users then Ok(users[user].keys) else Err(NotFound);
    }

    /** `consume_magic_link` by the request `id` */
    method ConsumeMagicLink(email: string, hash: string, id: nat) returns (r: Result<(), Error>)
      requires Valid()
      modifies this`links
      ensures Valid()
      ensures if hash in old(links) && old(links)[hash].email == email && old(links)[hash].used == None && now < old(links)[hash].expires
              then r.Ok? && links == old(links)[hash := LinkRow(email, old(links)[hash].expires, Some(Use(now, id)))]
              else r == Err(Unauthorized) && links == old(links)
    {
      if hash in links && links[hash].email == email && links[hash].used.None? && links[hash].expires > now {
        links := links[hash := links[hash].(used := Some(Use(now, id)))];
        return Ok(());
      }
      return Err(Unauthorized);
    }

    /** `consume_oauth_desktop_code` by the request `id` */
    method ConsumeOAuthDesktopCode(hash: string, id: nat) returns (r: Result<Claim, Error>)
      requires Valid()
      modifies this`codes
      ensures Valid()
      ensures if hash in old(codes) && old(codes)[hash].used == None && now < old(codes)[hash].expires
              then var claim := old(codes)[hash].claim;
                   r == Ok(claim) && codes == old(codes)[hash := CodeRow(claim, old(codes)[hash].expires, Some(Use(now, id)))]
              else r == Err(Unauthorized) && codes == old(codes)
    {
      if hash in codes && codes[hash].used.None? && codes[hash].expires > now {
        codes := codes[hash := codes[hash].(used := Some(Use(now, id)))];
        return Ok(codes[hash].claim);
      }
      return Err(Unauthorized);
    }

    /** `user_id_by_oauth_identity` */
    method UserIdByOAuthIdentity(identity: (string, string)) returns (user: Option<nat>)
      ensures user.Some? <==> identity in identities
      ensures user.Some? ==> user.value == identities[identity]
    {
      return if identity in identities then Some(identities[identity]) else None;
    }

    /** `upsert_oauth_identity` */
    method UpsertOAuthIdentity(identity: (string, string), user: nat)
      requires Valid()
      modifies this`identities
      ensures Valid()
      ensures identities == old(identities)[identity := user]
    {
      identities := identities[identity := user];
    }

    /** `get_or_create_user` by the request `id`: the user of that email, and whether it is new. */
    method GetOrCreateUser(email: string, keys: Keys, id: nat) returns (user: nat, created: bool)
      requires Valid()
      modifies this`users, this`nextUser
      ensures Valid()
      ensures created <==> forall u :: u in old(users) ==> old(users)[u].email != email
      ensures HasEmail(users, user, email)
      ensures if created then user == old(nextUser) && user !in old(users)
                              && users == old(users)[user := UserRow(email, keys, id)] && nextUser == old(nextUser) + 1
              else Some(user) == UserByEmail(old(users), email) && users == old(users) && nextUser == old(nextUser)
    {
      var found := UserIdByEmail(email);
      if found.Some? {
        return found.value, false;
      }
      user, created := nextUser, true;
      users := users[nextUser := UserRow(email, keys, id)];
      nextUser := nextUser + 1;
    }

    /** `insert_device` by the request `id` */
    method InsertDevice(user: nat, source: Source, id: nat) returns (device: nat)
      requires Valid()
      modifies this`devices, this`nextDevice
      ensures Valid()
      ensures device !in old(devices) && device == old(nextDevice) && nextDevice == device + 1
      ensures devices == old(devices)[device := DeviceRow(user, source, id)]
    {
      device := nextDevice;
      devices := devices[nextDevice := DeviceRow(user, source, id)];
      nextDevice := nextDevice + 1;
    }

    /** `verify_magic_link` for a request `id`, its random draws in `draw`. */
    method VerifyMagicLink(env: Env, id: nat, email: string, hash: string, key: Option<string>, draw: Draw)
        returns (r: Response)
      requires Valid()
      modifies this
      ensures Valid()
      ensures LinkVerified(env, old(Tables()), id, email, hash, key, draw, Tables(), r)
    {
      var valid := MagicLinkIsValid(email, hash);
      if !valid {
        return Refused(Unauthorized);
      }
      var user, issued;
      var known := UserIdByEmail(email);
      if known.Some? {
        if key.None? {
          return Refused(RecoveryKeyRequired);
        }
        var secrets := UserSecrets(known.value);
        if secrets.Err? {
          return Refused(NotFound);
        }
        if !env.verify(secrets.value.recoveryHash, key.value) {
          var _ := ConsumeMagicLink(email, hash, id);
          return Refused(RecoveryKeyInvalid);
        }
        user, issued := known.value, None;
        var consumed := ConsumeMagicLink(email, hash, id);
        if consumed.Err? {
          return Refused(Unauthorized);
        }
      } else {
        var consumed := ConsumeMagicLink(email, hash, id);
        if consumed.Err? {
          return Refused(Unauthorized);
        }
        var created;
        user, created := GetOrCreateUser(email, StoredKeys(env.c, env.seed, draw), id);
        issued := if created then Some(draw.recoveryKey) else None;
      }
      var device := InsertDevice(user, Link(hash), id);
      return Granted(user, device, issued);
    }

    /** `oauth_device_user_id` */
    method OAuthDeviceUserId(env: Env, id: nat, claim: Claim, draw: Draw) returns (user: nat, issued: Option<string>)
      requires Valid()
      modifies this`users, this`nextUser
      ensures Valid()
      ensures if KnowsUserOf(old(Tables()), claim)
              then IsUserOf(old(Tables()), claim, user) && issued == None && users == old(users) && nextUser == old(nextUser)
              else user == old(nextUser) && issued == Some(draw.recoveryKey) && nextUser == user + 1
                   && users == old(users)[user := UserRow(claim.email, StoredKeys(env.c, env.seed, draw), id)]
    {
      if claim.userId.Some? {
        return claim.userId.value, None;
      }
      var byIdentity := UserIdByOAuthIdentity(claim.identity);
      if byIdentity.Some? {
        return byIdentity.value, None;
      }
      var byEmail := UserIdByEmail(claim.email);
      if byEmail.Some? {
        return byEmail.value, None;
      }
      var created;
      user, created := GetOrCreateUser(claim.email, StoredKeys(env.c, env.seed, draw), id);
      issued := if created then Some(draw.recoveryKey) else None;
    }

    /** `verify_oauth_desktop_code` for a request `id`, its random draws in `draw`. */
    method VerifyOAuthDesktopCode(env: Env, id: nat, hash: string, draw: Draw) returns (r: Response)
      requires Valid()
      modifies this
      ensures Valid()
      ensures CodeVerified(env, old(Tables()), id, hash, draw, Tables(), r)
    {
      var claimed := ConsumeOAuthDesktopCode(hash, id);
      if claimed.Err? {
        return Refused(claimed.error);
      }
      var claim := claimed.value;
      if !claim.emailVerified {
        return Refused(Forbidden);
      }
      var user, issued := OAuthDeviceUserId(env, id, claim, draw);
      assert KnowsUserOf(old(Tables()), claim) ==> IsUserOf(old(Tables()), claim, user);
      UpsertOAuthIdentity(claim.identity, user);
      if !claim.nameValid {
        return Refused(BadRequest);
      }
      var device := InsertDevice(user, Code(hash), id);
      return Granted(user, device, issued);
    }
  }

  // ---- One sign-in after another

  /** The password hash accepts the key it was made from. */
  ghost predicate Verifies(env: Env) { forall key, salt :: env.verify(env.c.hash(key, salt), key) }

  /** The tables after a first sign-in. */
  ghost function FirstSignIn(env: Env, w: World, id: nat, email: string, hash: string, draw: Draw): World
    requires LinkUsable(w, email, hash)
  {
    var user := UserRow(email, StoredKeys(env.c, env.seed, draw), id);
    Written(Written(Written(w, id, MarkLink(hash)), id, NewUser(user)), id, NewDevice(DeviceRow(w.nextUser, Link(hash), id)))
  }

  lemma FirstSignInAlone(env: Env, w: World, id: nat, email: string, hash: string, key: Option<string>, draw: Draw)
    requires LinkUsable(w, email, hash) && UserByEmail(w.users, email).None?
    ensures Alone(env, w, id, LinkIsValid(email, hash, key), draw)
         == (FirstSignIn(env, w, id, email, hash, draw), Granted(w.nextUser, w.nextDevice, Some(draw.recoveryKey)))
  {
    var v := Written(w, id, MarkLink(hash));
    var x := Written(v, id, NewUser(UserRow(email, StoredKeys(env.c, env.seed, draw), id)));
    AloneLooksUp(env, w, id, email, hash, key, draw);
    AloneConsumesNew(env, w, id, email, hash, draw, draw);
    AloneGetsOrCreates(env, v, id, Link(hash), email, draw, None, draw);
    AloneFinishes(env, x, id, Link(hash), w.nextUser, Some(draw.recoveryKey), draw);
  }

  lemma KnownSignInAlone(env: Env, w: World, id: nat, user: nat, email: string, hash: string, key: string, draw: Draw)
    requires LinkUsable(w, email, hash) && UserByEmail(w.users, email) == Some(user)
    requires env.verify(w.users[user].keys.recoveryHash, key)
    ensures Alone(env, w, id, LinkIsValid(email, hash, Some(key)), draw).1 == Granted(user, w.nextDevice, None)
  {
    AloneLooksUp(env, w, id, email, hash, Some(key), draw);
    AloneCompares(env, w, id, email, hash, user, key, draw);
    AloneFinishes(env, Written(w, id, MarkLink(hash)), id, Link(hash), user, None, draw);
  }

  /** A first sign-in creates the user and returns the recovery key. Whatever happens to the tables
      afterwards, that key and a fresh link sign another device in to the same user, without
      a new key, and the first link is refused. */
  lemma RecoveryKeySignsIn(env: Env, w: World, id: nat, email: string, hash: string, key: Option<string>, draw: Draw,
                           v: World, id2: nat, hash2: string, draw2: Draw)
    requires Verifies(env) && w.nextUser !in w.users && LinkUsable(w, email, hash) && UserByEmail(w.users, email).None?
    requires Extends(Alone(env, w, id, LinkIsValid(email, hash, key), draw).0, v)
    requires UsersOk(v) && LinkUsable(v, email, hash2)
    ensures Alone(env, w, id, LinkIsValid(email, hash, key), draw).1
         == Granted(w.nextUser, w.nextDevice, Some(draw.recoveryKey))
    ensures Alone(env, v, id2, LinkIsValid(email, hash2, Some(draw.recoveryKey)), draw2).1
         == Granted(w.nextUser, v.nextDevice, None)
    ensures Alone(env, v, id2, LinkIsValid(email, hash, key), draw2) == (v, Refused(Unauthorized))
  {
    FirstSignInAlone(env, w, id, email, hash, key, draw);
    var first := FirstSignIn(env, w, id, email, hash, draw);
    var keys := StoredKeys(env.c, env.seed, draw);
    assert HasEmail(first.users, w.nextUser, email) && first.users[w.nextUser].keys == keys;
    assert HasEmail(v.users, w.nextUser, email) && v.users[w.nextUser].keys == keys;
    assert UserByEmail(v.users, email) == Some(w.nextUser);
    KnownSignInAlone(env, v, id2, w.nextUser, email, hash2, draw.recoveryKey, draw2);
    assert first.links[hash].used.Some?;
    assert !LinkUsable(v, email, hash);
    AloneLooksUp(env, v, id2, email, hash, key, draw2);
  }
}
