/** The two sign-in handlers of the server, interleaved at single SQL statements: any number
    of requests run at once, any of them may be abandoned at any await. */
module SignIn {
  import opened Wrappers
  import opened Crypto

  /** Which credential a request presents, by the hash it is stored under. */
  datatype Source = Link(hash: string) | Code(hash: string)

  /** `used_at`, with the request that set it as history. */
  datatype Use = Use(at: int, who: nat)

  datatype LinkRow = LinkRow(email: string, expires: int, used: Option<Use>)

  datatype Claim = Claim(userId: Option<nat>, identity: (string, string), email: string, emailVerified: bool, nameValid: bool)

  datatype CodeRow = CodeRow(claim: Claim, expires: int, used: Option<Use>)

  /** A user row, with the request that inserted it as history. */
  datatype UserRow = UserRow(email: string, keys: Keys, createdBy: nat)

  /** A device row, with the credential and request it came from as history. */
  datatype DeviceRow = DeviceRow(user: nat, source: Source, who: nat)

  datatype Response = Granted(user: nat, device: nat, recoveryKey: Option<string>) | Refused(error: Error)

  datatype Error =
    | BadRequest | Unauthorized | Forbidden | RecoveryKeyRequired | RecoveryKeyInvalid | NotFound
    | Database    // a constraint of the tables was violated
    | Abandoned   // the connection went away before a response

  /** Where a request stands, named by the statement it executes next. */
  datatype Req =
    | LinkIsValid(email: string, hash: string, key: Option<string>)
    | LinkUserByEmail(email: string, hash: string, key: Option<string>)
    | LinkUserSecrets(email: string, hash: string, user: nat, offered: string)
    | LinkConsumeInvalid(email: string, hash: string)
    | LinkConsumeKnown(email: string, hash: string, user: nat)
    | LinkConsumeNew(email: string, hash: string, draw: Draw)
    | CodeConsume(hash: string)
    | CodeByIdentity(hash: string, claim: Claim)
    | CodeByEmail(hash: string, claim: Claim)
    | SelectUser(source: Source, email: string, draw: Draw, claimed: Option<Claim>)
    | InsertUser(source: Source, email: string, draw: Draw, claimed: Option<Claim>)
    | UpsertIdentity(hash: string, claim: Claim, user: nat, issued: Option<string>)
    | InsertDevice(source: Source, user: nat, issued: Option<string>)
    | Done(response: Response)

  datatype World = World(
    now: int,
    links: map<string, LinkRow>,
    codes: map<string, CodeRow>,
    users: map<nat, UserRow>,
    identities: map<(string, string), nat>,
    devices: map<nat, DeviceRow>,
    reqs: map<nat, Req>,
    nextUser: nat, nextDevice: nat, nextReq: nat)

  /** The server's fixed surroundings. */
  datatype Env = Env(c: Primitives, seed: string, verify: (string, string) -> bool)

  datatype Action =
    | Tick(d: nat)
    | IssueLink(hash: string, email: string, expires: int)
    | IssueCode(hash: string, claim: Claim, expires: int)
    | StartLink(email: string, hash: string, key: Option<string>)
    | StartCode(hash: string)
    | Advance(id: nat, draw: Draw)
    | Abandon(id: nat)

  predicate HasEmail(users: map<nat, UserRow>, user: nat, email: string) { user in users && users[user].email == email }

  /** `SELECT id FROM users WHERE email = …` */
  ghost function UserByEmail(users: map<nat, UserRow>, email: string): Option<nat> {
    if exists u: nat :: HasEmail(users, u, email) then
      var u: nat :| HasEmail(users, u, email); Some(u)
    else None
  }

  predicate LinkUsable(w: World, email: string, hash: string) {
    hash in w.links && w.links[hash].email == email && w.links[hash].used.None? && w.links[hash].expires > w.now
  }

  predicate CodeUsable(w: World, hash: string) {
    hash in w.codes && w.codes[hash].used.None? && w.codes[hash].expires > w.now
  }

  /** What a statement writes. */
  datatype Write =
    | Nothing
    | MarkLink(hash: string)                                  // `consume_magic_link`
    | MarkCode(hash: string)                                  // `consume_oauth_desktop_code`
    | NewUser(row: UserRow)
    | SetIdentity(identity: (string, string), user: nat)
    | NewDevice(device: DeviceRow)

  datatype Outcome = Outcome(next: Req, write: Write)

  predicate Allowed(w: World, e: Write) {
    match e
    case MarkLink(hash) => hash in w.links && w.links[hash].used.None? && w.links[hash].expires > w.now
    case MarkCode(hash) => CodeUsable(w, hash)
    case _ => true
  }

  function Written(w: World, id: nat, e: Write): World
    requires Allowed(w, e)
  {
    match e
    case Nothing => w
    case MarkLink(hash) => w.(links := w.links[hash := w.links[hash].(used := Some(Use(w.now, id)))])
    case MarkCode(hash) => w.(codes := w.codes[hash := w.codes[hash].(used := Some(Use(w.now, id)))])
    case NewUser(row) => w.(users := w.users[w.nextUser := row], nextUser := w.nextUser + 1)
    case SetIdentity(identity, user) => w.(identities := w.identities[identity := user])
    case NewDevice(row) => w.(devices := w.devices[w.nextDevice := row], nextDevice := w.nextDevice + 1)
  }

  /** What follows once the user is known: a code also records its identity. */
  function WithUser(source: Source, user: nat, issued: Option<string>, claimed: Option<Claim>): Req {
    if claimed.Some? then UpsertIdentity(source.hash, claimed.value, user, issued) else InsertDevice(source, user, issued)
  }

  function Refuse(error: Error): Outcome { Outcome(Done(Refused(error)), Nothing) }

  /** `verify_magic_link`, statement by statement up to the consumed link. */
  ghost function LinkStatement(env: Env, w: World, r: Req, draw: Draw): Outcome {
    match r
    case LinkIsValid(email, hash, key) =>
      if LinkUsable(w, email, hash) then Outcome(LinkUserByEmail(email, hash, key), Nothing) else Refuse(Unauthorized)
    case LinkUserByEmail(email, hash, key) =>
      (match UserByEmail(w.users, email)
       case Some(u) => if key.Some? then Outcome(LinkUserSecrets(email, hash, u, key.value), Nothing) else Refuse(RecoveryKeyRequired)
       case None => Outcome(LinkConsumeNew(email, hash, draw), Nothing))
    case LinkUserSecrets(email, hash, user, offered) =>
      if user !in w.users then Refuse(NotFound)
      else if env.verify(w.users[user].keys.recoveryHash, offered) then Outcome(LinkConsumeKnown(email, hash, user), Nothing)
      else Outcome(LinkConsumeInvalid(email, hash), Nothing)
    case LinkConsumeInvalid(email, hash) =>
      Outcome(Done(Refused(RecoveryKeyInvalid)), if LinkUsable(w, email, hash) then MarkLink(hash) else Nothing)
    case LinkConsumeKnown(email, hash, user) =>
      if LinkUsable(w, email, hash) then Outcome(InsertDevice(Link(hash), user, None), MarkLink(hash)) else Refuse(Unauthorized)
    case LinkConsumeNew(email, hash, drawn) =>
      if LinkUsable(w, email, hash) then Outcome(SelectUser(Link(hash), email, drawn, None), MarkLink(hash)) else Refuse(Unauthorized)
    case _ => Refuse(Unauthorized)
  }

  /** `verify_oauth_desktop_code` and the lookups of `oauth_device_user_id`. */
  ghost function CodeStatement(w: World, r: Req, draw: Draw): Outcome {
    match r
    case CodeConsume(hash) =>
      if !CodeUsable(w, hash) then Refuse(Unauthorized)
      else
        var claim := w.codes[hash].claim;
        Outcome(if !claim.emailVerified then Done(Refused(Forbidden))
                else if claim.userId.Some? then UpsertIdentity(hash, claim, claim.userId.value, None)
                else CodeByIdentity(hash, claim),
                MarkCode(hash))
    case CodeByIdentity(hash, claim) =>
      Outcome(if claim.identity in w.identities then UpsertIdentity(hash, claim, w.identities[claim.identity], None)
              else CodeByEmail(hash, claim), Nothing)
    case CodeByEmail(hash, claim) =>
      Outcome(match UserByEmail(w.users, claim.email)
              case Some(u) => UpsertIdentity(hash, claim, u, None)
              case None => SelectUser(Code(hash), claim.email, draw, Some(claim)), Nothing)
    case _ => Refuse(Unauthorized)
  }

  /** `get_or_create_user`, `upsert_oauth_identity` and `insert_device`, shared by both. */
  ghost function SharedStatement(env: Env, w: World, id: nat, r: Req): Outcome {
    match r
    case SelectUser(source, email, drawn, claimed) =>
      Outcome(match UserByEmail(w.users, email)
              case Some(u) => WithUser(source, u, None, claimed)
              case None => InsertUser(source, email, drawn, claimed), Nothing)
    case InsertUser(source, email, drawn, claimed) =>
      if UserByEmail(w.users, email).Some? then Refuse(Database)  // the email column is unique
      else Outcome(WithUser(source, w.nextUser, Some(drawn.recoveryKey), claimed),
                   NewUser(UserRow(email, StoredKeys(env.c, env.seed, drawn), id)))
    case UpsertIdentity(hash, claim, user, issued) =>
      Outcome(if claim.nameValid then InsertDevice(Code(hash), user, issued) else Done(Refused(BadRequest)),
              SetIdentity(claim.identity, user))
    case InsertDevice(source, user, issued) =>
      Outcome(Done(Granted(user, w.nextDevice, issued)), NewDevice(DeviceRow(user, source, id)))
    case _ => Outcome(r, Nothing)
  }

  predicate LinkPhase(r: Req) {
    r.LinkIsValid? || r.LinkUserByEmail? || r.LinkUserSecrets? || r.LinkConsumeInvalid? || r.LinkConsumeKnown? || r.LinkConsumeNew?
  }

  predicate CodePhase(r: Req) { r.CodeConsume? || r.CodeByIdentity? || r.CodeByEmail? }

  /** The statement a request executes next. */
  ghost function Statement(env: Env, w: World, id: nat, r: Req, draw: Draw): (o: Outcome)
    ensures Allowed(w, o.write)
  {
    if LinkPhase(r) then LinkStatement(env, w, r, draw)
    else if CodePhase(r) then CodeStatement(w, r, draw)
    else SharedStatement(env, w, id, r)
  }

  function At(w: World, id: nat, r: Req): World { w.(reqs := w.reqs[id := r]) }

  ghost function Advanced(env: Env, w: World, id: nat, draw: Draw): World
    requires id in w.reqs
  {
    var o := Statement(env, w, id, w.reqs[id], draw);
    At(Written(w, id, o.write), id, o.next)
  }

  predicate Enabled(w: World, a: Action) {
    match a
    case Tick(_) => true
    case IssueLink(hash, _, _) => hash !in w.links
    case IssueCode(hash, claim, _) => hash !in w.codes && (claim.userId.Some? ==> claim.userId.value in w.users)
    case StartLink(_, _, _) => true
    case StartCode(_) => true
    case Advance(id, draw) => id in w.reqs && GoodDraw(draw)
    case Abandon(id) => id in w.reqs && !w.reqs[id].Done?
  }

  ghost function Apply(env: Env, w: World, a: Action): World
    requires Enabled(w, a)
  {
    match a
    case Tick(d) => w.(now := w.now + d)
    case IssueLink(hash, email, expires) => w.(links := w.links[hash := LinkRow(email, expires, None)])
    case IssueCode(hash, claim, expires) => w.(codes := w.codes[hash := CodeRow(claim, expires, None)])
    case StartLink(email, hash, key) => At(w, w.nextReq, LinkIsValid(email, hash, key)).(nextReq := w.nextReq + 1)
    case StartCode(hash) => At(w, w.nextReq, CodeConsume(hash)).(nextReq := w.nextReq + 1)
    case Advance(id, draw) => Advanced(env, w, id, draw)
    case Abandon(id) => At(w, id, Done(Refused(Abandoned)))
  }

  // ---- What each request knows

  /** The credential a request has consumed and not yet turned into a device. */
  function Holding(r: Req): Option<Source> {
    match r
    case CodeByIdentity(hash, _) => Some(Code(hash))
    case CodeByEmail(hash, _) => Some(Code(hash))
    case SelectUser(source, _, _, _) => Some(source)
    case InsertUser(source, _, _, _) => Some(source)
    case UpsertIdentity(hash, _, _, _) => Some(Code(hash))
    case InsertDevice(source, _, _) => Some(source)
    case _ => None
  }

  /** The recovery key a request is about to return or has returned, and for which user. */
  function Carries(r: Req): Option<(nat, string)> {
    match r
    case UpsertIdentity(_, _, user, Some(key)) => Some((user, key))
    case InsertDevice(_, user, Some(key)) => Some((user, key))
    case Done(Granted(user, _, Some(key))) => Some((user, key))
    case _ => None
  }

  /** The request `id` consumed the credential while it was unused and unexpired, and a code
      was issued for a verified email. */
  predicate UsedBy(w: World, source: Source, id: nat) {
    match source
    case Link(h) => h in w.links && Timely(w.links[h].used, w.links[h].expires, id)
    case Code(h) => h in w.codes && w.codes[h].claim.emailVerified && Timely(w.codes[h].used, w.codes[h].expires, id)
  }

  predicate Timely(used: Option<Use>, expires: int, id: nat) {
    used.Some? && used.value.who == id && used.value.at < expires
  }

  /** A link's device goes to the user of the email the link was sent to. */
  predicate RightUser(w: World, source: Source, user: nat) {
    source.Link? ==> source.hash in w.links && HasEmail(w.users, user, w.links[source.hash].email)
  }

  ghost predicate KeyIsStored(env: Env, w: World, id: nat, user: nat, key: string) {
    user in w.users && w.users[user].createdBy == id && Unlocks(env.c, env.seed, key, w.users[user].keys)
  }

  /** What holds of the request `id` standing at `r`. */
  ghost predicate ReqOk(env: Env, w: World, id: nat, r: Req) {
    && (Holding(r).Some? ==> UsedBy(w, Holding(r).value, id))
    && (Carries(r).Some? ==> KeyIsStored(env, w, id, Carries(r).value.0, Carries(r).value.1))
    && match r
       case LinkUserSecrets(email, _, user, _) => HasEmail(w.users, user, email)
       case LinkConsumeKnown(email, _, user) => HasEmail(w.users, user, email)
       case LinkConsumeNew(_, _, draw) => GoodDraw(draw)
       case SelectUser(source, email, draw, claimed) => GoodDraw(draw) && Expects(w, source, email, claimed)
       case InsertUser(source, email, draw, claimed) => GoodDraw(draw) && Expects(w, source, email, claimed)
       case InsertDevice(source, user, _) => RightUser(w, source, user)
       case Done(Granted(user, device, _)) => IsDeviceOf(w, device, user, id)
       case _ => true
  }

  /** The device is stored, for this user and by this request. */
  predicate IsDeviceOf(w: World, device: nat, user: nat, id: nat) {
    device in w.devices && w.devices[device].user == user && w.devices[device].who == id
  }

  predicate Expects(w: World, source: Source, email: string, claimed: Option<Claim>) {
    && (source.Link? <==> claimed.None?)
    && (source.Link? ==> source.hash in w.links && w.links[source.hash].email == email)
  }

  /** A device was inserted by the request that consumed its credential, which returned it. */
  predicate DeviceOk(w: World, device: nat, row: DeviceRow) {
    && UsedBy(w, row.source, row.who) && RightUser(w, row.source, row.user)
    && row.who in w.reqs && w.reqs[row.who].Done? && w.reqs[row.who].response.Granted?
    && w.reqs[row.who].response.user == row.user && w.reqs[row.who].response.device == device
  }

  ghost predicate ReqsOk(env: Env, w: World) {
    forall id :: id in w.reqs ==> id < w.nextReq && ReqOk(env, w, id, w.reqs[id])
  }

  predicate DevicesOk(w: World) {
    forall d :: d in w.devices ==> d < w.nextDevice && DeviceOk(w, d, w.devices[d])
  }

  predicate UsersOk(w: World) {
    && (forall u :: u in w.users ==> u < w.nextUser)
    && (forall u, v :: u in w.users && v in w.users && u != v ==> w.users[u].email != w.users[v].email)
  }

  ghost predicate Inv(env: Env, w: World) { ReqsOk(env, w) && DevicesOk(w) && UsersOk(w) }

  // ---- Tables only grow

  predicate KeptLink(a: LinkRow, b: LinkRow) {
    a.email == b.email && a.expires == b.expires && (a.used.Some? ==> b.used == a.used)
  }

  predicate KeptCode(a: CodeRow, b: CodeRow) {
    a.claim == b.claim && a.expires == b.expires && (a.used.Some? ==> b.used == a.used)
  }

  /** Credentials stay, a use once recorded stays, user and device rows never change. */
  ghost predicate Extends(w: World, v: World) {
    && (forall h :: h in w.links ==> h in v.links && KeptLink(w.links[h], v.links[h]))
    && (forall h :: h in w.codes ==> h in v.codes && KeptCode(w.codes[h], v.codes[h]))
    && (forall u :: u in w.users ==> u in v.users && v.users[u] == w.users[u])
    && (forall d :: d in w.devices ==> d in v.devices && v.devices[d] == w.devices[d])
  }

  lemma ReqOkStable(env: Env, w: World, v: World, id: nat, r: Req)
    requires ReqOk(env, w, id, r) && Extends(w, v)
    ensures ReqOk(env, v, id, r)
  {
  }

  lemma WrittenExtends(w: World, id: nat, e: Write)
    requires Allowed(w, e) && w.nextUser !in w.users && w.nextDevice !in w.devices
    ensures Extends(w, Written(w, id, e))
  {
  }

  /** After its statement a request of the link phase still knows what it relies on. */
  lemma LinkStatementOk(env: Env, w: World, id: nat, r: Req, draw: Draw)
    requires ReqOk(env, w, id, r) && GoodDraw(draw) && LinkPhase(r)
    ensures var o := LinkStatement(env, w, r, draw);
      Allowed(w, o.write) && ReqOk(env, Written(w, id, o.write), id, o.next)
      && (o.write == Nothing || o.write.MarkLink?)
  {
  }

  lemma CodeStatementOk(env: Env, w: World, id: nat, r: Req, draw: Draw)
    requires ReqOk(env, w, id, r) && GoodDraw(draw) && CodePhase(r)
    ensures var o := CodeStatement(w, r, draw);
      Allowed(w, o.write) && ReqOk(env, Written(w, id, o.write), id, o.next)
      && (o.write == Nothing || o.write.MarkCode?)
  {
  }

  lemma SelectStatementOk(env: Env, w: World, id: nat, r: Req)
    requires ReqOk(env, w, id, r) && (r.SelectUser? || r.UpsertIdentity?)
    ensures var o := SharedStatement(env, w, id, r);
      ReqOk(env, Written(w, id, o.write), id, o.next) && (o.write == Nothing || o.write.SetIdentity?)
  {
  }

  /** The inserted user's keys answer to the recovery key its creator carries. */
  lemma InsertedUserOk(env: Env, w: World, id: nat, r: Req, v: World)
    requires Sound(env.c) && ReqOk(env, w, id, r) && r.InsertUser? && w.nextUser !in w.users
    requires v == Written(w, id, NewUser(UserRow(r.email, StoredKeys(env.c, env.seed, r.draw), id)))
    ensures ReqOk(env, v, id, WithUser(r.source, w.nextUser, Some(r.draw.recoveryKey), r.claimed))
  {
    StoredKeysUnlock(env.c, env.seed, r.draw);
    ReqOkStable(env, w, v, id, r);
    assert KeyIsStored(env, v, id, w.nextUser, r.draw.recoveryKey);
    assert RightUser(v, r.source, w.nextUser);
  }

  lemma InsertUserStatementOk(env: Env, w: World, id: nat, r: Req)
    requires Sound(env.c) && ReqOk(env, w, id, r) && r.InsertUser?
    requires w.nextUser !in w.users
    ensures var o := SharedStatement(env, w, id, r);
      && ReqOk(env, Written(w, id, o.write), id, o.next)
      && (o.write == Nothing || (o.write.NewUser? && forall u :: u in w.users ==> w.users[u].email != o.write.row.email))
  {
    if UserByEmail(w.users, r.email).None? {
      InsertedUserOk(env, w, id, r, Written(w, id, NewUser(UserRow(r.email, StoredKeys(env.c, env.seed, r.draw), id))));
      forall u | u in w.users ensures w.users[u].email != r.email { assert !HasEmail(w.users, u, r.email); }
    }
  }

  /** One request moves to `r` while the tables grow. */
  lemma ReqsKept(env: Env, w: World, v: World, id: nat, r: Req)
    requires ReqsOk(env, w) && Extends(w, v)
    requires v.reqs == w.reqs[id := r] && id < v.nextReq && w.nextReq <= v.nextReq
    requires ReqOk(env, v, id, r)
    ensures ReqsOk(env, v)
  {
    forall k | k in v.reqs ensures k < v.nextReq && ReqOk(env, v, k, v.reqs[k]) {
      if k != id { ReqOkStable(env, w, v, k, w.reqs[k]); }
    }
  }

  lemma DeviceOkStable(w: World, v: World, d: nat, row: DeviceRow)
    requires DeviceOk(w, d, row) && Extends(w, v)
    requires row.who in v.reqs && v.reqs[row.who] == w.reqs[row.who]
    ensures DeviceOk(v, d, row)
  {
  }

  /** A request that was not done moves; the devices stay. */
  lemma DevicesKept(w: World, v: World, id: nat, r: Req)
    requires DevicesOk(w) && Extends(w, v)
    requires v.reqs == w.reqs[id := r] && (id in w.reqs ==> !w.reqs[id].Done?)
    requires v.devices == w.devices && v.nextDevice == w.nextDevice
    ensures DevicesOk(v)
  {
    forall d | d in v.devices ensures d < v.nextDevice && DeviceOk(v, d, v.devices[d]) {
      assert DeviceOk(w, d, w.devices[d]);
      DeviceOkStable(w, v, d, w.devices[d]);
    }
  }

  lemma UsersKept(w: World, id: nat, e: Write, r: Req)
    requires UsersOk(w) && Allowed(w, e)
    requires e.NewUser? ==> forall u :: u in w.users ==> w.users[u].email != e.row.email
    ensures UsersOk(At(Written(w, id, e), id, r))
  {
  }

  lemma WriteEffect(w: World, id: nat, e: Write, r: Req)
    requires Allowed(w, e) && w.nextUser !in w.users && w.nextDevice !in w.devices
    ensures var v := At(Written(w, id, e), id, r);
      && Extends(w, v) && v.reqs == w.reqs[id := r] && v.nextReq == w.nextReq
      && (!e.NewDevice? ==> v.devices == w.devices && v.nextDevice == w.nextDevice)
  {
    WrittenExtends(w, id, e);
  }

  /** A write that adds no device, by the request `id` moving to `r`. */
  lemma WriteKeepsInv(env: Env, w: World, id: nat, e: Write, r: Req)
    requires Inv(env, w) && id in w.reqs && !w.reqs[id].Done?
    requires Allowed(w, e) && !e.NewDevice?
    requires e.NewUser? ==> forall u :: u in w.users ==> w.users[u].email != e.row.email
    requires ReqOk(env, Written(w, id, e), id, r)
    ensures Inv(env, At(Written(w, id, e), id, r))
  {
    var v := At(Written(w, id, e), id, r);
    FreshIds(env, w);
    WriteEffect(w, id, e, r);
    AtKeepsReqOk(env, Written(w, id, e), id, r);
    ReqsKept(env, w, v, id, r);
    DevicesKept(w, v, id, r);
    UsersKept(w, id, e, r);
  }

  lemma FreshIds(env: Env, w: World)
    requires Inv(env, w)
    ensures w.nextUser !in w.users && w.nextDevice !in w.devices
  {
  }

  lemma AtKeepsReqOk(env: Env, w: World, id: nat, r: Req)
    requires ReqOk(env, w, id, r)
    ensures ReqOk(env, At(w, id, r), id, r)
  {
    ReqOkStable(env, w, At(w, id, r), id, r);
  }

  lemma NewDeviceOk(env: Env, w: World, v: World, id: nat, r: Req)
    requires DevicesOk(w) && Extends(w, v) && ReqOk(env, w, id, r) && r.InsertDevice?
    requires id in w.reqs && !w.reqs[id].Done?
    requires v.reqs == w.reqs[id := Done(Granted(r.user, w.nextDevice, r.issued))]
    requires v.devices == w.devices[w.nextDevice := DeviceRow(r.user, r.source, id)] && v.nextDevice == w.nextDevice + 1
    ensures DevicesOk(v)
  {
    forall d | d in v.devices ensures d < v.nextDevice && DeviceOk(v, d, v.devices[d]) {
      if d != w.nextDevice {
        assert DeviceOk(w, d, w.devices[d]);
        DeviceOkStable(w, v, d, w.devices[d]);
      }
    }
  }

  lemma GrantedReqOk(env: Env, w: World, v: World, id: nat, r: Req)
    requires ReqOk(env, w, id, r) && r.InsertDevice? && Extends(w, v)
    requires IsDeviceOf(v, w.nextDevice, r.user, id)
    ensures ReqOk(env, v, id, Done(Granted(r.user, w.nextDevice, r.issued)))
  {
    ReqOkStable(env, w, v, id, r);
  }

  /** The device is inserted by the request that consumed its credential. */
  lemma InsertDeviceKeepsInv(env: Env, w: World, id: nat, r: Req)
    requires Inv(env, w) && id in w.reqs && w.reqs[id] == r && r.InsertDevice?
    ensures var o := SharedStatement(env, w, id, r); Inv(env, At(Written(w, id, o.write), id, o.next))
  {
    var done := Done(Granted(r.user, w.nextDevice, r.issued));
    var write := NewDevice(DeviceRow(r.user, r.source, id));
    var v := At(Written(w, id, write), id, done);
    FreshIds(env, w);
    WriteEffect(w, id, write, done);
    GrantedReqOk(env, w, v, id, r);
    ReqsKept(env, w, v, id, done);
    NewDeviceOk(env, w, v, id, r);
    UsersKept(w, id, write, done);
  }

  lemma AdvanceKeepsInv(env: Env, w: World, id: nat, draw: Draw)
    requires Sound(env.c) && Inv(env, w) && id in w.reqs && GoodDraw(draw)
    ensures Inv(env, Advanced(env, w, id, draw))
  {
    var r := w.reqs[id];
    var o := Statement(env, w, id, r, draw);
    assert ReqOk(env, w, id, r);
    if r.InsertDevice? {
      InsertDeviceKeepsInv(env, w, id, r);
    } else if r.Done? {
      assert Advanced(env, w, id, draw).reqs == w.reqs;
    } else {
      assert w.nextUser !in w.users;
      if LinkPhase(r) {
        LinkStatementOk(env, w, id, r, draw);
      } else if CodePhase(r) {
        CodeStatementOk(env, w, id, r, draw);
      } else if r.InsertUser? {
        InsertUserStatementOk(env, w, id, r);
      } else {
        SelectStatementOk(env, w, id, r);
      }
      WriteKeepsInv(env, w, id, o.write, o.next);
    }
  }

  lemma StartStepKeepsInv(env: Env, w: World, a: Action)
    requires Inv(env, w) && Enabled(w, a) && !a.Advance? && !a.Abandon?
    ensures Inv(env, Apply(env, w, a))
  {
    var v := Apply(env, w, a);
    assert Extends(w, v);
    if a.StartLink? || a.StartCode? {
      assert w.nextReq !in w.reqs;
      ReqsKept(env, w, v, w.nextReq, v.reqs[w.nextReq]);
      DevicesKept(w, v, w.nextReq, v.reqs[w.nextReq]);
    } else {
      forall k | k in v.reqs ensures ReqOk(env, v, k, v.reqs[k]) {
        ReqOkStable(env, w, v, k, w.reqs[k]);
      }
      forall d | d in v.devices ensures DeviceOk(v, d, v.devices[d]) {
        DeviceOkStable(w, v, d, w.devices[d]);
      }
    }
  }

  /** New credentials, new requests and the clock touch nothing a request relies on. */
  lemma OutsideStepKeepsInv(env: Env, w: World, a: Action)
    requires Inv(env, w) && Enabled(w, a) && !a.Advance?
    ensures Inv(env, Apply(env, w, a))
  {
    if a.Abandon? {
      WriteKeepsInv(env, w, a.id, Nothing, Done(Refused(Abandoned)));
    } else {
      StartStepKeepsInv(env, w, a);
    }
  }

  lemma ApplyKeepsInv(env: Env, w: World, a: Action)
    requires Sound(env.c) && Inv(env, w) && Enabled(w, a)
    ensures Inv(env, Apply(env, w, a))
  {
    if a.Advance? { AdvanceKeepsInv(env, w, a.id, a.draw); } else { OutsideStepKeepsInv(env, w, a); }
  }

  /** No action changes or drops a user row, or a use once recorded. */
  lemma ApplyExtends(env: Env, w: World, a: Action)
    requires Inv(env, w) && Enabled(w, a)
    ensures Extends(w, Apply(env, w, a))
  {
    if a.Advance? {
      WrittenExtends(w, a.id, Statement(env, w, a.id, w.reqs[a.id], a.draw).write);
    }
  }

  // ---- Every interleaving

  ghost predicate IsRun(env: Env, w: World, actions: seq<Action>)
    decreases |actions|
  {
    actions == [] || (Enabled(w, actions[0]) && IsRun(env, Apply(env, w, actions[0]), actions[1..]))
  }

  ghost function After(env: Env, w: World, actions: seq<Action>): World
    requires IsRun(env, w, actions)
    decreases |actions|
  {
    if actions == [] then w else After(env, Apply(env, w, actions[0]), actions[1..])
  }

  const EMPTY := World(0, map[], map[], map[], map[], map[], map[], 0, 0, 0)

  lemma {:induction false} RunKeepsInv(env: Env, w: World, actions: seq<Action>)
    requires Sound(env.c) && Inv(env, w) && IsRun(env, w, actions)
    ensures Inv(env, After(env, w, actions))
    decreases |actions|
  {
    if actions != [] {
      ApplyKeepsInv(env, w, actions[0]);
      RunKeepsInv(env, Apply(env, w, actions[0]), actions[1..]);
    }
  }

  /** A credential is good for one device: two devices never share one, and each came after a
      consume that found it unused and unexpired, for a verified email, and went to the user
      the link was addressed to. */
  lemma SingleUse(env: Env, actions: seq<Action>)
    requires Sound(env.c) && IsRun(env, EMPTY, actions)
    ensures var w := After(env, EMPTY, actions);
      && (forall d, e :: d in w.devices && e in w.devices && w.devices[d].source == w.devices[e].source ==> d == e)
      && (forall d :: d in w.devices ==>
            UsedBy(w, w.devices[d].source, w.devices[d].who) && RightUser(w, w.devices[d].source, w.devices[d].user))
  {
    RunKeepsInv(env, EMPTY, actions);
    var w := After(env, EMPTY, actions);
    forall d, e | d in w.devices && e in w.devices && w.devices[d].source == w.devices[e].source
      ensures d == e
    {
      assert DeviceOk(w, d, w.devices[d]) && DeviceOk(w, e, w.devices[e]);
    }
    forall d | d in w.devices
      ensures UsedBy(w, w.devices[d].source, w.devices[d].who) && RightUser(w, w.devices[d].source, w.devices[d].user)
    {
      assert DeviceOk(w, d, w.devices[d]);
    }
  }

  /** A request returned this response. */
  predicate Returned(w: World, id: nat, r: Response) { id in w.reqs && w.reqs[id] == Done(r) }

  /** The request carries or has returned a recovery key for this user. */
  predicate CarriesFor(w: World, id: nat, user: nat) {
    id in w.reqs && Carries(w.reqs[id]).Some? && Carries(w.reqs[id]).value.0 == user
  }

  /** A returned recovery key is the stored one: its hash is in the user's row, and it opens the
      stored `nonce || wrapped` to the data key the server's wrapping opens to. At most one
      request ever carries a recovery key for a user. */
  lemma RecoveryKeyAgreement(env: Env, actions: seq<Action>)
    requires Sound(env.c) && IsRun(env, EMPTY, actions)
    ensures var w := After(env, EMPTY, actions);
      && (forall id, user, device, key :: Returned(w, id, Granted(user, device, Some(key))) ==>
            user in w.users && Unlocks(env.c, env.seed, key, w.users[user].keys))
      && (forall i, j, user :: CarriesFor(w, i, user) && CarriesFor(w, j, user) ==> i == j)
  {
    RunKeepsInv(env, EMPTY, actions);
    var w := After(env, EMPTY, actions);
    forall id, user, device, key | Returned(w, id, Granted(user, device, Some(key)))
      ensures user in w.users && Unlocks(env.c, env.seed, key, w.users[user].keys)
    {
      assert ReqOk(env, w, id, w.reqs[id]);
    }
    forall i, j, user | CarriesFor(w, i, user) && CarriesFor(w, j, user)
      ensures i == j
    {
      assert ReqOk(env, w, i, w.reqs[i]) && ReqOk(env, w, j, w.reqs[j]);
    }
  }

  /** A request that loses the race to create its user is refused and writes nothing more: the
      email column is unique. */
  lemma CreationRaceIsLost(env: Env, w: World, id: nat, draw: Draw, user: nat)
    requires id in w.reqs && w.reqs[id].InsertUser? && GoodDraw(draw)
    requires user in w.users && w.users[user].email == w.reqs[id].email
    ensures Apply(env, w, Advance(id, draw)) == w.(reqs := w.reqs[id := Done(Refused(Database))])
  {
    assert HasEmail(w.users, user, w.reqs[id].email);
  }

  /** Whoever was granted a device has it: it is stored for that user, by that request, for the
      credential the request consumed. */
  lemma GrantedIsStored(env: Env, actions: seq<Action>)
    requires Sound(env.c) && IsRun(env, EMPTY, actions)
    ensures var w := After(env, EMPTY, actions);
      forall id, user, device, key :: Returned(w, id, Granted(user, device, key)) ==>
        && device in w.devices && w.devices[device].user == user && w.devices[device].who == id
        && UsedBy(w, w.devices[device].source, id)
  {
    RunKeepsInv(env, EMPTY, actions);
    var w := After(env, EMPTY, actions);
    forall id, user, device, key | Returned(w, id, Granted(user, device, key))
      ensures IsDeviceOf(w, device, user, id) && UsedBy(w, w.devices[device].source, id)
    {
      assert ReqOk(env, w, id, w.reqs[id]);
      assert DeviceOk(w, device, w.devices[device]);
    }
  }

  /** Once returned, the key keeps opening the row: later runs never touch it. */
  lemma {:induction false} UserRowsPersist(env: Env, w: World, actions: seq<Action>, user: nat)
    requires Sound(env.c) && Inv(env, w) && IsRun(env, w, actions) && user in w.users
    ensures user in After(env, w, actions).users && After(env, w, actions).users[user] == w.users[user]
    decreases |actions|
  {
    if actions != [] {
      ApplyKeepsInv(env, w, actions[0]);
      ApplyExtends(env, w, actions[0]);
      UserRowsPersist(env, Apply(env, w, actions[0]), actions[1..], user);
    }
  }
}
