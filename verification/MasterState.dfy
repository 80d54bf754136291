/**
 * The lobby master of tools/coop_master_server.py as a state machine: the two lobby tables, the
 * rate buckets, the listing cache, and one step per request or sweep. Ids are supplied fresh,
 * clock readings come with the event, and request bodies arrive as already decoded fields.
 */
module MasterState {
  import opened Results

  const LOBBY_TTL := 300.0
  const LOBBIES_CACHE_TTL := 5.0
  const MAX_LOBBIES_PER_IP: nat := 8
  const MAX_LOBBIES_GLOBAL: nat := 1000
  const RATE_WINDOW := 60.0

  // ----- lobbies -----

  datatype Conn = P2P | Direct

  /** What an announce fixes for the lobby's life. */
  datatype Info = Info(sessionId: string, lobbyId: string, token: string, hostIdentity: string,
                       name: string, version: string, game: string, proto: int, world: string,
                       locked: bool, playersMax: int, ip: string, conn: Conn, directPort: int)

  datatype Lobby = Lobby(info: Info, playersCur: int, listed: bool, lastSeen: real)

  type Table = map<string, Lobby>

  datatype PublicRow = PublicRow(lobbyId: string, name: string, version: string, game: string, proto: int,
                                 world: string, locked: bool, playersCur: int, playersMax: int,
                                 age: int, conn: Conn)

  /** A listing body; before the first rebuild the unfiltered body is no bytes at all. */
  datatype Body = NoBytes | Listing(rows: set<PublicRow>)

  datatype Cache = Cache(t: real, rows: set<PublicRow>, allBody: Body)

  datatype State = State(lobbies: Table, byPublic: map<string, string>,
                         rate: map<string, seq<real>>, cache: Cache)

  const INIT := State(map[], map[], map[], Cache(0.0, {}, NoBytes))

  // ----- requests and replies -----

  /** An integer field as `int()` meets it: missing, refused, overflowing, or a number. */
  datatype JsonInt = Absent | Bad | TooBig | Val(n: int)

  datatype HostBody = HostBody(name: string, version: string, game: string, proto: JsonInt, world: string,
                               locked: bool, playersMax: JsonInt, direct: bool, directPort: JsonInt)

  datatype Ids = Ids(session: string, lobby: string, token: string, host: string)

  datatype Request =
    | Host(ip: string, body: HostBody, ids: Ids)
    | Heartbeat(ip: string, session: Option<string>, token: Option<string>,
                players: JsonInt, listed: Option<bool>)
    | Leave(ip: string, session: Option<string>, token: Option<string>)
    | Visibility(ip: string, lobby: Option<string>, token: Option<string>, shown: bool)
    | Join(ip: string, lobby: Option<string>, peer: string)
    | List(version: string)
    | Sweep

  datatype Event = Event(at: real, req: Request)

  datatype Reply =
    | Status(code: int)
    | Hosted(info: Info)
    | Alive(hostIdentity: string)
    | Done
    | JoinDirect(ip: string, port: int)
    | JoinP2P(sessionId: string, peer: string, hostIdentity: string)
    | Rows(body: Body)
    | Swept

  // ----- rate limiting -----

  datatype Class = Create | JoinClass | Mutate

  function ClassName(c: Class): string {
    match c case Create => "create" case JoinClass => "join" case Mutate => "mutate"
  }

  function Limit(c: Class): nat {
    match c case Create => 10 case JoinClass => 20 case Mutate => 240
  }

  function Key(ip: string, c: Class): string { ip + "|" + ClassName(c) }

  /** Drops the leading timestamps older than the cutoff. */
  function Prune(bucket: seq<real>, cutoff: real): seq<real> {
    if bucket == [] || bucket[0] >= cutoff then bucket else Prune(bucket[1..], cutoff)
  }

  function Bucket(rate: map<string, seq<real>>, key: string): seq<real> {
    if key in rate then rate[key] else []
  }

  function RateAccepts(rate: map<string, seq<real>>, ip: string, c: Class, now: real): bool {
    |Prune(Bucket(rate, Key(ip, c)), now - RATE_WINDOW)| < Limit(c)
  }

  function RateAfter(rate: map<string, seq<real>>, ip: string, c: Class, now: real): map<string, seq<real>> {
    var kept := Prune(Bucket(rate, Key(ip, c)), now - RATE_WINDOW);
    rate[Key(ip, c) := if |kept| < Limit(c) then kept + [now] else kept]
  }

  // ----- table operations -----

  function Drop(s: State, sid: string): State
    requires sid in s.lobbies
  {
    s.(lobbies := s.lobbies - {sid}, byPublic := s.byPublic - {s.lobbies[sid].info.lobbyId})
  }

  /** The public ids of some sessions. */
  function PublicIds(lobbies: Table, sids: set<string>): set<string>
    requires sids <= lobbies.Keys
  {
    set sid | sid in sids :: lobbies[sid].info.lobbyId
  }

  function OfIp(lobbies: Table, ip: string): set<string> {
    set sid | sid in lobbies && lobbies[sid].info.ip == ip
  }

  /**
   * The effect of evicting down to 999: some lobbies went, nothing else changed, nothing staler
   * than a removed lobby was kept, and no more went than had to.
   */
  ghost predicate Evicted(s: State, m: State) {
    && m.rate == s.rate && m.cache == s.cache
    && m.lobbies.Keys <= s.lobbies.Keys
    && (forall sid :: sid in m.lobbies ==> m.lobbies[sid] == s.lobbies[sid])
    && (forall gone, kept :: gone in s.lobbies && gone !in m.lobbies && kept in m.lobbies ==>
          s.lobbies[gone].lastSeen <= s.lobbies[kept].lastSeen)
    && |m.lobbies| == (if |s.lobbies| >= MAX_LOBBIES_GLOBAL then MAX_LOBBIES_GLOBAL - 1 else |s.lobbies|)
    && m.byPublic == s.byPublic - PublicIds(s.lobbies, s.lobbies.Keys - m.lobbies.Keys)
  }

  // ----- the announce -----

  function ClampInt(n: int, lo: int, hi: int): int {
    if n < lo then lo else if n > hi then hi else n
  }

  datatype Announce = Raises | BadPort | Fine(info: Info)

  /** Reads the announce fields in the handler's order. */
  function ReadAnnounce(ip: string, b: HostBody, ids: Ids): Announce {
    if b.proto.TooBig? || b.playersMax.TooBig? then Raises
    else if b.direct && b.directPort.TooBig? then Raises
    else
      var port := match b.directPort case Val(n) => n case Bad => -1 case _ => 0;
      if b.direct && !(1024 <= port <= 65535) then BadPort
      else
        Fine(Info(ids.session, ids.lobby, ids.token, ids.host,
                  if b.name == "" then "VOTV Coop" else b.name, b.version, b.game,
                  if b.proto.Val? then ClampInt(b.proto.n, 0, 65535) else 0,
                  b.world, b.locked,
                  ClampInt(if b.playersMax.Val? then b.playersMax.n else 4, 1, 4),
                  ip, if b.direct then Direct else P2P, if b.direct then port else 0))
  }

  function Register(m: State, info: Info, now: real): State {
    m.(lobbies := m.lobbies[info.sessionId := Lobby(info, 1, true, now)],
       byPublic := m.byPublic[info.lobbyId := info.sessionId])
  }

  // ----- authentication -----

  predicate Ascii(s: string) { forall i :: 0 <= i < |s| ==> (s[i] as int) < 128 }

  datatype Auth = AuthRaises | AuthDenied | AuthOk(sid: string)

  /** The bearer check: comparing a token with non-ASCII text raises. */
  function CheckToken(lobbies: Table, sid: string, token: string): Auth
    requires sid in lobbies
  {
    if !Ascii(token) || !Ascii(lobbies[sid].info.token) then AuthRaises
    else if token != lobbies[sid].info.token then AuthDenied
    else AuthOk(sid)
  }

  function AuthBySession(lobbies: Table, session: Option<string>, token: Option<string>): Auth {
    if session.None? || token.None? || session.value !in lobbies then AuthDenied
    else CheckToken(lobbies, session.value, token.value)
  }

  /** The session a public id leads to, if it is live. */
  function Resolve(s: State, pub: string): Option<string> {
    if pub in s.byPublic && s.byPublic[pub] != "" && s.byPublic[pub] in s.lobbies then Some(s.byPublic[pub])
    else None
  }

  // ----- one step per handler -----

  /** An announce that passed the rate limit and the per-address cap: evict, read, register. */
  ghost predicate HostAdmitted(r: State, now: real, q: Request, m: State, t: State, reply: Reply)
    requires q.Host?
  {
    && Evicted(r, m)
    && match ReadAnnounce(q.ip, q.body, q.ids)
       case Raises => t == m && reply == Status(500)
       case BadPort => t == m && reply == Status(400)
       case Fine(info) => t == Register(m, info, now) && reply == Hosted(info)
  }

  ghost predicate HostStep(s: State, now: real, q: Request, m: State, t: State, reply: Reply)
    requires q.Host?
  {
    var r := s.(rate := RateAfter(s.rate, q.ip, Create, now));
    if !RateAccepts(s.rate, q.ip, Create, now) || |OfIp(s.lobbies, q.ip)| >= MAX_LOBBIES_PER_IP then
      m == s && t == r && reply == Status(429)
    else HostAdmitted(r, now, q, m, t, reply)
  }

  function Beat(lo: Lobby, players: JsonInt, listed: Option<bool>, now: real): Lobby {
    var pc := if players.Val? then players.n else lo.playersCur;
    Lobby(lo.info, ClampHigh(pc, lo.info.playersMax),
          if listed.Some? then listed.value else lo.listed, now)
  }

  /** `max(0, min(high, n))`. */
  function ClampHigh(n: int, high: int): int {
    var x := if n < high then n else high;
    if x > 0 then x else 0
  }

  function HeartbeatAdmitted(r: State, now: real, q: Request): (State, Reply)
    requires q.Heartbeat?
  {
    match AuthBySession(r.lobbies, q.session, q.token)
    case AuthRaises => (r, Status(500))
    case AuthDenied => (r, Status(403))
    case AuthOk(sid) =>
      if sid !in r.lobbies then (r, Status(403))
      else if q.players.TooBig? then (r, Status(500))
      else (r.(lobbies := r.lobbies[sid := Beat(r.lobbies[sid], q.players, q.listed, now)]),
            Alive(r.lobbies[sid].info.hostIdentity))
  }

  function HeartbeatStep(s: State, now: real, q: Request): (State, Reply)
    requires q.Heartbeat?
  {
    var r := s.(rate := RateAfter(s.rate, q.ip, Mutate, now));
    if !RateAccepts(s.rate, q.ip, Mutate, now) then (r, Status(429)) else HeartbeatAdmitted(r, now, q)
  }

  function LeaveStep(s: State, now: real, q: Request): (State, Reply)
    requires q.Leave?
  {
    var r := s.(rate := RateAfter(s.rate, q.ip, Mutate, now));
    if !RateAccepts(s.rate, q.ip, Mutate, now) then (r, Status(429))
    else match AuthBySession(s.lobbies, q.session, q.token)
         case AuthRaises => (r, Status(500))
         case AuthDenied => (r, Status(403))
         case AuthOk(sid) => if sid !in s.lobbies then (r, Status(403)) else (Drop(r, sid), Done)
  }

  function VisibilityStep(s: State, now: real, q: Request): (State, Reply)
    requires q.Visibility?
  {
    var r := s.(rate := RateAfter(s.rate, q.ip, Mutate, now));
    if !RateAccepts(s.rate, q.ip, Mutate, now) then (r, Status(429))
    else if q.lobby.None? || q.token.None? then (r, Status(400))
    else
      var sid := Resolve(s, q.lobby.value);
      if sid.None? then (r, Status(403))
      else match CheckToken(s.lobbies, sid.value, q.token.value)
           case AuthRaises => (r, Status(500))
           case AuthDenied => (r, Status(403))
           case AuthOk(_) =>
             (r.(lobbies := s.lobbies[sid.value := s.lobbies[sid.value].(listed := q.shown)]), Done)
  }

  function JoinStep(s: State, now: real, q: Request): (State, Reply)
    requires q.Join?
  {
    var r := s.(rate := RateAfter(s.rate, q.ip, JoinClass, now));
    if !RateAccepts(s.rate, q.ip, JoinClass, now) then (r, Status(429))
    else if q.lobby.None? then (r, Status(400))
    else
      var sid := Resolve(s, q.lobby.value);
      if sid.None? then (r, Status(404))
      else (r, Admission(s.lobbies[sid.value].info, q.peer))
  }

  /** What a joiner is told about a lobby. */
  function Admission(info: Info, peer: string): Reply {
    if info.conn.Direct? && info.directPort != 0 then JoinDirect(info.ip, info.directPort)
    else JoinP2P(info.sessionId, peer, info.hostIdentity)
  }

  function Public(lo: Lobby, now: real): PublicRow {
    PublicRow(lo.info.lobbyId, lo.info.name, lo.info.version, lo.info.game, lo.info.proto, lo.info.world,
              lo.info.locked, lo.playersCur, lo.info.playersMax, Truncate(now - lo.lastSeen), lo.info.conn)
  }

  function Truncate(x: real): int { if x >= 0.0 then x.Floor else -((-x).Floor) }

  function BuildRows(lobbies: Table, now: real): set<PublicRow> {
    set sid | sid in lobbies && lobbies[sid].listed :: Public(lobbies[sid], now)
  }

  function OfVersion(rows: set<PublicRow>, version: string): set<PublicRow> {
    set r | r in rows && r.version == version
  }

  /** A listing of rows as asked for: all of them, or one version's. */
  function Filtered(rows: set<PublicRow>, version: string): Body {
    if version == "" then Listing(rows) else Listing(OfVersion(rows, version))
  }

  predicate Rebuilds(s: State, now: real) { now - s.cache.t >= LOBBIES_CACHE_TTL }

  function ListStep(s: State, now: real, q: Request): (State, Reply)
    requires q.List?
  {
    var rows := BuildRows(s.lobbies, now);
    var t := if Rebuilds(s, now) then s.(cache := Cache(now, rows, Listing(rows))) else s;
    (t, Rows(if q.version == "" then t.cache.allBody else Listing(OfVersion(t.cache.rows, q.version))))
  }

  predicate Expired(lo: Lobby, now: real) { now - lo.lastSeen > LOBBY_TTL }

  predicate AgedOut(bucket: seq<real>, cutoff: real) {
    bucket == [] || bucket[|bucket| - 1] < cutoff
  }

  function SweepStep(s: State, now: real): State {
    var dead := set sid | sid in s.lobbies && Expired(s.lobbies[sid], now);
    var stale := set k | k in s.rate && AgedOut(s.rate[k], now - RATE_WINDOW);
    State(s.lobbies - dead,
          s.byPublic - PublicIds(s.lobbies, dead),
          s.rate - stale, s.cache)
  }

  /** The event is possible: its fresh ids are new to the tables and not empty. */
  predicate Enabled(s: State, q: Request) {
    q.Host? ==>
      && q.ids.session !in s.lobbies && q.ids.lobby !in s.byPublic && q.ids.session != ""
      && Ascii(q.ids.token)
  }

  ghost predicate Step(s: State, e: Event, t: State, reply: Reply) {
    match e.req
    case Host(_, _, _) => exists m :: HostStep(s, e.at, e.req, m, t, reply)
    case Heartbeat(_, _, _, _, _) => (t, reply) == HeartbeatStep(s, e.at, e.req)
    case Leave(_, _, _) => (t, reply) == LeaveStep(s, e.at, e.req)
    case Visibility(_, _, _, _) => (t, reply) == VisibilityStep(s, e.at, e.req)
    case Join(_, _, _) => (t, reply) == JoinStep(s, e.at, e.req)
    case List(_) => (t, reply) == ListStep(s, e.at, e.req)
    case Sweep => t == SweepStep(s, e.at) && reply == Swept
  }

  // ----- what every step keeps -----

  /** The public index is exactly the inverse of the session table. */
  ghost predicate Inverse(s: State) {
    && (forall sid :: sid in s.lobbies ==>
          && s.lobbies[sid].info.sessionId == sid && sid != ""
          && s.lobbies[sid].info.lobbyId in s.byPublic
          && s.byPublic[s.lobbies[sid].info.lobbyId] == sid)
    && (forall pub :: pub in s.byPublic ==>
          && s.byPublic[pub] in s.lobbies
          && s.lobbies[s.byPublic[pub]].info.lobbyId == pub)
  }

  ghost predicate GoodLobby(lo: Lobby, now: real) {
    && 0 <= lo.playersCur <= lo.info.playersMax && 1 <= lo.info.playersMax <= 4
    && 0 <= lo.info.proto <= 65535
    && (lo.info.conn.Direct? <==> 1024 <= lo.info.directPort <= 65535)
    && (lo.info.conn.P2P? ==> lo.info.directPort == 0)
    && lo.lastSeen <= now && Ascii(lo.info.token)
  }

  ghost predicate Caps(s: State) {
    && |s.lobbies| <= MAX_LOBBIES_GLOBAL
    && forall ip: string :: |OfIp(s.lobbies, ip)| <= MAX_LOBBIES_PER_IP
  }

  ghost predicate AllGood(s: State, now: real) {
    forall sid :: sid in s.lobbies ==> GoodLobby(s.lobbies[sid], now)
  }

  ghost predicate Inv(s: State, now: real) { Inverse(s) && Caps(s) && AllGood(s, now) }

  lemma InitInv(now: real)
    ensures Inv(INIT, now)
  {
    assert forall ip: string :: OfIp(INIT.lobbies, ip) == {};
  }

  lemma SubsetSize<T>(a: set<T>, b: set<T>)
    requires a <= b
    ensures |a| <= |b|
  {
    assert b == a + (b - a);
  }

  ghost predicate Without(s: State, t: State, gone: set<string>) {
    && gone <= s.lobbies.Keys && t.lobbies == s.lobbies - gone
    && t.byPublic == s.byPublic - PublicIds(s.lobbies, gone)
  }

  lemma RemovalKeepsInverse(s: State, t: State, gone: set<string>)
    requires Inverse(s) && Without(s, t, gone)
    ensures Inverse(t)
  {
    forall sid | sid in t.lobbies ensures s.lobbies[sid].info.lobbyId in t.byPublic {
      var pub := s.lobbies[sid].info.lobbyId;
      assert forall other :: other in gone && s.lobbies[other].info.lobbyId == pub ==> other == sid;
    }
    forall pub | pub in t.byPublic ensures t.byPublic[pub] in t.lobbies {
      assert s.lobbies[s.byPublic[pub]].info.lobbyId == pub;
    }
  }

  lemma FewerKeepsCaps(s: State, t: State)
    requires Caps(s) && t.lobbies.Keys <= s.lobbies.Keys
    requires forall sid :: sid in t.lobbies ==> t.lobbies[sid].info == s.lobbies[sid].info
    ensures Caps(t)
  {
    SubsetSize(t.lobbies.Keys, s.lobbies.Keys);
    forall ip: string ensures |OfIp(t.lobbies, ip)| <= MAX_LOBBIES_PER_IP {
      SubsetSize(OfIp(t.lobbies, ip), OfIp(s.lobbies, ip));
    }
  }

  /** Removing lobbies together with their index entries keeps everything. */
  lemma RemovalKeepsInv(s: State, t: State, gone: set<string>, now: real, later: real)
    requires Inv(s, now) && now <= later && Without(s, t, gone)
    ensures Inv(t, later)
  {
    RemovalKeepsInverse(s, t, gone);
    FewerKeepsCaps(s, t);
  }

  /** Touching only the rate buckets and the cache keeps everything. */
  lemma QuietKeepsInv(s: State, t: State, now: real, later: real)
    requires Inv(s, now) && now <= later && t.lobbies == s.lobbies && t.byPublic == s.byPublic
    ensures Inv(t, later)
  {
  }

  /** Updating a lobby's changing fields keeps everything. */
  lemma UpdateKeepsInv(s: State, t: State, sid: string, lo: Lobby, now: real, later: real)
    requires Inv(s, now) && now <= later && sid in s.lobbies
    requires lo.info == s.lobbies[sid].info && GoodLobby(lo, later)
    requires t.lobbies == s.lobbies[sid := lo] && t.byPublic == s.byPublic
    ensures Inv(t, later)
  {
    assert t.lobbies.Keys == s.lobbies.Keys;
    FewerKeepsCaps(s, t);
  }

  lemma EvictionRemoves(s: State, m: State)
    requires Evicted(s, m)
    ensures Without(s, m, s.lobbies.Keys - m.lobbies.Keys)
  {
  }

  lemma RegisterKeepsInverse(m: State, info: Info, now: real)
    requires Inverse(m)
    requires info.sessionId !in m.lobbies && info.lobbyId !in m.byPublic && info.sessionId != ""
    ensures Inverse(Register(m, info, now))
  {
  }

  lemma OfIpAfterInsert(lobbies: Table, sid: string, lo: Lobby, ip: string)
    requires sid !in lobbies
    ensures OfIp(lobbies[sid := lo], ip) == OfIp(lobbies, ip) + (if ip == lo.info.ip then {sid} else {})
    ensures sid !in OfIp(lobbies, ip)
  {
  }

  lemma InsertSizes(lobbies: Table, sid: string, lo: Lobby, ip: string)
    requires sid !in lobbies
    ensures |lobbies[sid := lo]| == |lobbies| + 1
    ensures |OfIp(lobbies[sid := lo], ip)| == |OfIp(lobbies, ip)| + if ip == lo.info.ip then 1 else 0
  {
    hide OfIp;
    assert lobbies[sid := lo].Keys == lobbies.Keys + {sid};
    OfIpAfterInsert(lobbies, sid, lo, ip);
  }

  lemma RegisterKeepsCaps(m: State, info: Info, now: real)
    requires Caps(m) && |m.lobbies| < MAX_LOBBIES_GLOBAL && |OfIp(m.lobbies, info.ip)| < MAX_LOBBIES_PER_IP
    requires info.sessionId !in m.lobbies
    ensures Caps(Register(m, info, now))
  {
    hide OfIp;
    forall ip: string ensures |OfIp(Register(m, info, now).lobbies, ip)| <= MAX_LOBBIES_PER_IP {
      InsertSizes(m.lobbies, info.sessionId, Lobby(info, 1, true, now), ip);
    }
    InsertSizes(m.lobbies, info.sessionId, Lobby(info, 1, true, now), info.ip);
  }

  lemma AnnouncedIsGood(ip: string, b: HostBody, ids: Ids, now: real)
    requires Ascii(ids.token) && ReadAnnounce(ip, b, ids).Fine?
    ensures GoodLobby(Lobby(ReadAnnounce(ip, b, ids).info, 1, true, now), now)
  {
  }

  lemma RegisterKeepsInv(m: State, info: Info, now: real)
    requires Inv(m, now) && |m.lobbies| < MAX_LOBBIES_GLOBAL && |OfIp(m.lobbies, info.ip)| < MAX_LOBBIES_PER_IP
    requires info.sessionId !in m.lobbies && info.lobbyId !in m.byPublic && info.sessionId != ""
    requires GoodLobby(Lobby(info, 1, true, now), now)
    ensures Inv(Register(m, info, now), now)
  {
    RegisterKeepsInverse(m, info, now);
    RegisterKeepsCaps(m, info, now);
  }

  lemma EvictionKeepsInv(r: State, m: State, now: real, ip: string)
    requires Inv(r, now) && Evicted(r, m)
    ensures Inv(m, now) && |m.lobbies| < MAX_LOBBIES_GLOBAL && |OfIp(m.lobbies, ip)| <= |OfIp(r.lobbies, ip)|
  {
    EvictionRemoves(r, m);
    RemovalKeepsInv(r, m, r.lobbies.Keys - m.lobbies.Keys, now, now);
    SubsetSize(OfIp(m.lobbies, ip), OfIp(r.lobbies, ip));
  }

  lemma AcceptedHostKeepsInv(r: State, m: State, now: real, q: Request)
    requires Inv(r, now) && q.Host? && Evicted(r, m) && |OfIp(r.lobbies, q.ip)| < MAX_LOBBIES_PER_IP
    requires Enabled(r, q)
    ensures Inv(m, now)
    ensures var a := ReadAnnounce(q.ip, q.body, q.ids); a.Fine? ==> Inv(Register(m, a.info, now), now)
  {
    EvictionKeepsInv(r, m, now, q.ip);
    var a := ReadAnnounce(q.ip, q.body, q.ids);
    if a.Fine? {
      AnnouncedIsGood(q.ip, q.body, q.ids, now);
      RegisterKeepsInv(m, a.info, now);
    }
  }

  lemma HostKeepsInv(s: State, m: State, e: Event, t: State, reply: Reply, now: real)
    requires Inv(s, now) && now <= e.at && e.req.Host? && Enabled(s, e.req)
    requires HostStep(s, e.at, e.req, m, t, reply)
    ensures Inv(t, e.at)
  {
    hide Inv, RateAfter, RateAccepts, ReadAnnounce, Register, Evicted;
    var q := e.req;
    var r := s.(rate := RateAfter(s.rate, q.ip, Create, e.at));
    QuietKeepsInv(s, r, now, e.at);
    if RateAccepts(s.rate, q.ip, Create, e.at) && |OfIp(s.lobbies, q.ip)| < MAX_LOBBIES_PER_IP {
      AcceptedHostKeepsInv(r, m, e.at, q);
    }
  }

  lemma HeartbeatKeepsInv(s: State, e: Event, t: State, reply: Reply, now: real)
    requires Inv(s, now) && now <= e.at && e.req.Heartbeat? && (t, reply) == HeartbeatStep(s, e.at, e.req)
    ensures Inv(t, e.at)
  {
    var q := e.req;
    var r := s.(rate := RateAfter(s.rate, q.ip, Mutate, e.at));
    QuietKeepsInv(s, r, now, e.at);
    if reply.Alive? {
      var sid := AuthBySession(s.lobbies, q.session, q.token).sid;
      UpdateKeepsInv(r, t, sid, Beat(s.lobbies[sid], q.players, q.listed, e.at), e.at, e.at);
    }
  }

  lemma DropKeepsInv(s: State, sid: string, now: real)
    requires Inv(s, now) && sid in s.lobbies
    ensures Inv(Drop(s, sid), now)
  {
    assert PublicIds(s.lobbies, {sid}) == {s.lobbies[sid].info.lobbyId};
    RemovalKeepsInv(s, Drop(s, sid), {sid}, now, now);
  }

  lemma LeaveKeepsInv(s: State, e: Event, t: State, reply: Reply, now: real)
    requires Inv(s, now) && now <= e.at && e.req.Leave? && (t, reply) == LeaveStep(s, e.at, e.req)
    ensures Inv(t, e.at)
  {
    hide Inv, RateAfter, RateAccepts, CheckToken, Drop;
    var q := e.req;
    var r := s.(rate := RateAfter(s.rate, q.ip, Mutate, e.at));
    QuietKeepsInv(s, r, now, e.at);
    if reply.Done? {
      var sid := AuthBySession(s.lobbies, q.session, q.token).sid;
      DropKeepsInv(r, sid, e.at);
    }
  }

  lemma VisibilityKeepsInv(s: State, e: Event, t: State, reply: Reply, now: real)
    requires Inv(s, now) && now <= e.at && e.req.Visibility? && (t, reply) == VisibilityStep(s, e.at, e.req)
    ensures Inv(t, e.at)
  {
    var q := e.req;
    var r := s.(rate := RateAfter(s.rate, q.ip, Mutate, e.at));
    QuietKeepsInv(s, r, now, e.at);
    if reply.Done? {
      var sid := Resolve(s, q.lobby.value).value;
      UpdateKeepsInv(r, t, sid, s.lobbies[sid].(listed := q.shown), e.at, e.at);
    }
  }

  lemma SweepKeepsInv(s: State, at: real, t: State, now: real)
    requires Inv(s, now) && now <= at && t == SweepStep(s, at)
    ensures Inv(t, at)
  {
    var dead := set sid | sid in s.lobbies && Expired(s.lobbies[sid], at);
    RemovalKeepsInv(s, t, dead, now, at);
  }

  /** Every step keeps the invariant, rejected announces that evicted included. */
  lemma StepKeepsInv(s: State, e: Event, t: State, reply: Reply, now: real)
    requires Inv(s, now) && now <= e.at && Enabled(s, e.req) && Step(s, e, t, reply)
    ensures Inv(t, e.at)
  {
    hide Inv, HostStep, HeartbeatStep, LeaveStep, VisibilityStep, SweepStep, Enabled;
    match e.req
    case Host(_, _, _) =>
      var m :| HostStep(s, e.at, e.req, m, t, reply);
      HostKeepsInv(s, m, e, t, reply, now);
    case Heartbeat(_, _, _, _, _) => HeartbeatKeepsInv(s, e, t, reply, now);
    case Leave(_, _, _) => LeaveKeepsInv(s, e, t, reply, now);
    case Visibility(_, _, _, _) => VisibilityKeepsInv(s, e, t, reply, now);
    case Join(_, _, _) => QuietKeepsInv(s, t, now, e.at);
    case List(_) => QuietKeepsInv(s, t, now, e.at);
    case Sweep => SweepKeepsInv(s, e.at, t, now);
  }
}
