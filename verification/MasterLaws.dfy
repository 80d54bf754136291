/**
 * What the clients of tools/coop_master_server.py see over whole runs, said of requests and replies:
 * what an announce is told and publishes, what a joiner is told, what a listing shows and hides, who
 * may change a lobby, and the limits in numbers.
 */
module MasterLaws {
  import opened Results
  import opened MasterState
  import opened MasterRuns

  // ----- listings -----

  /** A live lobby of this public id is listed, and of the asked version if one is asked for. */
  ghost predicate IsListed(lobbies: Table, id: string, version: string) {
    exists sid :: sid in lobbies && ListedAs(lobbies[sid], id, version)
  }

  predicate ListedAs(lo: Lobby, id: string, version: string) {
    lo.listed && lo.info.lobbyId == id && (version == "" || lo.info.version == version)
  }

  /** The row tells the lobby's own fields and its whole seconds of silence. */
  predicate RowTells(r: PublicRow, lo: Lobby, now: real) {
    && r.lobbyId == lo.info.lobbyId && r.name == lo.info.name && r.version == lo.info.version
    && r.game == lo.info.game && r.proto == lo.info.proto && r.world == lo.info.world
    && r.locked == lo.info.locked && r.playersCur == lo.playersCur && r.playersMax == lo.info.playersMax
    && r.conn == lo.info.conn
    && 0 <= r.age && r.age as real <= now - lo.lastSeen < r.age as real + 1.0
  }

  ghost predicate HasRow(rows: set<PublicRow>, id: string) { exists r :: r in rows && r.lobbyId == id }

  lemma PublicTells(lo: Lobby, now: real)
    requires lo.lastSeen <= now
    ensures RowTells(Public(lo, now), lo, now)
  {
  }

  /** The rows of a walk, filtered: one for each listed lobby, and every row tells its lobby. */
  lemma RowsTell(s: State, now: real, version: string, id: string)
    requires Inv(s, now)
    ensures Filtered(BuildRows(s.lobbies, now), version).Listing?
    ensures var rows := Filtered(BuildRows(s.lobbies, now), version).rows;
      && (HasRow(rows, id) <==> IsListed(s.lobbies, id, version))
      && forall r :: r in rows ==> exists sid :: sid in s.lobbies && RowTells(r, s.lobbies[sid], now)
  {
    var rows := Filtered(BuildRows(s.lobbies, now), version).rows;
    forall r | r in rows
      ensures exists sid ::
        sid in s.lobbies && RowTells(r, s.lobbies[sid], now) && ListedAs(s.lobbies[sid], r.lobbyId, version)
    {
      var sid :| sid in s.lobbies && s.lobbies[sid].listed && r == Public(s.lobbies[sid], now);
      assert GoodLobby(s.lobbies[sid], now);
      PublicTells(s.lobbies[sid], now);
    }
    if IsListed(s.lobbies, id, version) {
      var sid :| sid in s.lobbies && ListedAs(s.lobbies[sid], id, version);
      var r := Public(s.lobbies[sid], now);
      assert r in BuildRows(s.lobbies, now);
      assert r in rows && r.lobbyId == id;
    }
  }

  /**
   * What a listing shows: at some moment less than 5 s ago, a row with a lobby's public id is in the
   * reply if and only if a live lobby with that id was listed, of the asked version if any; and every
   * row tells the fields of its lobby at that moment.
   */
  lemma ListingShows(run: Run, n: nat, id: string) returns (i: nat)
    requires run.Valid() && n < |run.events| && run.events[n].req.List? && run.events[n].at >= 5.0
    ensures i <= n && run.events[n].at - 5.0 < run.events[i].at <= run.events[n].at
    ensures run.replies[n].Rows? && run.replies[n].body.Listing?
    ensures var rows, lobbies := run.replies[n].body.rows, run.states[i].lobbies;
      && (HasRow(rows, id) <==> IsListed(lobbies, id, run.events[n].req.version))
      && forall r :: r in rows ==> exists sid :: sid in lobbies && RowTells(r, lobbies[sid], run.events[i].at)
  {
    hide Inv, BuildRows, Filtered, RowTells, IsListed, HasRow, Run.StepAt;
    i := ListingIsRecent(run, n);
    ReachableInv(run, i, run.events[i].at);
    RowsTell(run.states[i], run.events[i].at, run.events[n].req.version, id);
  }

  // ----- hiding -----

  /** The event may list the lobby: it is shown by its id, its session asks for it, or the id is announced. */
  predicate MayShow(e: Event, sid: string, id: string) {
    match e.req
    case Visibility(_, lobby, _, shown) => shown && lobby == Some(id)
    case Heartbeat(_, session, _, _, listed) => session == Some(sid) && listed == Some(true)
    case Host(_, _, ids) => ids.lobby == id
    case _ => false
  }

  /** No lobby with this public id but the one of this session, and that one hidden. */
  ghost predicate Hidden(lobbies: Table, sid: string, id: string) {
    forall k :: k in lobbies && lobbies[k].info.lobbyId == id ==> k == sid && !lobbies[k].listed
  }

  lemma HostKeepsHidden(s: State, e: Event, t: State, reply: Reply, sid: string, id: string)
    requires e.req.Host? && Enabled(s, e.req) && Step(s, e, t, reply) && Hidden(s.lobbies, sid, id)
    requires e.req.ids.lobby != id
    ensures Hidden(t.lobbies, sid, id)
  {
    hide Evicted, RateAfter, RateAccepts, Key, Bucket;
    var m := HostWitness(s, e, t, reply);
    HostShape(s, e.at, e.req, m, t, reply);
    FineIds(e.req.ip, e.req.body, e.req.ids);
    hide HostStep, Step, ReadAnnounce;
    forall k | k in t.lobbies && t.lobbies[k].info.lobbyId == id ensures k == sid && !t.lobbies[k].listed {
      HostNewcomer(s, e, t, reply, m, k);
    }
  }

  /** Whatever an announce put in the table is an old lobby or carries the announce's own ids. */
  lemma HostNewcomer(s: State, e: Event, t: State, reply: Reply, m: State, k: string)
    requires e.req.Host? && Enabled(s, e.req) && HostStep(s, e.at, e.req, m, t, reply) && k in t.lobbies
    ensures (k in s.lobbies && t.lobbies[k] == s.lobbies[k]) || t.lobbies[k].info.lobbyId == e.req.ids.lobby
  {
    hide RateAfter, RateAccepts, Key, Bucket;
    FineIds(e.req.ip, e.req.body, e.req.ids);
    hide ReadAnnounce;
  }

  /** A heartbeat, leave, or sweep changes other lobbies not at all, and shows none unasked. */
  lemma BeatKeepsHidden(s: State, now: real, q: Request, sid: string, id: string)
    requires q.Heartbeat? && Inverse(s) && Hidden(s.lobbies, sid, id)
    requires q.session == Some(sid) ==> q.listed != Some(true)
    ensures Hidden(HeartbeatStep(s, now, q).0.lobbies, sid, id)
  {
    hide RateAfter, RateAccepts, CheckToken, Inverse, ClampHigh;
    var r := s.(rate := RateAfter(s.rate, q.ip, Mutate, now));
    assert r.lobbies == s.lobbies;
    var a := AuthBySession(s.lobbies, q.session, q.token);
    if a.AuthOk? { AuthIsOwn(s.lobbies, q.session, q.token); }
  }

  /** Whoever is let in named the session and carried its token. */
  lemma AuthIsOwn(lobbies: Table, session: Option<string>, token: Option<string>)
    ensures var a := AuthBySession(lobbies, session, token);
      a.AuthOk? ==>
        session == Some(a.sid) && a.sid in lobbies && token == Some(lobbies[a.sid].info.token)
  {
  }

  lemma ShowKeepsHidden(s: State, now: real, q: Request, sid: string, id: string)
    requires q.Visibility? && Inverse(s) && Hidden(s.lobbies, sid, id) && !(q.shown && q.lobby == Some(id))
    ensures Hidden(VisibilityStep(s, now, q).0.lobbies, sid, id)
  {
    hide RateAfter, RateAccepts, CheckToken;
    var r := s.(rate := RateAfter(s.rate, q.ip, Mutate, now));
    assert r.lobbies == s.lobbies;
  }

  lemma LeaveShrinks(s: State, now: real, q: Request)
    requires q.Leave?
    ensures var t := LeaveStep(s, now, q).0;
      t.lobbies.Keys <= s.lobbies.Keys && forall k :: k in t.lobbies ==> t.lobbies[k] == s.lobbies[k]
  {
    hide RateAfter, RateAccepts, AuthBySession;
  }

  lemma QuietSteps(s: State, e: Event, t: State, reply: Reply)
    requires Step(s, e, t, reply) && (e.req.Join? || e.req.List?)
    ensures t.lobbies == s.lobbies
  {
    hide RateAfter, RateAccepts, BuildRows, Resolve, HostStep;
  }

  lemma StepKeepsHidden(s: State, e: Event, t: State, reply: Reply, sid: string, id: string)
    requires Enabled(s, e.req) && Step(s, e, t, reply) && Inverse(s) && Hidden(s.lobbies, sid, id)
    requires !MayShow(e, sid, id)
    ensures Hidden(t.lobbies, sid, id)
  {
    hide Inverse, HostStep, HeartbeatStep, LeaveStep, VisibilityStep, JoinStep, ListStep;
    match e.req
    case Host(_, _, _) => HostKeepsHidden(s, e, t, reply, sid, id);
    case Heartbeat(_, _, _, _, _) => BeatKeepsHidden(s, e.at, e.req, sid, id);
    case Leave(_, _, _) => LeaveShrinks(s, e.at, e.req);
    case Visibility(_, _, _, _) => ShowKeepsHidden(s, e.at, e.req, sid, id);
    case Join(_, _, _) => QuietSteps(s, e, t, reply);
    case List(_) => QuietSteps(s, e, t, reply);
    case Sweep =>
  }

  lemma {:induction false} StaysHidden(run: Run, i: nat, j: nat, sid: string, id: string)
    requires run.Valid() && i <= j <= |run.events| && Hidden(run.states[i].lobbies, sid, id)
    requires forall k :: i <= k < j ==> !MayShow(run.events[k], sid, id)
    ensures Hidden(run.states[j].lobbies, sid, id)
    decreases j
  {
    hide Hidden, MayShow, Step, Enabled, Inv, Inverse;
    if i < j {
      StaysHidden(run, i, j - 1, sid, id);
      assert run.StepAt(j - 1);
      ReachableInv(run, j - 1, run.events[j - 1].at);
      InvIsInverse(run.states[j - 1], run.events[j - 1].at);
      StepKeepsHidden(run.states[j - 1], run.events[j - 1], run.states[j], run.replies[j - 1], sid, id);
    }
  }

  lemma InvIsInverse(s: State, now: real)
    requires Inv(s, now)
    ensures Inverse(s)
  {
  }

  /** An accepted change to hidden hides the lobby, and nothing else in the table changes. */
  lemma HidesAtOnce(s: State, e: Event, t: State, sid: string)
    requires Inverse(s) && e.req.Visibility? && Step(s, e, t, Done) && sid in s.lobbies
    requires e.req.lobby == Some(s.lobbies[sid].info.lobbyId)
    ensures sid in t.lobbies && t.lobbies[sid] == s.lobbies[sid].(listed := e.req.shown)
    ensures t.lobbies.Keys == s.lobbies.Keys && forall k :: k in s.lobbies && k != sid ==> t.lobbies[k] == s.lobbies[k]
    ensures !e.req.shown ==> Hidden(t.lobbies, sid, s.lobbies[sid].info.lobbyId)
  {
    hide RateAfter, RateAccepts, Key, Bucket;
  }

  /**
   * A hidden lobby is not listed: from 5 s after an accepted change to hidden, no listing shows the
   * lobby until it is shown again, refreshed as listed, or its public id is announced anew.
   */
  lemma HiddenIsNotListed(run: Run, i: nat, n: nat, sid: string)
    requires run.Valid() && i < n < |run.events| && run.events[n].req.List?
    requires run.events[i].req.Visibility? && !run.events[i].req.shown && run.replies[i] == Done
    requires sid in run.states[i].lobbies && run.events[i].req.lobby == Some(run.states[i].lobbies[sid].info.lobbyId)
    requires forall k :: i < k < n ==> !MayShow(run.events[k], sid, run.states[i].lobbies[sid].info.lobbyId)
    requires run.events[n].at >= 5.0 && run.events[n].at - run.events[i].at >= 5.0
    ensures run.replies[n].Rows? && run.replies[n].body.Listing?
    ensures !HasRow(run.replies[n].body.rows, run.states[i].lobbies[sid].info.lobbyId)
  {
    hide Step, Enabled, Inv, Inverse, MayShow, RowTells, HasRow, IsListed;
    var id := run.states[i].lobbies[sid].info.lobbyId;
    var w := ListingShows(run, n, id);
    assert run.StepAt(i);
    ReachableInv(run, i, run.events[i].at);
    InvIsInverse(run.states[i], run.events[i].at);
    HidesAtOnce(run.states[i], run.events[i], run.states[i + 1], sid);
    assert i < w;
    StaysHidden(run, i + 1, w, sid, id);
    HiddenUnlisted(run.states[w].lobbies, sid, id, run.events[n].req.version);
  }

  lemma HiddenUnlisted(lobbies: Table, sid: string, id: string, version: string)
    requires Hidden(lobbies, sid, id)
    ensures !IsListed(lobbies, id, version)
  {
  }

  // ----- announces -----

  /** What an announce's numbers are read as: its own if it is a number, else this. */
  function NumberOr(j: JsonInt, other: int): int { if j.Val? then j.n else other }

  /** `n` is brought into a range: itself inside, the nearer end outside. */
  predicate Clamped(n: int, lo: int, hi: int, r: int) {
    lo <= r <= hi && (lo <= n <= hi ==> r == n) && (n < lo ==> r == lo) && (n > hi ==> r == hi)
  }

  /** The lobby that an announce publishes carries the announce's own fields. */
  predicate Carries(info: Info, q: Request)
    requires q.Host?
  {
    && info.sessionId == q.ids.session && info.lobbyId == q.ids.lobby && info.token == q.ids.token
    && info.hostIdentity == q.ids.host && info.ip == q.ip
    && info.name == (if q.body.name == "" then "VOTV Coop" else q.body.name)
    && info.version == q.body.version && info.game == q.body.game && info.world == q.body.world
    && info.locked == q.body.locked
    && Clamped(NumberOr(q.body.proto, 0), 0, 65535, info.proto)
    && Clamped(NumberOr(q.body.playersMax, 4), 1, 4, info.playersMax)
    && (if q.body.direct then info.conn == Direct && q.body.directPort == Val(info.directPort)
        else info.conn == P2P && info.directPort == 0)
  }

  /** A field of the announce that is read overflows. */
  predicate Overflows(b: HostBody) {
    b.proto.TooBig? || b.playersMax.TooBig? || (b.direct && b.directPort.TooBig?)
  }

  /** A direct announce names a port that it may not use, or none. */
  predicate PortRefused(b: HostBody) {
    b.direct && !(b.directPort.Val? && 1024 <= b.directPort.n <= 65535)
  }

  /** Nine lobbies of one address would be too many. */
  predicate Crowded(lobbies: Table, ip: string) { |OfIp(lobbies, ip)| >= 8 }

  /** Every announce is answered by its own merits, and an accepted one publishes what it said. */
  lemma AnnounceAnswer(run: Run, n: nat)
    requires run.Valid() && n < |run.events| && run.events[n].req.Host?
    ensures var s, e, reply := run.states[n], run.events[n], run.replies[n];
      if !AcceptedAt(s, e, e.req.ip, Create) || Crowded(s.lobbies, e.req.ip) then reply == Status(429)
      else if Overflows(e.req.body) then reply == Status(500)
      else if PortRefused(e.req.body) then reply == Status(400)
      else
        && reply.Hosted? && Carries(reply.info, e.req) && reply.info.sessionId in run.states[n + 1].lobbies
        && run.states[n + 1].lobbies[reply.info.sessionId] == Lobby(reply.info, 1, true, e.at)
    ensures !run.replies[n].Hosted? ==> forall k :: k in run.states[n + 1].lobbies ==>
      k in run.states[n].lobbies && run.states[n + 1].lobbies[k] == run.states[n].lobbies[k]
  {
    hide RateAfter, RateAccepts, Key, Bucket;
    assert run.StepAt(n);
    var m := HostWitness(run.states[n], run.events[n], run.states[n + 1], run.replies[n]);
  }

  // ----- who is told what -----

  /** Every live lobby was announced, and still is what that announce said. */
  lemma {:induction false} EveryLobbyWasAnnounced(run: Run, n: nat, sid: string) returns (i: nat)
    requires run.Valid() && n <= |run.events| && sid in run.states[n].lobbies
    ensures i < n && run.events[i].req.Host? && run.replies[i].Hosted?
    ensures run.replies[i].info == run.states[n].lobbies[sid].info && Carries(run.replies[i].info, run.events[i].req)
  {
    hide Step, Enabled, Inv, Inverse, Carries, AcceptedAt, Evicted;
    assert run.StepAt(n - 1);
    if sid in run.states[n - 1].lobbies {
      i := EveryLobbyWasAnnounced(run, n - 1, sid);
      ReachableInv(run, n - 1, run.events[n - 1].at);
      InvIsInverse(run.states[n - 1], run.events[n - 1].at);
      StepKeepsLobby(run.states[n - 1], run.events[n - 1], run.states[n], run.replies[n - 1], sid);
    } else {
      i := n - 1;
      OnlyHostsAdd(run.states[i], run.events[i], run.states[n], run.replies[i], sid);
      AnnounceAnswer(run, i);
    }
  }

  lemma OnlyHostsAdd(s: State, e: Event, t: State, reply: Reply, sid: string)
    requires Step(s, e, t, reply) && Enabled(s, e.req) && sid !in s.lobbies && sid in t.lobbies
    ensures e.req.Host? && reply.Hosted? && reply.info == t.lobbies[sid].info
  {
    hide HostStep, HeartbeatStep, LeaveStep, VisibilityStep, JoinStep, ListStep;
    match e.req
    case Host(_, _, _) =>
      var m := HostWitness(s, e, t, reply);
      KeysShrink(s, e, m, t, reply);
      HostAdds(s, e, m, t, reply, sid);
    case Heartbeat(_, _, _, _, _) => BeatKeepsKeys(s, e.at, e.req);
    case Leave(_, _, _) => LeaveShrinks(s, e.at, e.req);
    case Visibility(_, _, _, _) => ShowKeepsKeys(s, e.at, e.req);
    case Join(_, _, _) => QuietSteps(s, e, t, reply);
    case List(_) => QuietSteps(s, e, t, reply);
    case Sweep =>
  }

  lemma BeatKeepsKeys(s: State, now: real, q: Request)
    requires q.Heartbeat?
    ensures HeartbeatStep(s, now, q).0.lobbies.Keys == s.lobbies.Keys
  {
    hide RateAfter, RateAccepts, AuthBySession, Beat;
  }

  lemma ShowKeepsKeys(s: State, now: real, q: Request)
    requires q.Visibility?
    ensures VisibilityStep(s, now, q).0.lobbies.Keys == s.lobbies.Keys
  {
    hide RateAfter, RateAccepts, CheckToken;
  }

  lemma HostAdds(s: State, e: Event, m: State, t: State, reply: Reply, sid: string)
    requires e.req.Host? && HostStep(s, e.at, e.req, m, t, reply) && sid in t.lobbies && sid !in m.lobbies
    ensures reply.Hosted? && reply.info == t.lobbies[sid].info
  {
    hide RateAfter, RateAccepts, Evicted, ReadAnnounce;
  }

  lemma KeysShrink(s: State, e: Event, m: State, t: State, reply: Reply)
    requires e.req.Host? && HostStep(s, e.at, e.req, m, t, reply)
    ensures m.lobbies.Keys <= s.lobbies.Keys
  {
    hide RateAfter, RateAccepts, Key, Bucket, ReadAnnounce;
  }

  ghost predicate LiveId(lobbies: Table, id: string) { exists sid :: sid in lobbies && lobbies[sid].info.lobbyId == id }

  /** A public id resolves to the one live lobby that has it. */
  lemma ResolveFinds(s: State, id: string)
    requires Inverse(s)
    ensures Resolve(s, id).Some? <==> LiveId(s.lobbies, id)
    ensures var r := Resolve(s, id); r.Some? ==> r.value in s.lobbies && s.lobbies[r.value].info.lobbyId == id
    ensures forall sid :: sid in s.lobbies && s.lobbies[sid].info.lobbyId == id ==> Resolve(s, id) == Some(sid)
  {
  }

  lemma JoinIs(s: State, now: real, q: Request, sid: string)
    requires q.Join? && Inv(s, now) && sid in s.lobbies && q.lobby == Some(s.lobbies[sid].info.lobbyId)
    requires RateAccepts(s.rate, q.ip, JoinClass, now)
    ensures var info := s.lobbies[sid].info;
      JoinStep(s, now, q).1 == if info.conn == Direct then JoinDirect(info.ip, info.directPort)
                               else JoinP2P(info.sessionId, q.peer, info.hostIdentity)
  {
    hide RateAfter, RateAccepts, Resolve;
    ResolveFinds(s, q.lobby.value);
    assert GoodLobby(s.lobbies[sid], now);
  }

  lemma JoinFails(s: State, now: real, q: Request)
    requires q.Join? && Inverse(s)
    ensures var reply := JoinStep(s, now, q).1;
      && (!RateAccepts(s.rate, q.ip, JoinClass, now) ==> reply == Status(429))
      && (RateAccepts(s.rate, q.ip, JoinClass, now) && q.lobby.None? ==> reply == Status(400))
      && (RateAccepts(s.rate, q.ip, JoinClass, now) && q.lobby.Some? && !LiveId(s.lobbies, q.lobby.value) ==>
            reply == Status(404))
  {
    hide RateAfter, RateAccepts, Resolve;
    if q.lobby.Some? { ResolveFinds(s, q.lobby.value); }
  }

  /**
   * Every join is answered: 429 over the rate limit, 400 without an id, 404 if no live lobby has the id,
   * and otherwise by what the lobby's own announce said: the announcer's address and port if it was
   * direct, else its identities.
   */
  lemma JoinAnswer(run: Run, n: nat) returns (i: nat)
    requires run.Valid() && n < |run.events| && run.events[n].req.Join?
    ensures var s, e, reply := run.states[n], run.events[n], run.replies[n];
      if !AcceptedAt(s, e, e.req.ip, JoinClass) then reply == Status(429)
      else if e.req.lobby.None? then reply == Status(400)
      else if !LiveId(s.lobbies, e.req.lobby.value) then reply == Status(404)
      else
        && i < n && run.events[i].req.Host? && run.replies[i].Hosted?
        && e.req.lobby == Some(run.events[i].req.ids.lobby)
        && var host := run.events[i].req;
           if host.body.direct then reply.JoinDirect? && reply.ip == host.ip && host.body.directPort == Val(reply.port)
           else reply == JoinP2P(host.ids.session, e.req.peer, host.ids.host)
    ensures run.states[n + 1].lobbies == run.states[n].lobbies
  {
    hide Enabled, Inv, Inverse, JoinStep;
    var s, e := run.states[n], run.events[n];
    assert run.StepAt(n);
    ReachableInv(run, n, e.at);
    InvIsInverse(s, e.at);
    JoinFails(s, e.at, e.req);
    QuietSteps(s, e, run.states[n + 1], run.replies[n]);
    i := 0;
    if AcceptedAt(s, e, e.req.ip, JoinClass) && e.req.lobby.Some? && LiveId(s.lobbies, e.req.lobby.value) {
      var sid :| sid in s.lobbies && s.lobbies[sid].info.lobbyId == e.req.lobby.value;
      JoinIs(s, e.at, e.req, sid);
      i := EveryLobbyWasAnnounced(run, n, sid);
    }
  }

  // ----- what the owner may do -----

  /** Session and token are given and name a live lobby. */
  predicate NamesSession(lobbies: Table, session: Option<string>, token: Option<string>) {
    session.Some? && token.Some? && session.value in lobbies
  }

  lemma AuthIs(s: State, now: real, session: Option<string>, token: Option<string>)
    requires Inv(s, now)
    ensures AuthBySession(s.lobbies, session, token) ==
      if !NamesSession(s.lobbies, session, token) then AuthDenied
      else if !Ascii(token.value) then AuthRaises
      else if token.value != s.lobbies[session.value].info.token then AuthDenied
      else AuthOk(session.value)
  {
    if NamesSession(s.lobbies, session, token) { assert GoodLobby(s.lobbies[session.value], now); }
    hide Ascii;
  }

  /** The reply to a request that must carry a lobby's own token; `ok` when it does. */
  function OwnersReply(token: string, own: string, ok: Reply): Reply {
    if !Ascii(token) then Status(500) else if token != own then Status(403) else ok
  }

  /** Only this session's entry differs between the two tables, and both have it. */
  predicate OnlyChanges(before: Table, after: Table, sid: string) {
    sid in before && after.Keys == before.Keys && forall k :: k in before && k != sid ==> after[k] == before[k]
  }

  /** The player count a heartbeat leaves: the given one within the lobby's size, else the one before. */
  predicate CountAfter(players: JsonInt, before: Lobby, after: Lobby) {
    Clamped(NumberOr(players, before.playersCur), 0, before.info.playersMax, after.playersCur)
  }

  lemma BeatIs(s: State, now: real, q: Request)
    requires Inv(s, now) && q.Heartbeat? && RateAccepts(s.rate, q.ip, Mutate, now)
    ensures var (t, reply) := HeartbeatStep(s, now, q);
      if NamesSession(s.lobbies, q.session, q.token) then
        var lo := s.lobbies[q.session.value];
        && reply == OwnersReply(q.token.value, lo.info.token,
                                if q.players.TooBig? then Status(500) else Alive(lo.info.hostIdentity))
        && (reply.Alive? ==>
              && OnlyChanges(s.lobbies, t.lobbies, q.session.value)
              && var after := t.lobbies[q.session.value];
                 && after.info == lo.info && after.lastSeen == now && CountAfter(q.players, lo, after)
                 && after.listed == (if q.listed.Some? then q.listed.value else lo.listed))
        && (!reply.Alive? ==> t.lobbies == s.lobbies)
      else reply == Status(403) && t.lobbies == s.lobbies
  {
    hide RateAfter, RateAccepts, AuthBySession, Ascii, Inverse, Caps;
    AuthIs(s, now, q.session, q.token);
    var r := s.(rate := RateAfter(s.rate, q.ip, Mutate, now));
    assert r.lobbies == s.lobbies;
    if NamesSession(s.lobbies, q.session, q.token) { assert GoodLobby(s.lobbies[q.session.value], now); }
  }

  /**
   * A heartbeat is answered 429 over the limit, 403 without a live session and its own token, 500 for a
   * token that cannot be compared or a number that overflows, and else it sets time, players within the
   * lobby's size and visibility if given, of its own lobby alone.
   */
  lemma HeartbeatAnswer(run: Run, n: nat)
    requires run.Valid() && n < |run.events| && run.events[n].req.Heartbeat?
    ensures var s, t, e, q := run.states[n].lobbies, run.states[n + 1].lobbies, run.events[n], run.events[n].req;
      var reply := run.replies[n];
      if !AcceptedAt(run.states[n], e, q.ip, Mutate) then reply == Status(429) && t == s
      else if !NamesSession(s, q.session, q.token) then reply == Status(403) && t == s
      else
        var lo := s[q.session.value];
        && reply == OwnersReply(q.token.value, lo.info.token,
                                if q.players.TooBig? then Status(500) else Alive(lo.info.hostIdentity))
        && (!reply.Alive? ==> t == s)
        && (reply.Alive? ==>
              && OnlyChanges(s, t, q.session.value)
              && var after := t[q.session.value];
                 && after.info == lo.info && after.lastSeen == e.at && CountAfter(q.players, lo, after)
                 && after.listed == (if q.listed.Some? then q.listed.value else lo.listed))
  {
    hide Enabled, Inv, OnlyChanges, OwnersReply, HeartbeatAdmitted, RateAfter, RateAccepts, CountAfter;
    var s, e := run.states[n], run.events[n];
    assert run.StepAt(n);
    ReachableInv(run, n, e.at);
    if AcceptedAt(s, e, e.req.ip, Mutate) { BeatIs(s, e.at, e.req); }
  }

  lemma LeaveIs(s: State, now: real, q: Request)
    requires Inv(s, now) && q.Leave? && RateAccepts(s.rate, q.ip, Mutate, now)
    ensures var (t, reply) := LeaveStep(s, now, q);
      if NamesSession(s.lobbies, q.session, q.token) then
        && reply == OwnersReply(q.token.value, s.lobbies[q.session.value].info.token, Done)
        && t.lobbies == (if reply.Done? then s.lobbies - {q.session.value} else s.lobbies)
      else reply == Status(403) && t.lobbies == s.lobbies
  {
    hide RateAfter, RateAccepts, AuthBySession, Ascii, Inverse, Caps, AllGood;
    AuthIs(s, now, q.session, q.token);
    hide Inv;
  }

  /** A leave is answered likewise, and when it is done its own lobby is gone and no other. */
  lemma LeaveAnswer(run: Run, n: nat)
    requires run.Valid() && n < |run.events| && run.events[n].req.Leave?
    ensures var s, t, e, q := run.states[n].lobbies, run.states[n + 1].lobbies, run.events[n], run.events[n].req;
      var reply := run.replies[n];
      if !AcceptedAt(run.states[n], e, q.ip, Mutate) then reply == Status(429) && t == s
      else if !NamesSession(s, q.session, q.token) then reply == Status(403) && t == s
      else
        && reply == OwnersReply(q.token.value, s[q.session.value].info.token, Done)
        && t == (if reply.Done? then s - {q.session.value} else s)
  {
    hide Enabled, Inv, OwnersReply, AuthBySession, RateAfter, RateAccepts;
    var s, e := run.states[n], run.events[n];
    assert run.StepAt(n);
    ReachableInv(run, n, e.at);
    if AcceptedAt(s, e, e.req.ip, Mutate) { LeaveIs(s, e.at, e.req); }
  }

  lemma ShowIs(s: State, now: real, q: Request, sid: string)
    requires Inv(s, now) && q.Visibility? && RateAccepts(s.rate, q.ip, Mutate, now)
    requires q.token.Some? && sid in s.lobbies && q.lobby == Some(s.lobbies[sid].info.lobbyId)
    ensures var (t, reply) := VisibilityStep(s, now, q);
      && reply == OwnersReply(q.token.value, s.lobbies[sid].info.token, Done)
      && t.lobbies == (if reply.Done? then s.lobbies[sid := s.lobbies[sid].(listed := q.shown)] else s.lobbies)
  {
    hide RateAfter, RateAccepts, Ascii, Resolve;
    ResolveFinds(s, q.lobby.value);
    assert GoodLobby(s.lobbies[sid], now);
    hide Inv;
  }

  lemma ShowFails(s: State, now: real, q: Request)
    requires Inverse(s) && q.Visibility?
    ensures var (t, reply) := VisibilityStep(s, now, q);
      && (!RateAccepts(s.rate, q.ip, Mutate, now) ==> reply == Status(429) && t.lobbies == s.lobbies)
      && (RateAccepts(s.rate, q.ip, Mutate, now) && (q.lobby.None? || q.token.None?) ==>
            reply == Status(400) && t.lobbies == s.lobbies)
      && (RateAccepts(s.rate, q.ip, Mutate, now) && q.lobby.Some? && q.token.Some? ==>
            LiveId(s.lobbies, q.lobby.value) || (reply == Status(403) && t.lobbies == s.lobbies))
  {
    hide RateAfter, RateAccepts, Ascii, Resolve, CheckToken;
    if q.lobby.Some? { ResolveFinds(s, q.lobby.value); }
  }

  /** A visibility change names the lobby by its public id; when it is done it sets that flag alone. */
  lemma VisibilityAnswer(run: Run, n: nat, sid: string)
    requires run.Valid() && n < |run.events| && run.events[n].req.Visibility?
    ensures var s, t, e, q := run.states[n].lobbies, run.states[n + 1].lobbies, run.events[n], run.events[n].req;
      var reply := run.replies[n];
      if !AcceptedAt(run.states[n], e, q.ip, Mutate) then reply == Status(429) && t == s
      else if q.lobby.None? || q.token.None? then reply == Status(400) && t == s
      else if !LiveId(s, q.lobby.value) then reply == Status(403) && t == s
      else sid in s && s[sid].info.lobbyId == q.lobby.value ==>
        && reply == OwnersReply(q.token.value, s[sid].info.token, Done)
        && t == (if reply.Done? then s[sid := s[sid].(listed := q.shown)] else s)
  {
    hide Enabled, Inv, Inverse, OwnersReply, VisibilityStep, RateAfter, RateAccepts, LiveId;
    var s, e := run.states[n], run.events[n];
    assert run.StepAt(n);
    ReachableInv(run, n, e.at);
    InvIsInverse(s, e.at);
    ShowFails(s, e.at, e.req);
    if AcceptedAt(s, e, e.req.ip, Mutate) && e.req.token.Some? && sid in s.lobbies
       && e.req.lobby == Some(s.lobbies[sid].info.lobbyId) {
      ShowIs(s, e.at, e.req, sid);
    }
  }

  // ----- the limits in numbers -----

  /** In any 60 s one address gets at most 10 announces, 20 joins and 240 changes through. */
  lemma BurstsInNumbers(run: Run, n: nat, ip: string, c: Class, i: nat, j: nat)
    requires run.Valid() && n <= |run.events| && i <= j < |Accepted(run, n, ip, c)|
    requires Accepted(run, n, ip, c)[j] - Accepted(run, n, ip, c)[i] <= 60.0
    ensures j - i + 1 <= match c case Create => 10 case JoinClass => 20 case Mutate => 240
  {
    NoBurst(run, n, ip, c, i, j);
  }

  /** A sweep leaves exactly the lobbies heard of in the last 300 s. */
  lemma ExpiryInNumbers(run: Run, n: nat, sid: string)
    requires run.Valid() && n < |run.events| && run.events[n].req.Sweep?
    ensures sid in run.states[n + 1].lobbies
       <==> sid in run.states[n].lobbies && run.events[n].at - run.states[n].lobbies[sid].lastSeen <= 300.0
  {
    SweepLeavesFresh(run, n, sid);
  }

  /** Evicting from a full table removes one lobby, one silent the longest. */
  lemma EvictsOne(s: State, m: State) returns (gone: string)
    requires Evicted(s, m) && |s.lobbies| == 1000
    ensures gone in s.lobbies && m.lobbies.Keys == s.lobbies.Keys - {gone} && |m.lobbies| == 999
    ensures forall k :: k in s.lobbies ==> s.lobbies[gone].lastSeen <= s.lobbies[k].lastSeen
  {
    var out := s.lobbies.Keys - m.lobbies.Keys;
    DifferenceSize(s.lobbies.Keys, m.lobbies.Keys);
    gone :| gone in out;
    OneMember(out, gone);
    forall k | k in s.lobbies ensures s.lobbies[gone].lastSeen <= s.lobbies[k].lastSeen {
      if k !in m.lobbies { assert k in out; }
    }
  }

  lemma HostedShape(s: State, e: Event, m: State, t: State, reply: Reply)
    requires e.req.Host? && HostStep(s, e.at, e.req, m, t, reply) && reply.Hosted?
    ensures Evicted(s.(rate := RateAfter(s.rate, e.req.ip, Create, e.at)), m)
    ensures t.lobbies == m.lobbies[reply.info.sessionId := Lobby(reply.info, 1, true, e.at)]
    ensures reply.info.sessionId == e.req.ids.session
  {
    hide RateAfter, RateAccepts, Evicted;
    FineIds(e.req.ip, e.req.body, e.req.ids);
    hide ReadAnnounce;
  }

  /** An announce on a full server takes the place of exactly one lobby, one silent the longest. */
  lemma FullServerEvictsOne(run: Run, n: nat) returns (gone: string)
    requires run.Valid() && n < |run.events| && run.replies[n].Hosted? && |run.states[n].lobbies| == 1000
    ensures var s, t := run.states[n].lobbies, run.states[n + 1].lobbies;
      && gone in s && |t| == 1000 && t.Keys == s.Keys - {gone} + {run.replies[n].info.sessionId}
      && forall k :: k in s ==> s[gone].lastSeen <= s[k].lastSeen
  {
    hide RateAfter, RateAccepts, Evicted, HostStep;
    var s, e, t := run.states[n], run.events[n], run.states[n + 1];
    assert run.StepAt(n);
    HostedIsHost(s, e, t, run.replies[n]);
    var m := HostWitness(s, e, t, run.replies[n]);
    HostedShape(s, e, m, t, run.replies[n]);
    gone := EvictsOne(s.(rate := RateAfter(s.rate, e.req.ip, Create, e.at)), m);
    hide Step;
    assert e.req.ids.session !in s.lobbies;
    assert t.lobbies.Keys == m.lobbies.Keys + {run.replies[n].info.sessionId};
    assert |t.lobbies.Keys| == |m.lobbies.Keys| + 1;
  }

  lemma HostedIsHost(s: State, e: Event, t: State, reply: Reply)
    requires Step(s, e, t, reply) && reply.Hosted?
    ensures e.req.Host?
  {
  }

  lemma DifferenceSize<T>(a: set<T>, b: set<T>)
    requires b <= a
    ensures |a - b| == |a| - |b|
  {
  }

  lemma OneMember<T>(a: set<T>, x: T)
    requires |a| == 1 && x in a
    ensures a == {x}
  {
    assert |a - {x}| == 0;
  }
}
