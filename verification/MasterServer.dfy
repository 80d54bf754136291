/**
 * The master's module state and handlers as they update it in place. Every handler is proved to
 * be one step of the machine in MasterState.
 */
module MasterServer {
  import opened Results
  import opened MasterState

  /** A live lobby: what the announce fixed, and the three fields later requests overwrite. */
  class LobbyRecord {
    const info: Info
    var playersCur: int
    var listed: bool
    var lastSeen: real

    constructor (info: Info, playersCur: int, listed: bool, lastSeen: real)
      ensures View() == Lobby(info, playersCur, listed, lastSeen)
    {
      this.info, this.playersCur, this.listed, this.lastSeen := info, playersCur, listed, lastSeen;
    }

    function View(): (lo: Lobby)
      reads this
      ensures lo.info == info
    {
      Lobby(info, playersCur, listed, lastSeen)
    }
  }

  class Server {
    var lobbies: map<string, LobbyRecord>
    var byPublic: map<string, string>
    var rate: map<string, seq<real>>
    var cache: Cache

    /** What the records hold, and the records themselves, kept beside them. */
    ghost var table: Table
    ghost var records: set<LobbyRecord>

    /**
     * The table shows the records, and each record is filed under its own session id, so no two
     * entries share a record.
     */
    ghost predicate Valid()
      reads this, records
    {
      && table.Keys == lobbies.Keys
      && forall sid :: sid in lobbies ==>
           lobbies[sid] in records && lobbies[sid].info.sessionId == sid && lobbies[sid].View() == table[sid]
    }

    ghost function Abs(): State
      reads this
    {
      State(table, byPublic, rate, cache)
    }

    constructor ()
      ensures Valid() && Abs() == INIT
    {
      lobbies, byPublic, rate, cache := map[], map[], map[], Cache(0.0, {}, NoBytes);
      table, records := map[], {};
    }

    /** `rate_ok`: count the aged timestamps at the front, drop them, and admit under the limit. */
    method RateOk(ip: string, c: Class, now: real) returns (ok: bool)
      modifies this`rate
      ensures ok == RateAccepts(old(rate), ip, c, now)
      ensures Abs() == old(Abs()).(rate := RateAfter(old(rate), ip, c, now))
    {
      var key := Key(ip, c);
      var bucket := if key in rate then rate[key] else [];
      var cutoff := now - RATE_WINDOW;
      var i := 0;
      while i < |bucket| && bucket[i] < cutoff
        invariant 0 <= i <= |bucket|
        invariant Prune(bucket[i..], cutoff) == Prune(bucket, cutoff)
      {
        assert bucket[i..][1..] == bucket[i + 1..];
        i := i + 1;
      }
      bucket := bucket[i..];
      ok := |bucket| < Limit(c);
      if ok { bucket := bucket + [now]; }
      rate := rate[key := bucket];
    }

    /** `lobbies_per_ip`. */
    method LobbiesPerIp(ip: string) returns (n: nat)
      requires Valid()
      ensures n == |OfIp(table, ip)|
    {
      n := 0;
      var rest := lobbies.Keys;
      ghost var seen: set<string> := {};
      while rest != {}
        invariant rest <= lobbies.Keys
        invariant seen == set sid | sid in OfIp(table, ip) && sid !in rest
        invariant n == |seen|
        decreases |rest|
      {
        var sid :| sid in rest;
        rest := rest - {sid};
        if lobbies[sid].info.ip == ip {
          n := n + 1;
          seen := seen + {sid};
        }
      }
      assert seen == OfIp(table, ip);
    }

    /** `drop_lobby`. */
    method DropLobby(lo: LobbyRecord)
      requires Valid() && lo.info.sessionId in lobbies && lobbies[lo.info.sessionId] == lo
      modifies this`lobbies, this`byPublic, this`table
      ensures Valid()
      ensures Abs() == Drop(old(Abs()), lo.info.sessionId)
    {
      lobbies := lobbies - {lo.info.sessionId};
      byPublic := byPublic - {lo.info.lobbyId};
      table := table - {lo.info.sessionId};
    }

    /** The record with the least `last_seen`; ties go to whichever the walk meets first. */
    method Stalest() returns (lo: LobbyRecord)
      requires Valid() && |lobbies| > 0
      ensures lo.info.sessionId in lobbies && lobbies[lo.info.sessionId] == lo
      ensures forall sid :: sid in lobbies ==> lo.lastSeen <= lobbies[sid].lastSeen
    {
      var rest := lobbies.Keys;
      var first :| first in rest;
      rest := rest - {first};
      lo := lobbies[first];
      while rest != {}
        invariant rest <= lobbies.Keys && lo.info.sessionId in lobbies && lobbies[lo.info.sessionId] == lo
        invariant forall sid :: sid in lobbies && sid !in rest ==> lo.lastSeen <= lobbies[sid].lastSeen
        decreases |rest|
      {
        var sid :| sid in rest;
        rest := rest - {sid};
        if lobbies[sid].lastSeen < lo.lastSeen { lo := lobbies[sid]; }
      }
    }

    /** `evict_if_full`. */
    method EvictIfFull()
      requires Valid()
      modifies this`lobbies, this`byPublic, this`table
      ensures Valid()
      ensures Evicted(old(Abs()), Abs())
    {
      ghost var s := Abs();
      NothingEvicted(s);
      assert |table.Keys| == |lobbies.Keys|;
      while |lobbies| >= MAX_LOBBIES_GLOBAL
        invariant Valid()
        invariant PartlyEvicted(s, Abs()) && |table| == |lobbies|
        decreases |table|
      {
        ghost var before := Abs();
        var stalest := Stalest();
        DropLobby(stalest);
        EvictOneMore(s, before, stalest.info.sessionId);
        RemoveOne(before.lobbies, stalest.info.sessionId);
        assert |table.Keys| == |lobbies.Keys|;
      }
      EvictionDone(s, Abs());
    }

    /** Overwrites the changing fields of one record; every other lobby is as it was. */
    method Overwrite(sid: string, playersCur: int, listed: bool, lastSeen: real)
      requires Valid() && sid in lobbies
      modifies lobbies[sid], this`table
      ensures Valid()
      ensures Abs() == old(Abs()).(lobbies := old(table)[sid := Lobby(lobbies[sid].info, playersCur, listed, lastSeen)])
    {
      var lo := lobbies[sid];
      lo.playersCur := playersCur;
      lo.listed := listed;
      lo.lastSeen := lastSeen;
      table := table[sid := Lobby(lo.info, playersCur, listed, lastSeen)];
    }

    /** Files a new lobby in both tables. */
    method Insert(info: Info, now: real)
      requires Valid()
      modifies this`lobbies, this`byPublic, this`table, this`records
      ensures Valid() && fresh(records - old(records))
      ensures Abs() == Register(old(Abs()), info, now)
    {
      var lo := new LobbyRecord(info, 1, true, now);
      lobbies := lobbies[info.sessionId := lo];
      byPublic := byPublic[info.lobbyId := info.sessionId];
      table := table[info.sessionId := Lobby(info, 1, true, now)];
      records := records + {lo};
    }

    // ----- the request handlers -----

    /** The rest of an announce once the limits have let it through. */
    method AdmitHost(ip: string, body: HostBody, ids: Ids, now: real) returns (reply: Reply, ghost m: State)
      requires Valid()
      modifies this`lobbies, this`byPublic, this`table, this`records
      ensures Valid() && fresh(records - old(records))
      ensures HostAdmitted(old(Abs()), now, Host(ip, body, ids), m, Abs(), reply)
    {
      EvictIfFull();
      m := Abs();
      var a := ReadAnnounce(ip, body, ids);
      match a {
        case Raises => reply := Status(500);
        case BadPort => reply := Status(400);
        case Fine(info) =>
          Insert(info, now);
          reply := Hosted(info);
      }
    }

    /** `h_host`. */
    method HandleHost(ip: string, body: HostBody, ids: Ids, now: real) returns (reply: Reply)
      requires Valid() && Enabled(Abs(), Host(ip, body, ids))
      modifies this
      ensures Valid() && fresh(records - old(records))
      ensures exists m :: HostStep(old(Abs()), now, Host(ip, body, ids), m, Abs(), reply)
    {
      hide HostAdmitted, RateAfter, RateAccepts;
      ghost var s, q := Abs(), Host(ip, body, ids);
      var ok := RateOk(ip, Create, now);
      var mine := LobbiesPerIp(ip);
      if !ok || mine >= MAX_LOBBIES_PER_IP {
        reply := Status(429);
        assert HostStep(s, now, q, s, Abs(), reply);
      } else {
        ghost var m;
        reply, m := AdmitHost(ip, body, ids, now);
        assert HostStep(s, now, q, m, Abs(), reply);
      }
    }

    /** `_auth_by_session`. */
    method Authenticate(session: Option<string>, token: Option<string>) returns (a: Auth)
      requires Valid()
      ensures a == AuthBySession(table, session, token)
    {
      if session.None? || token.None? { return AuthDenied; }
      if session.value !in lobbies { return AuthDenied; }
      var held := lobbies[session.value].info.token;
      if !Ascii(token.value) || !Ascii(held) { return AuthRaises; }
      if token.value != held { return AuthDenied; }
      return AuthOk(session.value);
    }

    /** The accepted part of a heartbeat: count clamped to the lobby's size, visibility if given, time. */
    method BeatRecord(sid: string, players: JsonInt, shown: Option<bool>, now: real)
      requires Valid() && sid in lobbies
      modifies lobbies[sid], this`table
      ensures Valid()
      ensures Abs() == old(Abs()).(lobbies := old(table)[sid := Beat(old(table)[sid], players, shown, now)])
      ensures lobbies[sid].info == old(table)[sid].info
    {
      var lo := lobbies[sid];
      var pc := if players.Val? then players.n else lo.playersCur;
      Overwrite(sid, ClampHigh(pc, lo.info.playersMax), if shown.Some? then shown.value else lo.listed, now);
    }

    method AdmitHeartbeat(ip: string, session: Option<string>, token: Option<string>,
                          players: JsonInt, shown: Option<bool>, now: real) returns (reply: Reply)
      requires Valid()
      modifies this`table, records
      ensures Valid()
      ensures (Abs(), reply) == HeartbeatAdmitted(old(Abs()), now, Heartbeat(ip, session, token, players, shown))
    {
      var a := Authenticate(session, token);
      match a {
        case AuthRaises => reply := Status(500);
        case AuthDenied => reply := Status(403);
        case AuthOk(sid) =>
          if players.TooBig? {
            reply := Status(500);
          } else {
            BeatRecord(sid, players, shown, now);
            reply := Alive(lobbies[sid].info.hostIdentity);
          }
      }
    }

    /** `h_heartbeat`. */
    method HandleHeartbeat(ip: string, session: Option<string>, token: Option<string>,
                           players: JsonInt, shown: Option<bool>, now: real) returns (reply: Reply)
      requires Valid()
      modifies this`rate, this`table, records
      ensures Valid()
      ensures (Abs(), reply) == HeartbeatStep(old(Abs()), now, Heartbeat(ip, session, token, players, shown))
    {
      var ok := RateOk(ip, Mutate, now);
      if ok {
        reply := AdmitHeartbeat(ip, session, token, players, shown, now);
      } else {
        reply := Status(429);
      }
    }

    /** `h_leave`. */
    method HandleLeave(ip: string, session: Option<string>, token: Option<string>, now: real)
        returns (reply: Reply)
      requires Valid()
      modifies this
      ensures Valid()
      ensures (Abs(), reply) == LeaveStep(old(Abs()), now, Leave(ip, session, token))
    {
      var ok := RateOk(ip, Mutate, now);
      if !ok { return Status(429); }
      var a := Authenticate(session, token);
      match a {
        case AuthRaises => return Status(500);
        case AuthDenied => return Status(403);
        case AuthOk(sid) =>
          DropLobby(lobbies[sid]);
          return Done;
      }
    }

    /** The table lookup shared by visibility and join. */
    method Lookup(pub: string) returns (lo: LobbyRecord?)
      requires Valid()
      ensures lo == null <==> Resolve(Abs(), pub).None?
      ensures lo != null ==> lo.info.sessionId in lobbies && lobbies[lo.info.sessionId] == lo
      ensures lo != null ==> Resolve(Abs(), pub) == Some(lo.info.sessionId)
    {
      if pub in byPublic && byPublic[pub] != "" && byPublic[pub] in lobbies {
        return lobbies[byPublic[pub]];
      }
      return null;
    }

    /** `h_visibility`. */
    method HandleVisibility(ip: string, lobby: Option<string>, token: Option<string>, shown: bool, now: real)
        returns (reply: Reply)
      requires Valid()
      modifies this`rate, this`table, records
      ensures Valid() && lobbies == old(lobbies)
      ensures (Abs(), reply) == VisibilityStep(old(Abs()), now, Visibility(ip, lobby, token, shown))
    {
      ghost var s := Abs();
      var ok := RateOk(ip, Mutate, now);
      if !ok { return Status(429); }
      if lobby.None? || token.None? { return Status(400); }
      var lo := Lookup(lobby.value);
      if lo == null { return Status(403); }
      if !Ascii(token.value) || !Ascii(lo.info.token) { return Status(500); }
      if token.value != lo.info.token { return Status(403); }
      Overwrite(lo.info.sessionId, lo.playersCur, shown, lo.lastSeen);
      return Done;
    }

    /** `h_join`. */
    method HandleJoin(ip: string, lobby: Option<string>, peer: string, now: real) returns (reply: Reply)
      requires Valid()
      modifies this`rate
      ensures Valid()
      ensures (Abs(), reply) == JoinStep(old(Abs()), now, Join(ip, lobby, peer))
    {
      var ok := RateOk(ip, JoinClass, now);
      if !ok { return Status(429); }
      if lobby.None? { return Status(400); }
      var lo := Lookup(lobby.value);
      if lo == null { return Status(404); }
      if lo.info.conn == Direct && lo.info.directPort != 0 {
        return JoinDirect(lo.info.ip, lo.info.directPort);
      }
      return JoinP2P(lo.info.sessionId, peer, lo.info.hostIdentity);
    }

    /** `_build_rows`: one walk of the live table. */
    method WalkRows(now: real) returns (rows: set<PublicRow>)
      requires Valid()
      ensures rows == BuildRows(table, now)
    {
      rows := {};
      var rest := lobbies.Keys;
      while rest != {}
        invariant rest <= lobbies.Keys
        invariant rows == set sid | sid in lobbies && sid !in rest && lobbies[sid].listed ::
                            Public(lobbies[sid].View(), now)
        decreases |rest|
      {
        var sid :| sid in rest;
        rest := rest - {sid};
        var lo := lobbies[sid];
        if lo.listed { rows := rows + {Public(lo.View(), now)}; }
      }
    }

    /** `h_lobbies`. */
    method HandleList(version: string, now: real) returns (reply: Reply)
      requires Valid()
      modifies this`cache
      ensures Valid()
      ensures (Abs(), reply) == ListStep(old(Abs()), now, List(version))
    {
      if now - cache.t >= LOBBIES_CACHE_TTL {
        var rows := WalkRows(now);
        cache := Cache(now, rows, Listing(rows));
      }
      if version == "" { return Rows(cache.allBody); }
      return Rows(Listing(set r | r in cache.rows && r.version == version));
    }

    /** Drops every lobby of a set. */
    method DropAll(dead: set<string>)
      requires Valid() && dead <= lobbies.Keys
      modifies this`lobbies, this`byPublic, this`table
      ensures Valid()
      ensures Abs() == old(Abs()).(lobbies := old(table) - dead,
                                   byPublic := old(byPublic) - PublicIds(old(table), dead))
    {
      hide PublicIds;
      ghost var s := Abs();
      var rest := dead;
      DroppedNone(s);
      assert dead - rest == {};
      while rest != {}
        invariant Valid() && rest <= dead
        invariant DroppedSoFar(s, Abs(), dead - rest)
        decreases |rest|
      {
        var sid :| sid in rest;
        DroppedOneMore(s, Abs(), dead - rest, sid);
        assert dead - (rest - {sid}) == dead - rest + {sid};
        DropLobby(lobbies[sid]);
        rest := rest - {sid};
      }
      assert dead - rest == dead;
    }

    /** One pass of the sweeper's loop body. */
    method RunSweep(now: real)
      requires Valid()
      modifies this`lobbies, this`byPublic, this`table, this`rate
      ensures Valid()
      ensures Abs() == SweepStep(old(Abs()), now)
    {
      hide PublicIds, AgedOut, Drop;
      ghost var s := Abs();
      var dead := set sid | sid in lobbies && now - lobbies[sid].lastSeen > LOBBY_TTL;
      assert dead == set sid | sid in s.lobbies && Expired(s.lobbies[sid], now);
      DropAll(dead);
      PruneBuckets(now);
    }

    /** Forgets the buckets whose timestamps have all aged out. */
    method PruneBuckets(now: real)
      requires Valid()
      modifies this`rate
      ensures Valid()
      ensures Abs() == old(Abs()).(rate := rate) && lobbies == old(lobbies)
      ensures rate == old(rate) - set k | k in old(rate) && AgedOut(old(rate)[k], now - RATE_WINDOW)
    {
      hide AgedOut;
      var stale := set k | k in rate && AgedOut(rate[k], now - RATE_WINDOW);
      rate := rate - stale;
    }
  }

  ghost predicate DroppedSoFar(s: State, m: State, gone: set<string>) {
    && gone <= s.lobbies.Keys
    && m == s.(lobbies := s.lobbies - gone, byPublic := s.byPublic - PublicIds(s.lobbies, gone))
  }

  lemma DroppedNone(s: State)
    ensures DroppedSoFar(s, s, {})
  {
    assert PublicIds(s.lobbies, {}) == {};
  }

  lemma OneMoreId(lobbies: Table, gone: set<string>, sid: string)
    requires sid in lobbies && gone <= lobbies.Keys
    ensures PublicIds(lobbies, gone + {sid}) == PublicIds(lobbies, gone) + {lobbies[sid].info.lobbyId}
  {
  }

  lemma DroppedOneMore(s: State, m: State, gone: set<string>, sid: string)
    requires sid in s.lobbies && sid !in gone && DroppedSoFar(s, m, gone)
    ensures DroppedSoFar(s, Drop(m, sid), gone + {sid})
  {
    hide PublicIds;
    OneMoreId(s.lobbies, gone, sid);
    assert s.lobbies - gone - {sid} == s.lobbies - (gone + {sid});
  }

  /** The eviction loop's progress: all of `Evicted` but the final size. */
  ghost predicate PartlyEvicted(s: State, m: State) {
    && m.rate == s.rate && m.cache == s.cache
    && m.lobbies.Keys <= s.lobbies.Keys
    && (forall sid :: sid in m.lobbies ==> m.lobbies[sid] == s.lobbies[sid])
    && (forall gone, kept :: gone in s.lobbies && gone !in m.lobbies && kept in m.lobbies ==>
          s.lobbies[gone].lastSeen <= s.lobbies[kept].lastSeen)
    && (m.lobbies == s.lobbies || |m.lobbies| >= MAX_LOBBIES_GLOBAL - 1)
    && m.byPublic == s.byPublic - PublicIds(s.lobbies, s.lobbies.Keys - m.lobbies.Keys)
  }

  lemma RemoveOne<V>(m: map<string, V>, k: string)
    requires k in m
    ensures |m - {k}| == |m| - 1
  {
    assert m.Keys == (m - {k}).Keys + {k};
  }

  lemma NothingEvicted(s: State)
    ensures PartlyEvicted(s, s)
  {
    assert PublicIds(s.lobbies, s.lobbies.Keys - s.lobbies.Keys) == {};
  }

  lemma EvictionDone(s: State, m: State)
    requires PartlyEvicted(s, m) && |m.lobbies| < MAX_LOBBIES_GLOBAL
    ensures Evicted(s, m)
  {
    if m.lobbies != s.lobbies {
      SubsetSize(m.lobbies.Keys, s.lobbies.Keys);
      if |s.lobbies| < MAX_LOBBIES_GLOBAL { SameKeys(s, m); }
    }
  }

  lemma SameKeys(s: State, m: State)
    requires PartlyEvicted(s, m) && |m.lobbies| == |s.lobbies|
    ensures m.lobbies == s.lobbies
  {
    assert m.lobbies.Keys == s.lobbies.Keys by {
      hide PublicIds;
      assert |m.lobbies.Keys| == |s.lobbies.Keys|;
      if x :| x in s.lobbies.Keys && x !in m.lobbies.Keys {
        SubsetSize(m.lobbies.Keys, s.lobbies.Keys - {x});
      }
    }
  }

  lemma EvictedIds(s: State, m: State, sid: string)
    requires PartlyEvicted(s, m) && sid in m.lobbies
    ensures var t := Drop(m, sid); t.byPublic == s.byPublic - PublicIds(s.lobbies, s.lobbies.Keys - t.lobbies.Keys)
  {
    hide PublicIds;
    var t := Drop(m, sid);
    var gone := s.lobbies.Keys - m.lobbies.Keys;
    assert s.lobbies.Keys - t.lobbies.Keys == gone + {sid};
    OneMoreId(s.lobbies, gone, sid);
    assert s.byPublic - PublicIds(s.lobbies, gone) - {s.lobbies[sid].info.lobbyId}
        == s.byPublic - (PublicIds(s.lobbies, gone) + {s.lobbies[sid].info.lobbyId});
  }

  lemma EvictOneMore(s: State, m: State, sid: string)
    requires PartlyEvicted(s, m) && |m.lobbies| >= MAX_LOBBIES_GLOBAL
    requires sid in m.lobbies && forall k :: k in m.lobbies ==> m.lobbies[sid].lastSeen <= m.lobbies[k].lastSeen
    ensures PartlyEvicted(s, Drop(m, sid))
  {
    hide PublicIds;
    EvictedIds(s, m, sid);
    RemoveOne(m.lobbies, sid);
  }
}
