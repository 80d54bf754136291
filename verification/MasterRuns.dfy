/**
 * Properties of whole runs of the lobby master: the invariant, the rate limiter against an ideal
 * one with full history, how long a lobby answers, and how stale a listing can be.
 */
module MasterRuns {
  import opened Results
  import opened MasterState

  /** A finite run from the empty server on a monotone clock. */
  datatype Run = Run(states: seq<State>, events: seq<Event>, replies: seq<Reply>) {
    ghost predicate Valid() {
      && |states| == |events| + 1 && |replies| == |events|
      && states[0] == INIT
      && (forall i, j :: 0 <= i <= j < |events| ==> events[i].at <= events[j].at)
      && (forall i :: 0 <= i < |events| ==> StepAt(i))
    }

    ghost predicate StepAt(i: nat)
      requires i < |events| && |states| == |events| + 1 && |replies| == |events|
    {
      Enabled(states[i], events[i].req) && Step(states[i], events[i], states[i + 1], replies[i])
    }
  }

  /** The invariant holds in every state of every run. */
  lemma {:induction false} ReachableInv(run: Run, n: nat, now: real)
    requires run.Valid() && n <= |run.events|
    requires forall i :: 0 <= i < n ==> run.events[i].at <= now
    ensures Inv(run.states[n], now)
  {
    if n == 0 {
      InitInv(now);
    } else {
      var e := run.events[n - 1];
      ReachableInv(run, n - 1, e.at);
      assert run.StepAt(n - 1);
      StepKeepsInv(run.states[n - 1], e, run.states[n], run.replies[n - 1], e.at);
      QuietKeepsInv(run.states[n], run.states[n], e.at, now);
    }
  }

  // ----- the rate limiter -----

  /** The bucket a request is charged to. */
  function Charged(q: Request): Option<(string, Class)> {
    match q
    case Host(ip, _, _) => Some((ip, Create))
    case Heartbeat(ip, _, _, _, _) => Some((ip, Mutate))
    case Leave(ip, _, _) => Some((ip, Mutate))
    case Visibility(ip, _, _, _) => Some((ip, Mutate))
    case Join(ip, _, _) => Some((ip, JoinClass))
    case List(_) => None
    case Sweep => None
  }

  /** Bucket keys of different addresses or classes never collide. */
  lemma KeyInjective(ip: string, c: Class, jp: string, d: Class)
    requires Key(ip, c) == Key(jp, d)
    ensures ip == jp && c == d
  {
    var k, m, n := Key(ip, c), ClassName(c), ClassName(d);
    assert k[|k| - 1] == m[|m| - 1] == n[|n| - 1];
    assert k[|k| - |m|] == m[0] && k[|k| - |n|] == n[0];
    assert c == d;
    assert k[..|k| - |m| - 1] == ip && k[..|k| - |n| - 1] == jp;
  }

  function RateEffect(s: State, e: Event): map<string, seq<real>> {
    match Charged(e.req)
    case Some(p) => RateAfter(s.rate, p.0, p.1, e.at)
    case None => if e.req.Sweep? then SweepStep(s, e.at).rate else s.rate
  }

  lemma StepRates(s: State, e: Event, t: State, reply: Reply)
    requires Step(s, e, t, reply)
    ensures t.rate == RateEffect(s, e)
  {
    hide RateAfter, RateAccepts, ReadAnnounce, CheckToken, AuthBySession, Resolve, Admission, BuildRows,
      Beat, OfIp, Public;
    if e.req.Host? {
      var m :| HostStep(s, e.at, e.req, m, t, reply);
    }
  }

  predicate AcceptedAt(s: State, e: Event, ip: string, c: Class) {
    Charged(e.req) == Some((ip, c)) && RateAccepts(s.rate, ip, c, e.at)
  }

  /** The times of all accepted requests of one address and class among the first `n` events. */
  function Accepted(run: Run, n: nat, ip: string, c: Class): seq<real>
    requires n <= |run.events| < |run.states|
  {
    if n == 0 then []
    else Accepted(run, n - 1, ip, c) +
         if AcceptedAt(run.states[n - 1], run.events[n - 1], ip, c) then [run.events[n - 1].at] else []
  }

  /** An ideal limiter's count: everything ever accepted that is not older than the cutoff. */
  function CountSince(h: seq<real>, cutoff: real): nat
  {
    if h == [] then 0 else CountSince(h[..|h| - 1], cutoff) + if h[|h| - 1] >= cutoff then 1 else 0
  }

  ghost predicate SortedUpTo(h: seq<real>, t: real) {
    && (forall i, j :: 0 <= i <= j < |h| ==> h[i] <= h[j])
    && (forall i :: 0 <= i < |h| ==> h[i] <= t)
  }

  lemma {:induction false} CountOfSorted(h: seq<real>, cutoff: real, k: nat)
    requires k <= |h|
    requires forall i :: 0 <= i < k ==> h[i] < cutoff
    requires forall i :: k <= i < |h| ==> h[i] >= cutoff
    ensures CountSince(h, cutoff) == |h| - k
  {
    if h != [] { CountOfSorted(h[..|h| - 1], cutoff, if k == |h| then k - 1 else k); }
  }

  lemma {:induction false} PruneDrops(b: seq<real>, cutoff: real) returns (k: nat)
    ensures k <= |b| && Prune(b, cutoff) == b[k..]
    ensures forall i :: 0 <= i < k ==> b[i] < cutoff
    ensures k < |b| ==> b[k] >= cutoff
  {
    if b == [] || b[0] >= cutoff {
      k := 0;
    } else {
      var m := PruneDrops(b[1..], cutoff);
      k := m + 1;
      assert b[1..][m..] == b[m + 1..];
      forall i | 0 <= i < k ensures b[i] < cutoff { if i > 0 { assert b[i] == b[1..][i - 1]; } }
    }
  }

  /** The bucket is a suffix of the history and whatever is missing is already too old to matter. */
  ghost predicate Remembers(bucket: seq<real>, h: seq<real>, t: real) {
    exists m :: 0 <= m <= |h| && IsSuffix(bucket, h, m) && forall i :: 0 <= i < m ==> h[i] < t - RATE_WINDOW
  }

  ghost predicate IsSuffix(bucket: seq<real>, h: seq<real>, m: nat) {
    m <= |h| && bucket == h[m..]
  }

  lemma PruneRemembers(bucket: seq<real>, h: seq<real>, t: real, now: real) returns (k: nat)
    requires SortedUpTo(h, t) && t <= now && Remembers(bucket, h, t)
    ensures k <= |h| && Prune(bucket, now - RATE_WINDOW) == h[k..]
    ensures forall i :: 0 <= i < k ==> h[i] < now - RATE_WINDOW
    ensures CountSince(h, now - RATE_WINDOW) == |h| - k
  {
    hide Prune, CountSince;
    var m :| 0 <= m <= |h| && IsSuffix(bucket, h, m) && forall i :: 0 <= i < m ==> h[i] < t - RATE_WINDOW;
    var j := PruneDrops(bucket, now - RATE_WINDOW);
    k := m + j;
    assert bucket[j..] == h[k..];
    forall i | 0 <= i < k ensures h[i] < now - RATE_WINDOW {
      if i >= m { assert h[i] == bucket[i - m]; }
    }
    forall i | k <= i < |h| ensures h[i] >= now - RATE_WINDOW {
      assert h[k] == bucket[j];
    }
    CountOfSorted(h, now - RATE_WINDOW, k);
  }

  lemma SuffixSnoc(h: seq<real>, k: nat, x: real)
    requires k <= |h|
    ensures h[k..] + [x] == (h + [x])[k..]
  {
  }

  lemma SortedSnoc(h: seq<real>, t: real, now: real)
    requires SortedUpTo(h, t) && t <= now
    ensures SortedUpTo(h, now) && SortedUpTo(h + [now], now)
  {
  }

  /** One charged request, as it changes the bucket itself. */
  function Charge(bucket: seq<real>, limit: nat, now: real): seq<real> {
    var kept := Prune(bucket, now - RATE_WINDOW);
    if |kept| < limit then kept + [now] else kept
  }

  /** The decision is the ideal one and the bucket still remembers enough. */
  lemma ChargeRemembers(bucket: seq<real>, h: seq<real>, limit: nat, t: real, now: real)
    requires SortedUpTo(h, t) && t <= now && Remembers(bucket, h, t)
    ensures |Prune(bucket, now - RATE_WINDOW)| == CountSince(h, now - RATE_WINDOW)
    ensures |Prune(bucket, now - RATE_WINDOW)| < limit ==> Remembers(Charge(bucket, limit, now), h + [now], now)
    ensures |Prune(bucket, now - RATE_WINDOW)| >= limit ==> Remembers(Charge(bucket, limit, now), h, now)
  {
    var k := PruneRemembers(bucket, h, t, now);
    SuffixSnoc(h, k, now);
    if |Prune(bucket, now - RATE_WINDOW)| < limit {
      assert IsSuffix(Charge(bucket, limit, now), h + [now], k);
    } else {
      assert IsSuffix(Charge(bucket, limit, now), h, k);
    }
  }

  lemma SweepRemembers(s: State, h: seq<real>, key: string, t: real, now: real)
    requires SortedUpTo(h, t) && t <= now && Remembers(Bucket(s.rate, key), h, t)
    ensures SortedUpTo(h, now) && Remembers(Bucket(SweepStep(s, now).rate, key), h, now)
  {
    var b := Bucket(s.rate, key);
    var m :| 0 <= m <= |h| && IsSuffix(b, h, m) && forall i :: 0 <= i < m ==> h[i] < t - RATE_WINDOW;
    if key in s.rate && AgedOut(b, now - RATE_WINDOW) {
      assert IsSuffix([], h, |h|);
      forall i | 0 <= i < |h| ensures h[i] < now - RATE_WINDOW {
        if i >= m { assert h[|h| - 1] == b[|b| - 1]; }
      }
    } else {
      assert IsSuffix(b, h, m);
    }
  }

  lemma BucketAfter(rate: map<string, seq<real>>, ip: string, c: Class, now: real, key: string)
    ensures Bucket(RateAfter(rate, ip, c, now), key)
         == if key == Key(ip, c) then Charge(Bucket(rate, key), Limit(c), now) else Bucket(rate, key)
  {
  }

  /** The bucket of one address and class after a step that charges another or none. */
  lemma UnchargedBucket(s: State, e: Event, ip: string, c: Class)
    requires Charged(e.req) != Some((ip, c)) && !e.req.Sweep?
    ensures Bucket(RateEffect(s, e), Key(ip, c)) == Bucket(s.rate, Key(ip, c))
  {
    match Charged(e.req)
    case None =>
    case Some(p) =>
      BucketAfter(s.rate, p.0, p.1, e.at, Key(ip, c));
      if Key(p.0, p.1) == Key(ip, c) { KeyInjective(p.0, p.1, ip, c); }
  }

  /** The history after one more event. */
  function Extended(s: State, e: Event, h: seq<real>, ip: string, c: Class): seq<real> {
    if AcceptedAt(s, e, ip, c) then h + [e.at] else h
  }

  lemma EffectRemembers(s: State, e: Event, h: seq<real>, ip: string, c: Class)
    requires SortedUpTo(h, e.at) && Remembers(Bucket(s.rate, Key(ip, c)), h, e.at)
    ensures SortedUpTo(Extended(s, e, h, ip, c), e.at)
    ensures Remembers(Bucket(RateEffect(s, e), Key(ip, c)), Extended(s, e, h, ip, c), e.at)
    ensures Charged(e.req) == Some((ip, c)) ==>
      (AcceptedAt(s, e, ip, c) <==> CountSince(h, e.at - RATE_WINDOW) < Limit(c))
  {
    hide SortedUpTo, CountSince, Remembers, Key;
    if Charged(e.req) == Some((ip, c)) {
      ChargeRemembers(Bucket(s.rate, Key(ip, c)), h, Limit(c), e.at, e.at);
      SortedSnoc(h, e.at, e.at);
      BucketAfter(s.rate, ip, c, e.at, Key(ip, c));
    } else if e.req.Sweep? {
      SweepRemembers(s, h, Key(ip, c), e.at, e.at);
    } else {
      UnchargedBucket(s, e, ip, c);
    }
  }

  lemma RunRates(run: Run, i: nat)
    requires run.Valid() && i < |run.events|
    ensures run.states[i + 1].rate == RateEffect(run.states[i], run.events[i])
  {
    assert run.StepAt(i);
    StepRates(run.states[i], run.events[i], run.states[i + 1], run.replies[i]);
  }

  lemma AcceptedStep(run: Run, n: nat, ip: string, c: Class)
    requires run.Valid() && n < |run.events|
    ensures Accepted(run, n + 1, ip, c)
         == Extended(run.states[n], run.events[n], Accepted(run, n, ip, c), ip, c)
  {
  }

  ghost predicate Tracks(s: State, h: seq<real>, ip: string, c: Class, t: real) {
    SortedUpTo(h, t) && Remembers(Bucket(s.rate, Key(ip, c)), h, t)
  }

  lemma StepTracks(run: Run, n: nat, h: seq<real>, ip: string, c: Class)
    requires run.Valid() && n < |run.events| && Tracks(run.states[n], h, ip, c, run.events[n].at)
    ensures Tracks(run.states[n + 1], Extended(run.states[n], run.events[n], h, ip, c), ip, c, run.events[n].at)
  {
    RunRates(run, n);
    EffectRemembers(run.states[n], run.events[n], h, ip, c);
  }

  lemma TracksLater(s: State, h: seq<real>, ip: string, c: Class, t: real, u: real)
    requires Tracks(s, h, ip, c, t) && t <= u
    ensures Tracks(s, h, ip, c, u)
  {
    Later(Bucket(s.rate, Key(ip, c)), h, t, u);
  }

  /** Pruning and sweeping lose nothing the limiter still needs. */
  lemma {:induction false} BucketRemembers(run: Run, n: nat, ip: string, c: Class, t: real)
    requires run.Valid() && n <= |run.events|
    requires n > 0 ==> run.events[n - 1].at <= t
    ensures Tracks(run.states[n], Accepted(run, n, ip, c), ip, c, t)
  {
    if n == 0 {
      assert IsSuffix([], [], 0);
    } else {
      var at := run.events[n - 1].at;
      BucketRemembers(run, n - 1, ip, c, at);
      StepTracks(run, n - 1, Accepted(run, n - 1, ip, c), ip, c);
      AcceptedStep(run, n - 1, ip, c);
      TracksLater(run.states[n], Accepted(run, n, ip, c), ip, c, at, t);
    }
  }

  lemma Later(bucket: seq<real>, h: seq<real>, t: real, u: real)
    requires SortedUpTo(h, t) && Remembers(bucket, h, t) && t <= u
    ensures SortedUpTo(h, u) && Remembers(bucket, h, u)
  {
    var m :| 0 <= m <= |h| && IsSuffix(bucket, h, m) && forall i :: 0 <= i < m ==> h[i] < t - RATE_WINDOW;
    assert IsSuffix(bucket, h, m);
  }

  /**
   * Every decision of every run is the ideal limiter's: a request is accepted exactly when fewer
   * than the limit of all requests ever accepted lie in the closed window before it.
   */
  lemma DecisionIsIdeal(run: Run, n: nat, ip: string, c: Class)
    requires run.Valid() && n < |run.events| && Charged(run.events[n].req) == Some((ip, c))
    ensures AcceptedAt(run.states[n], run.events[n], ip, c)
       <==> CountSince(Accepted(run, n, ip, c), run.events[n].at - RATE_WINDOW) < Limit(c)
  {
    hide SortedUpTo, CountSince, Remembers, Key, RateAccepts;
    BucketRemembers(run, n, ip, c, run.events[n].at);
    EffectRemembers(run.states[n], run.events[n], Accepted(run, n, ip, c), ip, c);
  }

  lemma {:induction false} CountAtLeast(h: seq<real>, cutoff: real, i: nat)
    requires i <= |h| && forall k :: i <= k < |h| ==> h[k] >= cutoff
    ensures CountSince(h, cutoff) >= |h| - i
  {
    if i < |h| { CountAtLeast(h[..|h| - 1], cutoff, i); }
  }

  /** The latest accepted request ends no burst. */
  lemma LastEndsNoBurst(h: seq<real>, now: real, limit: nat, i: nat)
    requires SortedUpTo(h, now) && CountSince(h, now - RATE_WINDOW) < limit
    requires i < |h| && now - h[i] <= RATE_WINDOW
    ensures |h| - i + 1 <= limit
  {
    CountAtLeast(h, now - RATE_WINDOW, i);
  }

  /** Any closed interval as long as the window holds at most the limit of accepted requests. */
  lemma {:induction false} NoBurst(run: Run, n: nat, ip: string, c: Class, i: nat, j: nat)
    requires run.Valid() && n <= |run.events|
    requires i <= j < |Accepted(run, n, ip, c)|
    requires Accepted(run, n, ip, c)[j] - Accepted(run, n, ip, c)[i] <= RATE_WINDOW
    ensures j - i + 1 <= Limit(c)
  {
    var h, before := Accepted(run, n, ip, c), Accepted(run, n - 1, ip, c);
    AcceptedStep(run, n - 1, ip, c);
    if j < |before| {
      NoBurst(run, n - 1, ip, c, i, j);
    } else {
      var now := run.events[n - 1].at;
      DecisionIsIdeal(run, n - 1, ip, c);
      if i < j {
        BucketRemembers(run, n - 1, ip, c, now);
        LastEndsNoBurst(before, now, Limit(c), i);
      }
    }
  }

  // ----- how long a lobby answers -----

  /** The only ways a session leaves the table in one step. */
  ghost predicate RemovedBy(s: State, e: Event, t: State, sid: string)
    requires sid in s.lobbies
  {
    match e.req
    case Leave(_, session, token) =>
      session == Some(sid) && token == Some(s.lobbies[sid].info.token)
    case Host(_, _, _) =>
      && |s.lobbies| >= MAX_LOBBIES_GLOBAL && sid !in t.lobbies
      && forall kept :: kept in t.lobbies && kept in s.lobbies ==> s.lobbies[sid].lastSeen <= s.lobbies[kept].lastSeen
    case Sweep => Expired(s.lobbies[sid], e.at)
    case _ => false
  }

  lemma EqualSizeSubset<T>(a: set<T>, b: set<T>)
    requires a <= b && |a| == |b|
    ensures a == b
  {
    if x :| x in b && x !in a {
      SubsetSize(a, b - {x});
    }
  }

  lemma EvictionOnlyWhenFull(s: State, m: State)
    requires Evicted(s, m) && |s.lobbies| < MAX_LOBBIES_GLOBAL
    ensures m.lobbies.Keys == s.lobbies.Keys
  {
    EqualSizeSubset(m.lobbies.Keys, s.lobbies.Keys);
  }

  lemma EvictionKeepsLobby(s: State, m: State, e: Event, t: State, sid: string)
    requires e.req.Host? && Evicted(s, m) && sid in s.lobbies
    requires m.lobbies.Keys <= t.lobbies.Keys
    requires forall k :: k in t.lobbies && k in s.lobbies ==> k in m.lobbies
    ensures sid !in t.lobbies ==> RemovedBy(s, e, t, sid)
  {
    if |s.lobbies| < MAX_LOBBIES_GLOBAL { EvictionOnlyWhenFull(s, m); }
  }

  lemma HostWitness(s: State, e: Event, t: State, reply: Reply) returns (m: State)
    requires e.req.Host? && Step(s, e, t, reply)
    ensures HostStep(s, e.at, e.req, m, t, reply)
  {
    m :| HostStep(s, e.at, e.req, m, t, reply);
  }

  lemma FineIds(ip: string, body: HostBody, ids: Ids)
    ensures var a := ReadAnnounce(ip, body, ids);
      a.Fine? ==> a.info.sessionId == ids.session && a.info.lobbyId == ids.lobby
  {
  }

  /** An announce changes the table by an eviction and at most one fresh lobby. */
  lemma HostShape(s: State, now: real, q: Request, m: State, t: State, reply: Reply)
    requires q.Host? && Enabled(s, q) && HostStep(s, now, q, m, t, reply)
    ensures m.lobbies.Keys <= t.lobbies.Keys
    ensures forall k :: k in t.lobbies && k in s.lobbies ==> k in m.lobbies && t.lobbies[k] == m.lobbies[k]
    ensures m == s || Evicted(s.(rate := RateAfter(s.rate, q.ip, Create, now)), m)
  {
    hide RateAfter, RateAccepts, ReadAnnounce, OfIp;
    FineIds(q.ip, q.body, q.ids);
  }

  lemma HostKeepsLobby(s: State, e: Event, t: State, reply: Reply, sid: string)
    requires e.req.Host? && Enabled(s, e.req) && Step(s, e, t, reply) && sid in s.lobbies
    ensures sid in t.lobbies ==> t.lobbies[sid] == s.lobbies[sid]
    ensures sid !in t.lobbies ==> RemovedBy(s, e, t, sid)
  {
    var m := HostWitness(s, e, t, reply);
    HostShape(s, e.at, e.req, m, t, reply);
    if m != s {
      var r := s.(rate := RateAfter(s.rate, e.req.ip, Create, e.at));
      EvictionKeepsLobby(r, m, e, t, sid);
    }
  }

  lemma LeaveKeepsLobby(s: State, e: Event, t: State, reply: Reply, sid: string)
    requires e.req.Leave? && Step(s, e, t, reply) && sid in s.lobbies
    ensures sid in t.lobbies ==> t.lobbies[sid] == s.lobbies[sid]
    ensures sid !in t.lobbies ==> RemovedBy(s, e, t, sid)
  {
    hide RateAfter, RateAccepts;
  }

  lemma SweepKeepsLobby(s: State, e: Event, t: State, reply: Reply, sid: string)
    requires e.req.Sweep? && Step(s, e, t, reply) && sid in s.lobbies
    ensures sid in t.lobbies ==> t.lobbies[sid] == s.lobbies[sid]
    ensures sid !in t.lobbies ==> RemovedBy(s, e, t, sid)
  {
  }

  /** A lobby that is not removed keeps what its announce fixed. */
  lemma StepKeepsLobby(s: State, e: Event, t: State, reply: Reply, sid: string)
    requires Enabled(s, e.req) && Step(s, e, t, reply) && Inverse(s) && sid in s.lobbies
    ensures sid in t.lobbies ==> t.lobbies[sid].info == s.lobbies[sid].info
    ensures sid !in t.lobbies ==> RemovedBy(s, e, t, sid)
  {
    hide RateAfter, RateAccepts, ReadAnnounce, Admission, BuildRows, LeaveStep, SweepStep,
      RemovedBy, HostStep, HostAdmitted, Evicted, PublicIds;
    match e.req
    case Host(_, _, _) => HostKeepsLobby(s, e, t, reply, sid);
    case Leave(_, _, _) => LeaveKeepsLobby(s, e, t, reply, sid);
    case Sweep => SweepKeepsLobby(s, e, t, reply, sid);
    case _ =>
  }

  /** A join of a lobby in the table is told how to reach it, once the rate limit lets it through. */
  lemma TableAnswers(s: State, sid: string)
    requires Inverse(s) && sid in s.lobbies
    ensures forall now: real, ip: string, peer: string :: RateAccepts(s.rate, ip, JoinClass, now) ==>
      var info := s.lobbies[sid].info;
      JoinStep(s, now, Join(ip, Some(info.lobbyId), peer)).1 == Admission(info, peer)
  {
    hide RateAccepts, RateAfter, Admission;
  }

  /**
   * Once in the table, a lobby stays until its own leave, an eviction in which nothing staler was
   * kept, or expiry, and all that time a join that passes the rate limit is told how to reach it,
   * listed or hidden.
   */
  lemma {:induction false} LobbyAnswers(run: Run, i: nat, j: nat, sid: string)
    requires run.Valid() && i <= j <= |run.events| && sid in run.states[i].lobbies
    requires forall k :: i <= k < j && sid in run.states[k].lobbies ==>
      !RemovedBy(run.states[k], run.events[k], run.states[k + 1], sid)
    ensures sid in run.states[j].lobbies
    ensures run.states[j].lobbies[sid].info == run.states[i].lobbies[sid].info
    ensures forall now: real, ip: string, peer: string :: RateAccepts(run.states[j].rate, ip, JoinClass, now) ==>
      var info := run.states[i].lobbies[sid].info;
      JoinStep(run.states[j], now, Join(ip, Some(info.lobbyId), peer)).1 == Admission(info, peer)
    decreases j
  {
    hide RemovedBy, JoinStep, RateAccepts, Admission, Caps, AllGood, Inverse;
    if i < j {
      LobbyAnswers(run, i, j - 1, sid);
      assert run.StepAt(j - 1);
      var t := run.events[j - 1].at;
      ReachableInv(run, j - 1, t);
      StepKeepsLobby(run.states[j - 1], run.events[j - 1], run.states[j], run.replies[j - 1], sid);
      ReachableInv(run, j, t);
      TableAnswers(run.states[j], sid);
    } else {
      if i > 0 { ReachableInv(run, i, run.events[i - 1].at); }
      TableAnswers(run.states[i], sid);
    }
  }

  /** A lobby's last-seen time never goes back. */
  lemma StepSeen(s: State, e: Event, t: State, reply: Reply, sid: string)
    requires Enabled(s, e.req) && Step(s, e, t, reply) && Inverse(s)
    requires sid in s.lobbies && sid in t.lobbies && s.lobbies[sid].lastSeen <= e.at
    ensures t.lobbies[sid].lastSeen >= s.lobbies[sid].lastSeen
  {
    hide RateAfter, RateAccepts, ReadAnnounce, Admission, BuildRows, LeaveStep, SweepStep, RemovedBy;
    match e.req
    case Host(_, _, _) => HostKeepsLobby(s, e, t, reply, sid);
    case Leave(_, _, _) => LeaveKeepsLobby(s, e, t, reply, sid);
    case Sweep => SweepKeepsLobby(s, e, t, reply, sid);
    case _ =>
  }

  /** An accepted heartbeat refreshes its lobby: time, players within bounds, visibility when given. */
  lemma BeatRefreshes(run: Run, i: nat)
    requires run.Valid() && i < |run.events| && run.events[i].req.Heartbeat? && run.replies[i].Alive?
    ensures var q := run.events[i].req; q.session.Some? && q.session.value in run.states[i + 1].lobbies
    ensures var q := run.events[i].req; var lo := run.states[i + 1].lobbies[q.session.value];
      && lo.lastSeen == run.events[i].at
      && (q.listed.Some? ==> lo.listed == q.listed.value)
      && (q.players.Val? && 0 <= q.players.n <= lo.info.playersMax ==> lo.playersCur == q.players.n)
  {
    assert run.StepAt(i);
  }

  /**
   * No sweep within the lifetime of its last refresh takes a lobby away: it goes only by its own
   * leave or by an eviction.
   */
  lemma {:induction false} RefreshedOutlivesSweeps(run: Run, i: nat, j: nat, sid: string)
    requires run.Valid() && i <= j <= |run.events| && sid in run.states[i].lobbies
    requires forall k :: i <= k < j && sid in run.states[k].lobbies && !run.events[k].req.Sweep? ==>
      !RemovedBy(run.states[k], run.events[k], run.states[k + 1], sid)
    requires forall k :: i <= k < j && run.events[k].req.Sweep? ==>
      run.events[k].at - run.states[i].lobbies[sid].lastSeen <= LOBBY_TTL
    ensures sid in run.states[j].lobbies && run.states[j].lobbies[sid].lastSeen >= run.states[i].lobbies[sid].lastSeen
    decreases j
  {
    hide RemovedBy, Inv, Step, Enabled;
    if i < j {
      RefreshedOutlivesSweeps(run, i, j - 1, sid);
      var s, e, t := run.states[j - 1], run.events[j - 1], run.states[j];
      assert run.StepAt(j - 1);
      ReachableInv(run, j - 1, e.at);
      InvAt(s, e.at, sid);
      if e.req.Sweep? { SweepSpares(s, e, t, sid); }
      StepKeepsLobby(s, e, t, run.replies[j - 1], sid);
      StepSeen(s, e, t, run.replies[j - 1], sid);
    }
  }

  lemma InvAt(s: State, now: real, sid: string)
    requires Inv(s, now) && sid in s.lobbies
    ensures Inverse(s) && s.lobbies[sid].lastSeen <= now
  {
  }

  lemma SweepSpares(s: State, e: Event, t: State, sid: string)
    requires e.req.Sweep? && sid in s.lobbies && e.at - s.lobbies[sid].lastSeen <= LOBBY_TTL
    ensures !RemovedBy(s, e, t, sid)
  {
  }

  /** An accepted announce puts its lobby in the table under the ids it was told. */
  lemma AcceptedIsRegistered(run: Run, i: nat)
    requires run.Valid() && i < |run.events| && run.replies[i].Hosted?
    ensures var info := run.replies[i].info;
      && info.sessionId in run.states[i + 1].lobbies
      && run.states[i + 1].lobbies[info.sessionId] == Lobby(info, 1, true, run.events[i].at)
  {
    assert run.StepAt(i);
    var s, e := run.states[i], run.events[i];
    if e.req.Host? {
      var m :| HostStep(s, e.at, e.req, m, run.states[i + 1], run.replies[i]);
    }
  }

  /** After a sweep nothing is left that has been silent for longer than the lobby lifetime. */
  lemma SweepLeavesFresh(run: Run, i: nat, sid: string)
    requires run.Valid() && i < |run.events| && run.events[i].req.Sweep?
    ensures sid in run.states[i + 1].lobbies
       <==> sid in run.states[i].lobbies && run.events[i].at - run.states[i].lobbies[sid].lastSeen <= LOBBY_TTL
  {
    assert run.StepAt(i);
  }

  // ----- how stale a listing can be -----

  predicate RebuildsAt(run: Run, i: nat)
    requires i < |run.events| < |run.states|
  {
    run.events[i].req.List? && Rebuilds(run.states[i], run.events[i].at)
  }

  /** The cache was filled by the walk at event `i`. */
  ghost predicate FilledAt(run: Run, c: Cache, i: nat)
    requires i < |run.events| < |run.states|
  {
    var rows := BuildRows(run.states[i].lobbies, run.events[i].at);
    RebuildsAt(run, i) && c == Cache(run.events[i].at, rows, Listing(rows))
  }

  lemma OnlyListTouchesCache(s: State, e: Event, t: State, reply: Reply)
    requires Step(s, e, t, reply)
    ensures !e.req.List? ==> t.cache == s.cache
  {
    if e.req.Host? { var m :| HostStep(s, e.at, e.req, m, t, reply); }
  }

  /** Only a listing that rebuilds the cache changes its time. */
  lemma StepCache(s: State, e: Event, t: State, reply: Reply)
    requires Step(s, e, t, reply)
    ensures t.cache.t == if e.req.List? && Rebuilds(s, e.at) then e.at else s.cache.t
  {
    hide BuildRows, HostStep;
    OnlyListTouchesCache(s, e, t, reply);
  }

  lemma {:induction false} CacheOrigin(run: Run, n: nat)
    requires run.Valid() && n <= |run.events|
    ensures (run.states[n].cache == INIT.cache && forall i :: 0 <= i < n ==> !RebuildsAt(run, i))
         || exists i :: 0 <= i < n && FilledAt(run, run.states[n].cache, i)
  {
    if n > 0 {
      CacheOrigin(run, n - 1);
      assert run.StepAt(n - 1);
      OnlyListTouchesCache(run.states[n - 1], run.events[n - 1], run.states[n], run.replies[n - 1]);
      if RebuildsAt(run, n - 1) {
        assert FilledAt(run, run.states[n].cache, n - 1);
      }
    }
  }

  /**
   * From 5 s of clock on, every listing is the asked-for listing of the live table at some moment
   * less than 5 s ago.
   */
  lemma ListingIsRecent(run: Run, n: nat) returns (i: nat)
    requires run.Valid() && n < |run.events| && run.events[n].req.List?
    requires run.events[n].at >= LOBBIES_CACHE_TTL
    ensures i <= n
    ensures run.events[n].at - LOBBIES_CACHE_TTL < run.events[i].at <= run.events[n].at
    ensures run.replies[n]
      == Rows(Filtered(BuildRows(run.states[i].lobbies, run.events[i].at), run.events[n].req.version))
  {
    assert run.StepAt(n);
    if RebuildsAt(run, n) {
      i := n;
    } else {
      CacheOrigin(run, n);
      i :| 0 <= i < n && FilledAt(run, run.states[n].cache, i);
    }
  }

  /** Before that, nothing was ever built: an unfiltered listing is no bytes, a filtered one empty. */
  lemma EarlyListingIsEmpty(run: Run, n: nat)
    requires run.Valid() && n < |run.events| && run.events[n].req.List?
    requires run.events[n].at < LOBBIES_CACHE_TTL
    ensures run.replies[n] == Rows(if run.events[n].req.version == "" then NoBytes else Listing({}))
  {
    assert run.StepAt(n);
    CacheOrigin(run, n);
    if i :| 0 <= i < n && FilledAt(run, run.states[n].cache, i) {
      CacheOrigin(run, i);
      FirstRebuildIsLate(run, i);
      assert false;
    }
    assert OfVersion({}, run.events[n].req.version) == {};
  }

  lemma {:induction false} FirstRebuildIsLate(run: Run, i: nat)
    requires run.Valid() && i < |run.events| && RebuildsAt(run, i)
    ensures run.events[i].at >= LOBBIES_CACHE_TTL
  {
    CacheOrigin(run, i);
    if k :| 0 <= k < i && FilledAt(run, run.states[i].cache, k) {
      FirstRebuildIsLate(run, k);
    }
  }

  lemma {:induction false} CacheIsNoOlder(run: Run, i: nat, n: nat)
    requires run.Valid() && i < n <= |run.events| && RebuildsAt(run, i)
    ensures run.states[n].cache.t >= run.events[i].at
  {
    hide Step, Enabled, Rebuilds;
    assert run.StepAt(n - 1);
    StepCache(run.states[n - 1], run.events[n - 1], run.states[n], run.replies[n - 1]);
    if i < n - 1 { CacheIsNoOlder(run, i, n - 1); }
  }

  /** The live table is walked at most once per cache lifetime. */
  lemma WalksAreApart(run: Run, i: nat, j: nat)
    requires run.Valid() && i < j < |run.events| && RebuildsAt(run, i) && RebuildsAt(run, j)
    ensures run.events[j].at - run.events[i].at >= LOBBIES_CACHE_TTL
  {
    CacheIsNoOlder(run, i, j);
  }
}
