/**
 * The one-game lock of tools/game_lock.py: the file, the staleness rules for its two kinds of
 * lock, acquire and release, and runs of many processes. Acquire and release are single steps
 * here; LockRaces takes them apart.
 */
module GameLock {
  import opened Results

  /** Clock readings are in microseconds; the file keeps whole seconds. */
  const SECOND: int := 1_000_000

  function Stamp(t: int): int { t - t % SECOND }

  /** A lock record; the deadline may be absent or unreadable. */
  datatype Record = Record(session: string, pid: int, deadline: Option<int>, persistent: bool)

  datatype File = Missing | Garbage | Held(rec: Record)

  /** What the probes see: the clock, the live process ids, and whether a game is up. */
  datatype World = World(now: int, alive: set<int>, game: bool)

  predicate PidAlive(w: World, pid: int) { pid > 0 && pid in w.alive }

  /** `stale_reason` has a reason. */
  predicate Stale(rec: Record, w: World) {
    if !rec.persistent then !PidAlive(w, rec.pid)
    else !w.game && (rec.deadline.None? || w.now > rec.deadline.value)
  }

  predicate Obtainable(f: File, w: World) { f.Held? ==> Stale(f.rec, w) }

  predicate Droppable(f: File, session: string, w: World) {
    f.Held? && (f.rec.session == session || !PidAlive(w, f.rec.pid))
  }

  function NewRecord(session: string, pid: int, minutes: int, persistent: bool, w: World): Record {
    Record(session, pid, Some(Stamp(w.now + minutes * 60 * SECOND)), persistent)
  }

  /** The lock file at its fixed path. */
  class LockFile {
    var content: File

    constructor ()
      ensures content == Missing
    {
      content := Missing;
    }

    /** `acquire`: exclusive create, else break what is unreadable or stale. */
    method Acquire(session: string, pid: int, minutes: int, persistent: bool, w: World) returns (ok: bool)
      modifies this
      ensures ok <==> Obtainable(old(content), w)
      ensures content == if ok then Held(NewRecord(session, pid, minutes, persistent, w)) else old(content)
    {
      var rec := Record(session, pid, Some(Stamp(w.now + minutes * 60 * SECOND)), persistent);
      if content == Missing {
        content := Held(rec);
        return true;
      }
      if content == Garbage {
        content := Held(rec);
        return true;
      }
      var stale := StaleReason(content.rec, w);
      if !stale { return false; }
      content := Held(rec);
      return true;
    }

    /** `release`: drop the lock if it is ours or its process is gone. */
    method Release(session: string, w: World) returns (ok: bool)
      modifies this
      ensures ok <==> Droppable(old(content), session, w)
      ensures content == if ok then Missing else old(content)
    {
      if !content.Held? { return false; }
      if content.rec.session != session && PidAlive(w, content.rec.pid) { return false; }
      content := Missing;
      return true;
    }
  }

  /** `stale_reason`, branch by branch. */
  method StaleReason(rec: Record, w: World) returns (stale: bool)
    ensures stale == Stale(rec, w)
  {
    if !rec.persistent {
      if !PidAlive(w, rec.pid) { return true; }
      return false;
    }
    if w.game { return false; }
    if rec.deadline.None? { return true; }
    if w.now > rec.deadline.value { return true; }
    return false;
  }

  // ----- runs of many processes -----

  /**
   * The machine: the file, the world, the live tool processes with their session names, and which
   * of them hold a transient lock they have not given back.
   */
  datatype Rig = Rig(file: File, world: World, tools: map<int, string>, holders: set<int>)

  datatype Action =
    | Spawn(pid: int, session: string)
    | OtherStarts(pid: int)
    | Exit(pid: int)
    | Acquire(pid: int, minutes: int, persistent: bool)
    | Release(pid: int)
    | Environment(now: int, game: bool)

  /** An action that can happen: live tools have distinct session names, the clock does not go back. */
  predicate Possible(r: Rig, a: Action) {
    match a
    case Spawn(pid, session) =>
      pid > 0 && pid !in r.world.alive && forall q :: q in r.tools ==> r.tools[q] != session
    case OtherStarts(pid) => pid > 0 && pid !in r.world.alive
    case Exit(pid) => pid in r.world.alive
    case Acquire(pid, _, _) => pid in r.tools
    case Release(pid) => pid in r.tools
    case Environment(now, _) => now >= r.world.now
  }

  function Do(r: Rig, a: Action): Rig
    requires Possible(r, a)
  {
    match a
    case Spawn(pid, session) =>
      r.(tools := r.tools[pid := session], world := r.world.(alive := r.world.alive + {pid}))
    case OtherStarts(pid) => r.(world := r.world.(alive := r.world.alive + {pid}))
    case Exit(pid) =>
      r.(tools := r.tools - {pid}, holders := r.holders - {pid},
         world := r.world.(alive := r.world.alive - {pid}))
    case Acquire(pid, minutes, persistent) =>
      if Obtainable(r.file, r.world) then
        r.(file := Held(NewRecord(r.tools[pid], pid, minutes, persistent, r.world)),
           holders := if persistent then r.holders else r.holders + {pid})
      else r
    case Release(pid) =>
      if Droppable(r.file, r.tools[pid], r.world) then r.(file := Missing, holders := r.holders - {pid})
      else r
    case Environment(now, game) => r.(world := r.world.(now := now, game := game))
  }

  function Start(f: File, w: World): Rig { Rig(f, w, map[], {}) }

  /** The rig after a sequence of possible actions. */
  ghost predicate PossibleAll(r: Rig, acts: seq<Action>)
    decreases |acts|
  {
    acts == [] || (Possible(r, acts[0]) && PossibleAll(Do(r, acts[0]), acts[1..]))
  }

  /** The rig before action `i` of a run, or at its end. */
  function After(r: Rig, acts: seq<Action>, i: nat): Rig
    requires PossibleAll(r, acts) && i <= |acts|
    decreases i
  {
    if i == 0 then r else After(Do(r, acts[0]), acts[1..], i - 1)
  }

  function DoAll(r: Rig, acts: seq<Action>): Rig
    requires PossibleAll(r, acts)
  {
    After(r, acts, |acts|)
  }

  /** Whoever holds a transient lock is a live tool process, and the file says so. */
  ghost predicate Safe(r: Rig) {
    && (forall p :: p in r.tools ==> p > 0 && p in r.world.alive)
    && (forall p, q :: p in r.tools && q in r.tools && p != q ==> r.tools[p] != r.tools[q])
    && (forall p :: p in r.holders ==>
          && p in r.tools && r.file.Held? && r.file.rec.pid == p
          && r.file.rec.session == r.tools[p] && !r.file.rec.persistent)
  }

  lemma StepStaysSafe(r: Rig, a: Action)
    requires Safe(r) && Possible(r, a)
    ensures Safe(Do(r, a))
  {
  }

  /** Mutual exclusion over whole runs, from any file whatever: at most one live transient holder. */
  lemma {:induction false} AtMostOneHolder(r: Rig, acts: seq<Action>)
    requires Safe(r) && PossibleAll(r, acts)
    ensures Safe(DoAll(r, acts))
    ensures forall p, q :: p in DoAll(r, acts).holders && q in DoAll(r, acts).holders ==> p == q
    decreases |acts|
  {
    if acts != [] {
      StepStaysSafe(r, acts[0]);
      AtMostOneHolder(Do(r, acts[0]), acts[1..]);
    }
  }

  lemma StartIsSafe(f: File, w: World)
    ensures Safe(Start(f, w))
  {
  }

  /** The action that ends a holder's own tenure. */
  predicate GivesUp(a: Action, p: int) { a == Release(p) || a == Exit(p) }

  /**
   * A live transient holder is never displaced: through any run in which it neither releases nor
   * exits, the very record it wrote stays in the file, however far past its deadline.
   */
  lemma {:induction false} HolderKeepsItsRecord(r: Rig, acts: seq<Action>, p: int)
    requires Safe(r) && PossibleAll(r, acts) && p in r.holders
    requires forall i :: 0 <= i < |acts| ==> !GivesUp(acts[i], p)
    ensures p in DoAll(r, acts).holders && DoAll(r, acts).file == r.file
    decreases |acts|
  {
    if acts != [] {
      StepStaysSafe(r, acts[0]);
      var n := Do(r, acts[0]);
      assert !GivesUp(acts[0], p);
      forall i | 0 <= i < |acts[1..]| ensures !GivesUp(acts[1..][i], p) { assert acts[1..][i] == acts[i + 1]; }
      HolderKeepsItsRecord(n, acts[1..], p);
    }
  }

  lemma {:induction false} AfterStep(r: Rig, acts: seq<Action>, i: nat)
    requires PossibleAll(r, acts) && i < |acts|
    ensures Possible(After(r, acts, i), acts[i])
    ensures After(r, acts, i + 1) == Do(After(r, acts, i), acts[i])
    decreases i
  {
    var rest, n := acts[1..], Do(r, acts[0]);
    if i > 0 {
      assert acts[i] == rest[i - 1];
      AfterStep(n, rest, i - 1);
      assert After(r, acts, i + 1) == After(n, rest, i);
    } else {
      assert After(n, rest, 0) == n;
    }
  }

  /** No game is up and the deadline has passed or cannot be read. */
  predicate Expired(rec: Record, w: World) { !w.game && (rec.deadline.None? || w.now > rec.deadline.value) }

  /** The take-overs and releases that may remove a record from the file. */
  predicate MayRemove(a: Action, rec: Record, r: Rig)
    requires Possible(r, a)
  {
    match a
    case Acquire(_, _, _) => if rec.persistent then Expired(rec, r.world) else !PidAlive(r.world, rec.pid)
    case Release(pid) => r.tools[pid] == rec.session || !PidAlive(r.world, rec.pid)
    case _ => false
  }

  /**
   * Whatever a run did to a record, the action that first removed it was a take-over of an expired
   * persistent lock, a take-over from a dead process, or a release by its own session or after its
   * process died.
   */
  lemma {:induction false} RecordLeavesOnlyBy(r: Rig, acts: seq<Action>) returns (k: nat)
    requires PossibleAll(r, acts) && r.file.Held? && DoAll(r, acts).file != r.file
    ensures k < |acts| && Possible(After(r, acts, k), acts[k])
    ensures forall i :: 0 <= i <= k ==> After(r, acts, i).file == r.file
    ensures MayRemove(acts[k], r.file.rec, After(r, acts, k))
    ensures After(r, acts, k + 1).file != r.file
    decreases |acts|
  {
    var n := Do(r, acts[0]);
    if n.file != r.file {
      k := 0;
    } else {
      var j := RecordLeavesOnlyBy(n, acts[1..]);
      k := j + 1;
      forall i | 0 <= i <= k ensures After(r, acts, i).file == r.file {
        if i > 0 { assert After(r, acts, i) == After(n, acts[1..], i - 1); }
      }
    }
  }

  /**
   * While a game is up, a persistent lock survives every run of acquires, exits, starts and clock
   * ticks: only a release can take it away.
   */
  lemma {:induction false} GameKeepsPersistentLock(r: Rig, acts: seq<Action>)
    requires PossibleAll(r, acts) && r.file.Held? && r.file.rec.persistent && r.world.game
    requires forall i :: 0 <= i < |acts| ==> !acts[i].Release? && (acts[i].Environment? ==> acts[i].game)
    ensures DoAll(r, acts).file == r.file
    decreases |acts|
  {
    if acts != [] {
      forall i | 0 <= i < |acts[1..]| ensures acts[1..][i] == acts[i + 1] {}
      GameKeepsPersistentLock(Do(r, acts[0]), acts[1..]);
    }
  }

  /** A crashed transient holder blocks nobody: its exit makes the very next acquire succeed. */
  lemma CrashFreesTheRig(r: Rig, p: int, q: int, minutes: int, persistent: bool)
    requires Safe(r) && p in r.holders && q in r.tools && q != p
    ensures PossibleAll(r, [Exit(p), Acquire(q, minutes, persistent)])
    ensures var n := DoAll(r, [Exit(p), Acquire(q, minutes, persistent)]);
      n.file.Held? && n.file.rec.pid == q && n.file.rec.session == r.tools[q]
  {
    var m := Do(r, Exit(p));
    assert [Exit(p), Acquire(q, minutes, persistent)][1..] == [Acquire(q, minutes, persistent)];
    assert [Acquire(q, minutes, persistent)][1..] == [];
    assert PossibleAll(m, [Acquire(q, minutes, persistent)]);
    assert DoAll(m, [Acquire(q, minutes, persistent)]) == Do(m, Acquire(q, minutes, persistent));
  }

  /**
   * A crashed launcher cannot block the rig for good: in any run without a release, a persistent
   * lock stays exactly until the first acquire made with the game down and the deadline past, and
   * that acquire succeeds and puts its own record there.
   */
  lemma {:induction false} ExpiredPersistentIsTaken(r: Rig, acts: seq<Action>, k: nat)
    requires PossibleAll(r, acts) && r.file.Held? && r.file.rec.persistent && k < |acts|
    requires forall i :: 0 <= i < k ==> !acts[i].Release?
    requires forall i :: 0 <= i < k && acts[i].Acquire? ==> !Expired(r.file.rec, After(r, acts, i).world)
    requires acts[k].Acquire? && Expired(r.file.rec, After(r, acts, k).world)
    ensures forall i :: 0 <= i <= k ==> After(r, acts, i).file == r.file
    ensures var m := After(r, acts, k);
      acts[k].pid in m.tools &&
      After(r, acts, k + 1).file
        == Held(NewRecord(m.tools[acts[k].pid], acts[k].pid, acts[k].minutes, acts[k].persistent, m.world))
  {
    for j := 0 to k
      invariant forall i :: 0 <= i <= j ==> After(r, acts, i).file == r.file
    {
      AfterStep(r, acts, j);
      assert acts[j].Acquire? ==> !Expired(r.file.rec, After(r, acts, j).world);
    }
    AfterStep(r, acts, k);
  }

  // ----- how long a lock lasts -----

  /** A new record is its taker's, and its deadline is the asked-for minutes ahead, cut to the second. */
  lemma NewRecordIs(session: string, pid: int, minutes: int, persistent: bool, w: World)
    ensures var rec := NewRecord(session, pid, minutes, persistent, w);
      && rec.session == session && rec.pid == pid && rec.persistent == persistent
      && rec.deadline.Some? && rec.deadline.value % 1_000_000 == 0
      && rec.deadline.value <= w.now + minutes * 60_000_000 < rec.deadline.value + 1_000_000
  {
  }

  /**
   * A persistent lock lasts its minutes: in every run without a release it stays as it was taken, game or
   * no game, until the last second of the minutes it was taken for.
   */
  lemma PersistentLastsItsMinutes(r: Rig, acts: seq<Action>, session: string, pid: int, minutes: int, w: World)
    requires PossibleAll(r, acts) && r.file == Held(NewRecord(session, pid, minutes, true, w))
    requires forall i :: 0 <= i < |acts| ==> !acts[i].Release?
    requires forall i :: 0 <= i <= |acts| ==> After(r, acts, i).world.now <= w.now + minutes * 60_000_000 - 1_000_000
    ensures DoAll(r, acts).file == r.file
  {
    hide NewRecord, Possible, Do, After;
    NewRecordIs(session, pid, minutes, true, w);
    forall k | 0 <= k < |acts| && Possible(After(r, acts, k), acts[k])
      ensures !MayRemove(acts[k], r.file.rec, After(r, acts, k))
    {
      assert After(r, acts, k).world.now <= w.now + minutes * 60_000_000 - 1_000_000;
    }
    if DoAll(r, acts).file != r.file {
      var k := RecordLeavesOnlyBy(r, acts);
      assert false;
    }
  }
}
