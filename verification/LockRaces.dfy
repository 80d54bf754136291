/**
 * The same lock with acquire and release taken apart into the file operations and probes they
 * perform, so that other processes can run in between: exclusive create, read, probe, truncate,
 * write; peek, probe, unlink. All locks here are transient. The single-step view of GameLock is right
 * as long as no two processes are inside their windows at once.
 */
module LockRaces {
  import opened Results
  import opened GameLock

  /**
   * Where a process is: outside; in `acquire` with the file open and not yet written, after finding
   * the file present, after reading the record of a process it has yet to probe, or after deciding to
   * overwrite; past a successful return of `acquire`; or in `release`, after reading the record of
   * another process it has yet to probe, or after deciding to unlink.
   */
  datatype Place = Idle | Created | Found | Seen(pid: int) | Judged | Holding | Checking(pid: int) | Freeing

  datatype Fine = Fine(file: File, at: map<int, Place>)

  datatype Move = Open(pid: int) | Look(pid: int) | Probe(pid: int) | Truncate(pid: int) | Write(pid: int)
                | Peek(pid: int) | Unlink(pid: int) | Die(pid: int)

  function Mine(pid: int): File { Held(Record("", pid, None, false)) }

  predicate CanMove(s: Fine, m: Move) {
    m.pid in s.at &&
    match m
    case Open(p) => s.at[p] == Idle
    case Look(p) => s.at[p] == Found
    case Probe(p) => s.at[p].Seen? || s.at[p].Checking?
    case Truncate(p) => s.at[p] == Judged
    case Write(p) => s.at[p] == Created
    case Peek(p) => s.at[p] == Idle || s.at[p] == Holding
    case Unlink(p) => s.at[p] == Freeing
    case Die(_) => true
  }

  /** `acquire` reads the file: missing by now or unreadable is as good as stale. */
  function Read(f: File): Place { if f.Held? then Seen(f.rec.pid) else Judged }

  /** `release` reads the file: nothing to do, its own record, or another's. */
  function PeekAt(f: File, p: int): Place {
    if !f.Held? then Idle else if f.rec.pid == p then Freeing else Checking(f.rec.pid)
  }

  /** The process whose record was read is probed: alive means giving up, dead means going on. */
  function Probed(at: map<int, Place>, place: Place): Place
    requires place.Seen? || place.Checking?
  {
    if place.pid in at then Idle else if place.Seen? then Judged else Freeing
  }

  function Apply(s: Fine, m: Move): Fine
    requires CanMove(s, m)
  {
    match m
    case Open(p) => if s.file == Missing then Fine(Garbage, s.at[p := Created]) else s.(at := s.at[p := Found])
    case Look(p) => s.(at := s.at[p := Read(s.file)])
    case Probe(p) => s.(at := s.at[p := Probed(s.at, s.at[p])])
    case Truncate(p) => Fine(Garbage, s.at[p := Created])
    case Write(p) => Fine(Mine(p), s.at[p := Holding])
    case Peek(p) => s.(at := s.at[p := PeekAt(s.file, p)])
    case Unlink(p) => Fine(Missing, s.at[p := Idle])
    case Die(p) => s.(at := s.at - {p})
  }

  ghost predicate CanMoveAll(s: Fine, ms: seq<Move>)
    decreases |ms|
  {
    ms == [] || (CanMove(s, ms[0]) && CanMoveAll(Apply(s, ms[0]), ms[1..]))
  }

  function ApplyAll(s: Fine, ms: seq<Move>): Fine
    requires CanMoveAll(s, ms)
    decreases |ms|
  {
    if ms == [] then s else ApplyAll(Apply(s, ms[0]), ms[1..])
  }

  /** Bound to change the file, whatever the others do. */
  predicate Committed(s: Fine, p: int) {
    p in s.at && (s.at[p] == Created || s.at[p] == Judged || s.at[p] == Freeing)
  }

  /** The process whose record this one has read and has yet to probe. */
  function Viewed(place: Place): Option<int> {
    if place.Seen? || place.Checking? then Some(place.pid) else None
  }

  /**
   * Inside its window: bound to change the file, or holding on to the record of a process that is
   * dead, or that neither has its record in the file any more nor is about to put one there.
   */
  predicate InWindow(s: Fine, p: int) {
    p in s.at &&
    (Committed(s, p) ||
     var v := Viewed(s.at[p]);
     v.Some? && (v.value in s.at ==> s.file != Mine(v.value) && !Committed(s, v.value)))
  }

  ghost predicate OneWindow(s: Fine) {
    forall p, q :: InWindow(s, p) && InWindow(s, q) ==> p == q
  }

  ghost predicate OneWindowThroughout(s: Fine, ms: seq<Move>)
    requires CanMoveAll(s, ms)
    decreases |ms|
  {
    OneWindow(s) && (ms == [] || OneWindowThroughout(Apply(s, ms[0]), ms[1..]))
  }

  ghost predicate Exclusive(s: Fine) {
    forall p, q :: p in s.at && q in s.at && s.at[p] == Holding && s.at[q] == Holding ==> p == q
  }

  /**
   * A holder's record is in the file and nobody is inside a window; and a file that a process has
   * open for its record is still without one.
   */
  ghost predicate Guarded(s: Fine) {
    && (forall p :: p in s.at && s.at[p] == Holding ==> s.file == Mine(p) && forall q :: !InWindow(s, q))
    && (forall p :: p in s.at && s.at[p] == Created ==> s.file == Garbage)
  }

  /** The one process inside a window writes: now it holds, and nobody is inside a window. */
  lemma WriteStaysGuarded(s: Fine, w: int)
    requires Guarded(s) && CanMove(s, Write(w)) && OneWindow(s)
    ensures Guarded(Apply(s, Write(w)))
  {
    var t := Apply(s, Write(w));
    assert InWindow(s, w);
    forall q ensures !InWindow(t, q) {
      assert InWindow(s, q) ==> q == w;
      if q in s.at && Viewed(s.at[q]).Some? {
        var x := Viewed(s.at[q]).value;
        assert InWindow(s, x) ==> x == w;
      }
    }
    assert forall p :: p in s.at ==> s.at[p] != Holding;
    assert forall p :: p in s.at && s.at[p] == Created ==> InWindow(s, p);
  }

  /** Any other move while some process holds the lock. */
  lemma HolderStaysGuarded(s: Fine, m: Move, p: int)
    requires Guarded(s) && CanMove(s, m) && !m.Write? && p in s.at && s.at[p] == Holding
    requires p in Apply(s, m).at && Apply(s, m).at[p] == Holding
    ensures Apply(s, m).file == Mine(p) && forall q :: !InWindow(Apply(s, m), q)
  {
    var t := Apply(s, m);
    assert !InWindow(s, m.pid) && t.file == s.file;
    forall q ensures !InWindow(t, q) {
      assert !InWindow(s, q);
    }
  }

  lemma MoveStaysGuarded(s: Fine, m: Move)
    requires Guarded(s) && CanMove(s, m) && OneWindow(s)
    ensures Guarded(Apply(s, m))
  {
    var t := Apply(s, m);
    if m.Write? {
      WriteStaysGuarded(s, m.pid);
    } else {
      forall p | p in t.at && t.at[p] == Holding
        ensures t.file == Mine(p) && forall q :: !InWindow(t, q)
      {
        HolderStaysGuarded(s, m, p);
      }
      forall p | p in t.at && t.at[p] == Created ensures t.file == Garbage {
        if p != m.pid { assert InWindow(s, p) && (Committed(s, m.pid) ==> InWindow(s, m.pid)); }
      }
    }
  }

  /** If no two windows ever overlap, mutual exclusion holds at file-operation granularity too. */
  lemma {:induction false} SeparateWindowsExclude(s: Fine, ms: seq<Move>)
    requires Guarded(s) && CanMoveAll(s, ms) && OneWindowThroughout(s, ms)
    ensures Guarded(ApplyAll(s, ms)) && Exclusive(ApplyAll(s, ms))
    decreases |ms|
  {
    if ms != [] {
      MoveStaysGuarded(s, ms[0]);
      SeparateWindowsExclude(Apply(s, ms[0]), ms[1..]);
    }
  }

  /** The states a run passes through are its states one move apart. */
  lemma {:induction false} Along(ss: seq<Fine>, ms: seq<Move>)
    requires |ss| == |ms| + 1
    requires forall i :: 0 <= i < |ms| ==> CanMove(ss[i], ms[i]) && ss[i + 1] == Apply(ss[i], ms[i])
    ensures CanMoveAll(ss[0], ms) && ApplyAll(ss[0], ms) == ss[|ms|]
    decreases |ms|
  {
    if ms != [] {
      forall i | 0 <= i < |ms[1..]|
        ensures CanMove(ss[1..][i], ms[1..][i]) && ss[1..][i + 1] == Apply(ss[1..][i], ms[1..][i])
      {
        assert CanMove(ss[i + 1], ms[i + 1]) && ss[i + 2] == Apply(ss[i + 1], ms[i + 1]);
      }
      Along(ss[1..], ms[1..]);
    }
  }

  lemma {:induction false} RunOn(s: Fine, ms: seq<Move>, ns: seq<Move>)
    requires CanMoveAll(s, ms) && CanMoveAll(ApplyAll(s, ms), ns)
    ensures CanMoveAll(s, ms + ns) && ApplyAll(s, ms + ns) == ApplyAll(ApplyAll(s, ms), ns)
    decreases |ms|
  {
    if ms == [] {
      assert ms + ns == ns;
    } else {
      RunOn(Apply(s, ms[0]), ms[1..], ns);
      assert (ms + ns)[0] == ms[0] && (ms + ns)[1..] == ms[1..] + ns;
    }
  }

  /** A process bound to change the file can go on alone until it holds the lock. */
  lemma CommittedFinishes(s: Fine, p: int) returns (ms: seq<Move>)
    requires Committed(s, p)
    ensures forall m :: m in ms ==> m.pid == p
    ensures CanMoveAll(s, ms) && ApplyAll(s, ms).at == s.at[p := Holding]
  {
    if s.at[p] == Created {
      ms := [Write(p)];
      Along([s, Apply(s, Write(p))], ms);
    } else if s.at[p] == Judged {
      ms := [Truncate(p), Write(p)];
      var s1 := Apply(s, Truncate(p));
      Along([s, s1, Apply(s1, Write(p))], ms);
    } else {
      ms := [Unlink(p), Open(p), Write(p)];
      var s1 := Apply(s, Unlink(p));
      var s2 := Apply(s1, Open(p));
      Along([s, s1, s2, Apply(s2, Write(p))], ms);
    }
  }

  /** A death that a process is waiting to see: that of the one whose record it has read. */
  predicate ViewedDeath(s: Fine, p: int, m: Move) {
    p in s.at && m == Die(m.pid) && Viewed(s.at[p]) == Some(m.pid)
  }

  /** What a process inside its window is about to do, once the process it has read of is dead. */
  function Next(place: Place): Place {
    if place.Seen? then Judged else if place.Checking? then Freeing else place
  }

  /** With the process it has read of dead, one inside its window becomes bound to change the file. */
  lemma Commits(s: Fine, p: int) returns (ms: seq<Move>, t: Fine)
    requires InWindow(s, p) && Viewed(s.at[p]) != Some(p)
    ensures forall m :: m in ms ==> m == Probe(p) || ViewedDeath(s, p, m)
    ensures CanMoveAll(s, ms) && t == ApplyAll(s, ms) && Committed(t, p)
    ensures forall q :: q in s.at && q != p && Viewed(s.at[p]) != Some(q) ==> q in t.at && t.at[q] == s.at[q]
    ensures forall q :: q in t.at && q != p ==> q in s.at && t.at[q] == s.at[q]
    ensures t.file == s.file
  {
    if Committed(s, p) {
      ms, t := [], s;
    } else {
      var x := Viewed(s.at[p]).value;
      if x in s.at {
        ms := [Die(x), Probe(p)];
        var s1 := Apply(s, Die(x));
        t := Apply(s1, Probe(p));
        Along([s, s1, t], ms);
      } else {
        ms := [Probe(p)];
        t := Apply(s, Probe(p));
        Along([s, t], ms);
      }
    }
  }

  lemma BothFinish(s: Fine, p: int, q: int) returns (ms: seq<Move>)
    requires p != q && Committed(s, p) && Committed(s, q)
    ensures forall m :: m in ms ==> m.pid == p || m.pid == q
    ensures CanMoveAll(s, ms) && !Exclusive(ApplyAll(s, ms))
  {
    // Whoever is about to unlink goes last, so that the other has closed the file by then.
    var first, second := p, q;
    if s.at[p] == Freeing { first, second := q, p; }
    var ms1 := CommittedFinishes(s, first);
    var t := ApplyAll(s, ms1);
    var ms2 := CommittedFinishes(t, second);
    RunOn(s, ms1, ms2);
    ms := ms1 + ms2;
    var u := ApplyAll(s, ms);
    assert u.at[p] == Holding && u.at[q] == Holding;
  }

  /**
   * Separate windows are what it takes: in any state at all, two processes inside their windows at
   * once, neither looking at its own or the other's record, can both go on until both hold the lock,
   * with no move of anybody else but the deaths of the processes whose records they have read.
   */
  lemma OverlapLosesExclusion(s: Fine, p: int, q: int) returns (ms: seq<Move>)
    requires p != q && InWindow(s, p) && InWindow(s, q)
    requires Viewed(s.at[p]) !in {Some(p), Some(q)} && Viewed(s.at[q]) !in {Some(p), Some(q)}
    ensures forall m :: m in ms ==> m.pid == p || m.pid == q || ViewedDeath(s, p, m) || ViewedDeath(s, q, m)
    ensures CanMoveAll(s, ms) && !Exclusive(ApplyAll(s, ms))
  {
    var ms1, t := Commits(s, p);
    assert InWindow(t, q) by { StaysIn(s, t, p, q); }
    var ms2, u := Commits(t, q);
    var ms3 := BothFinish(u, p, q);
    RunOn(s, ms1, ms2);
    RunOn(s, ms1 + ms2, ms3);
    ms := ms1 + ms2 + ms3;
  }

  /** A process that goes on does not take another out of its window. */
  lemma StaysIn(s: Fine, t: Fine, p: int, q: int)
    requires p != q && InWindow(s, q) && q in t.at && t.at[q] == s.at[q] && t.file == s.file
    requires Viewed(s.at[q]) != Some(p) && Viewed(s.at[q]) != Some(q)
    requires forall r :: r in t.at && r != p ==> r in s.at && t.at[r] == s.at[r]
    ensures InWindow(t, q)
  {
    if !Committed(s, q) {
      var x := Viewed(s.at[q]).value;
      if x in t.at { assert x in s.at && t.at[x] == s.at[x]; }
    }
  }

  /**
   * Overlaps do arise. From a free rig, the second process finds the first one's file created but
   * still empty and takes it for garbage; both return success.
   */
  lemma CreateWriteRace(a: int, b: int)
    requires a != b
    ensures var s := Fine(Missing, map[a := Idle, b := Idle]);
      var ms := [Open(a), Open(b), Look(b), Truncate(b), Write(b), Write(a)];
      CanMoveAll(s, ms) && !Exclusive(ApplyAll(s, ms))
  {
    var s0 := Fine(Missing, map[a := Idle, b := Idle]);
    var s1 := Apply(s0, Open(a));
    var s2 := Apply(s1, Open(b));
    var s3 := Apply(s2, Look(b));
    var s4 := Apply(s3, Truncate(b));
    var s5 := Apply(s4, Write(b));
    var s6 := Apply(s5, Write(a));
    Along([s0, s1, s2, s3, s4, s5, s6], [Open(a), Open(b), Look(b), Truncate(b), Write(b), Write(a)]);
    assert s6.at[a] == Holding && s6.at[b] == Holding;
  }

  /** Both processes read the record of a dead holder and judge it stale. */
  lemma BothJudge(a: int, b: int, dead: int) returns (ms: seq<Move>)
    requires a != b && dead != a && dead != b
    ensures ms == [Open(a), Open(b), Look(a), Look(b), Probe(a), Probe(b)]
    ensures var s := Fine(Mine(dead), map[a := Idle, b := Idle]);
      CanMoveAll(s, ms) && ApplyAll(s, ms).at == map[a := Judged, b := Judged]
  {
    var s0 := Fine(Mine(dead), map[a := Idle, b := Idle]);
    var s1 := Apply(s0, Open(a));
    var s2 := Apply(s1, Open(b));
    var s3 := Apply(s2, Look(a));
    var s4 := Apply(s3, Look(b));
    var s5 := Apply(s4, Probe(a));
    var s6 := Apply(s5, Probe(b));
    ms := [Open(a), Open(b), Look(a), Look(b), Probe(a), Probe(b)];
    Along([s0, s1, s2, s3, s4, s5, s6], ms);
  }

  /** Two processes that both find a dead holder's record and judge it stale both take the lock. */
  lemma StaleBreakRace(a: int, b: int, dead: int)
    requires a != b && dead != a && dead != b
    ensures var s := Fine(Mine(dead), map[a := Idle, b := Idle]);
      var ms := [Open(a), Open(b), Look(a), Look(b), Probe(a), Probe(b)]
        + [Truncate(a), Write(a), Truncate(b), Write(b)];
      CanMoveAll(s, ms) && !Exclusive(ApplyAll(s, ms))
  {
    var s0 := Fine(Mine(dead), map[a := Idle, b := Idle]);
    var ms1 := BothJudge(a, b, dead);
    var s1 := ApplyAll(s0, ms1);
    var s2 := Apply(s1, Truncate(a));
    var s3 := Apply(s2, Write(a));
    var s4 := Apply(s3, Truncate(b));
    var s5 := Apply(s4, Write(b));
    Along([s1, s2, s3, s4, s5], [Truncate(a), Write(a), Truncate(b), Write(b)]);
    RunOn(s0, ms1, [Truncate(a), Write(a), Truncate(b), Write(b)]);
    assert s5.at[a] == Holding && s5.at[b] == Holding;
  }

  /** One process is about to unlink a dead holder's record while another takes the lock over. */
  lemma TakenBehind(k: int, a: int, b: int, dead: int) returns (ms: seq<Move>)
    requires k != a && k != b && a != b && dead != k && dead != a && dead != b
    ensures ms == [Peek(k), Probe(k), Open(a), Look(a), Probe(a), Truncate(a), Write(a)]
    ensures var s := Fine(Mine(dead), map[k := Idle, a := Idle, b := Idle]);
      CanMoveAll(s, ms) && ApplyAll(s, ms).at == map[k := Freeing, a := Holding, b := Idle]
  {
    var s0 := Fine(Mine(dead), map[k := Idle, a := Idle, b := Idle]);
    var s1 := Apply(s0, Peek(k));
    var s2 := Apply(s1, Probe(k));
    var s3 := Apply(s2, Open(a));
    var s4 := Apply(s3, Look(a));
    var s5 := Apply(s4, Probe(a));
    var s6 := Apply(s5, Truncate(a));
    var s7 := Apply(s6, Write(a));
    ms := [Peek(k), Probe(k), Open(a), Look(a), Probe(a), Truncate(a), Write(a)];
    Along([s0, s1, s2, s3, s4, s5, s6, s7], ms);
  }

  /**
   * Release has the same gap: a process that saw a dead holder's record unlinks the lock that
   * another took in the meantime, and a third creates it anew beside the second.
   */
  lemma ReleaseRace(k: int, a: int, b: int, dead: int)
    requires k != a && k != b && a != b && dead != k && dead != a && dead != b
    ensures var s := Fine(Mine(dead), map[k := Idle, a := Idle, b := Idle]);
      var ms := [Peek(k), Probe(k), Open(a), Look(a), Probe(a), Truncate(a), Write(a)] + [Unlink(k), Open(b), Write(b)];
      CanMoveAll(s, ms) && !Exclusive(ApplyAll(s, ms))
  {
    var s0 := Fine(Mine(dead), map[k := Idle, a := Idle, b := Idle]);
    var ms1 := TakenBehind(k, a, b, dead);
    var s1 := ApplyAll(s0, ms1);
    var s2 := Apply(s1, Unlink(k));
    var s3 := Apply(s2, Open(b));
    var s4 := Apply(s3, Write(b));
    Along([s1, s2, s3, s4], [Unlink(k), Open(b), Write(b)]);
    RunOn(s0, ms1, [Unlink(k), Open(b), Write(b)]);
    assert s4.at[a] == Holding && s4.at[b] == Holding;
  }

  /** A process has read a live holder's record; the holder releases and exits, another takes the lock. */
  lemma SeenTooEarly(h: int, a: int, b: int) returns (ms: seq<Move>)
    requires h != a && h != b && a != b
    ensures ms == [Open(a), Look(a), Peek(h), Unlink(h), Die(h), Open(b), Write(b)]
    ensures var s := Fine(Mine(h), map[h := Holding, a := Idle, b := Idle]);
      CanMoveAll(s, ms) && ApplyAll(s, ms).at == map[a := Seen(h), b := Holding]
  {
    var s0 := Fine(Mine(h), map[h := Holding, a := Idle, b := Idle]);
    var s1 := Apply(s0, Open(a));
    var s2 := Apply(s1, Look(a));
    var s3 := Apply(s2, Peek(h));
    var s4 := Apply(s3, Unlink(h));
    var s5 := Apply(s4, Die(h));
    var s6 := Apply(s5, Open(b));
    var s7 := Apply(s6, Write(b));
    ms := [Open(a), Look(a), Peek(h), Unlink(h), Die(h), Open(b), Write(b)];
    Along([s0, s1, s2, s3, s4, s5, s6, s7], ms);
    assert s7.at == map[a := Seen(h), b := Holding];
  }

  /**
   * Even with a live holder to begin with: a process reads the holder's record, the holder releases
   * and exits, another takes the lock, and the probe then finds the first holder dead.
   */
  lemma LateProbeRace(h: int, a: int, b: int)
    requires h != a && h != b && a != b
    ensures var s := Fine(Mine(h), map[h := Holding, a := Idle, b := Idle]);
      var ms := [Open(a), Look(a), Peek(h), Unlink(h), Die(h), Open(b), Write(b)] + [Probe(a), Truncate(a), Write(a)];
      CanMoveAll(s, ms) && Guarded(s) && !Exclusive(ApplyAll(s, ms))
  {
    var s0 := Fine(Mine(h), map[h := Holding, a := Idle, b := Idle]);
    var ms1 := SeenTooEarly(h, a, b);
    var s1 := ApplyAll(s0, ms1);
    var s2 := Apply(s1, Probe(a));
    var s3 := Apply(s2, Truncate(a));
    var s4 := Apply(s3, Write(a));
    Along([s1, s2, s3, s4], [Probe(a), Truncate(a), Write(a)]);
    RunOn(s0, ms1, [Probe(a), Truncate(a), Write(a)]);
    assert s4.at[a] == Holding && s4.at[b] == Holding;
  }
}
