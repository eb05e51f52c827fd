// Entering and leaving a monitor, built from a mutex, a condition and a flag, as
// the interleaved steps of any number of threads.
module MonitorProtocol {

  /** Where a thread stands.  Those between a lock and its unlock own the mutex;
      waiting gives it up. */
  datatype Pc =
    | Outside
    | EnterLock     // enter_monitor: about to lock the mutex
    | EnterTest     // owns the mutex, about to read the flag
    | EnterTake     // owns the mutex, saw the flag set, about to clear it
    | EnterUnlock   // owns the mutex, cleared the flag
    | Waiting       // asleep on the condition
    | Waking        // woken, about to lock the mutex again
    | Inside
    | ExitLock      // exit_monitor: about to lock the mutex
    | ExitSet       // owns the mutex, about to set the flag
    | ExitSignal    // owns the mutex, set the flag, about to signal
    | ExitUnlock    // owns the mutex, signalled

  datatype State = State(free: bool, locked: bool, pcs: seq<Pc>)

  predicate OwnsMutex(p: Pc) {
    p in {EnterTest, EnterTake, EnterUnlock, ExitSet, ExitSignal, ExitUnlock}
  }

  /** Between taking the flag and giving it back. */
  predicate Holds(p: Pc) {
    p in {EnterUnlock, Inside, ExitLock, ExitSet}
  }

  /** Will look at the flag, or signal, before it can sleep. */
  predicate OnItsWay(p: Pc) {
    p in {EnterTest, EnterTake, Waking, ExitSignal}
  }

  ghost predicate Init(s: State) {
    s.free && !s.locked && forall t | 0 <= t < |s.pcs| :: s.pcs[t] == Outside
  }

  function At(s: State, t: nat, p: Pc): State
    requires t < |s.pcs|
  {
    s.(pcs := s.pcs[t := p])
  }

  /** A step of thread t. */
  ghost predicate Step(s: State, t: nat, r: State)
    requires t < |s.pcs|
  {
    match s.pcs[t]
    case Outside => r == At(s, t, EnterLock)
    case EnterLock => !s.locked && r == At(s, t, EnterTest).(locked := true)
    case EnterTest => r == if s.free then At(s, t, EnterTake) else At(s, t, Waiting).(locked := false)
    case EnterTake => r == At(s, t, EnterUnlock).(free := false)
    case EnterUnlock => r == At(s, t, Inside).(locked := false)
    case Waiting => r == At(s, t, Waking)  // woken without a signal
    case Waking => !s.locked && r == At(s, t, EnterTest).(locked := true)
    case Inside => r == At(s, t, ExitLock)
    case ExitLock => !s.locked && r == At(s, t, ExitSet).(locked := true)
    case ExitSet => r == At(s, t, ExitSignal).(free := true)
    case ExitSignal => Signal(At(s, t, ExitUnlock), r)
    case ExitUnlock => r == At(s, t, Outside).(locked := false)
  }

  /** A signal wakes one of the sleepers, if there are any. */
  ghost predicate Signal(s: State, r: State) {
    if exists u: nat :: u < |s.pcs| && s.pcs[u] == Waiting
    then exists u: nat :: u < |s.pcs| && s.pcs[u] == Waiting && r == At(s, u, Waking)
    else r == s
  }

  ghost predicate Next(s: State, r: State) {
    exists t: nat :: t < |s.pcs| && Step(s, t, r)
  }

  ghost predicate IsRun(run: seq<State>) {
    |run| > 0 && Init(run[0]) && forall i | 0 <= i < |run| - 1 :: Next(run[i], run[i + 1])
  }

  // ----- invariants -----

  /** No two threads own the mutex, and one does exactly while it is locked. */
  ghost predicate MutexOk(s: State) {
    && (forall t: nat, u: nat | t < u < |s.pcs| :: !(OwnsMutex(s.pcs[t]) && OwnsMutex(s.pcs[u])))
    && (s.locked <==> exists t: nat :: t < |s.pcs| && OwnsMutex(s.pcs[t]))
  }

  /** No two threads hold the monitor, and one does exactly while the flag is
      clear; a thread that saw the flag set can rely on it. */
  ghost predicate FlagOk(s: State) {
    && (forall t: nat, u: nat | t < u < |s.pcs| :: !(Holds(s.pcs[t]) && Holds(s.pcs[u])))
    && (s.free <==> forall t: nat | t < |s.pcs| :: !Holds(s.pcs[t]))
    && SeenOk(s)
  }

  ghost predicate SeenOk(s: State) {
    forall t: nat | t < |s.pcs| && s.pcs[t] in {EnterTake, ExitSignal} :: s.free
  }

  /** No wake-up is lost: a free monitor with sleepers has a thread on its way. */
  ghost predicate NoneForgotten(s: State) {
    s.free && (exists t: nat :: t < |s.pcs| && s.pcs[t] == Waiting) ==>
      exists u: nat :: u < |s.pcs| && OnItsWay(s.pcs[u])
  }

  ghost predicate Inv(s: State) {
    MutexOk(s) && FlagOk(s) && NoneForgotten(s)
  }

  /** A step of t moves t, and a signal one sleeper. */
  lemma OthersStay(s: State, t: nat, r: State)
    requires t < |s.pcs| && Step(s, t, r)
    ensures |r.pcs| == |s.pcs|
    ensures forall u: nat | u < |s.pcs| && u != t ::
              r.pcs[u] == s.pcs[u] || (s.pcs[t] == ExitSignal && s.pcs[u] == Waiting && r.pcs[u] == Waking)
    ensures s.pcs[t] == ExitSignal ==> r.pcs[t] == ExitUnlock && r.free == s.free && r.locked == s.locked
  {
    if s.pcs[t] == ExitSignal {
      var q := At(s, t, ExitUnlock);
      if exists u: nat :: u < |q.pcs| && q.pcs[u] == Waiting {
        var u: nat :| u < |q.pcs| && q.pcs[u] == Waiting && r == At(q, u, Waking);
      }
    }
  }

  /** What a step does to the flag and the lock, and to the part of t in them. */
  lemma OwnStep(s: State, t: nat, r: State)
    requires t < |s.pcs| && Step(s, t, r) && |r.pcs| == |s.pcs|
    ensures if s.pcs[t] == EnterTake then !Holds(s.pcs[t]) && Holds(r.pcs[t]) && !r.free
            else if s.pcs[t] == ExitSet then Holds(s.pcs[t]) && !Holds(r.pcs[t]) && r.free
            else Holds(r.pcs[t]) == Holds(s.pcs[t]) && r.free == s.free
    ensures if !OwnsMutex(s.pcs[t]) && OwnsMutex(r.pcs[t]) then !s.locked && r.locked
            else if OwnsMutex(s.pcs[t]) && !OwnsMutex(r.pcs[t]) then !r.locked
            else r.locked == s.locked
    ensures r.pcs[t] == EnterTake ==> s.free && s.pcs[t] == EnterTest
    ensures r.pcs[t] == ExitSignal ==> s.pcs[t] == ExitSet
  {
    if s.pcs[t] == ExitSignal { OthersStay(s, t, r); }
  }

  lemma KeepsMutex(s: State, t: nat, r: State)
    requires MutexOk(s) && t < |s.pcs| && Step(s, t, r)
    ensures MutexOk(r)
  {
    OthersStay(s, t, r);
    OwnStep(s, t, r);
    hide Step;
    if s.locked {
      var w: nat :| w < |s.pcs| && OwnsMutex(s.pcs[w]);
      assert OwnsMutex(r.pcs[w]) || w == t;
    } else {
      assert !OwnsMutex(s.pcs[t]);
    }
    assert OwnsMutex(r.pcs[t]) ==> r.locked;
  }

  /** What a step does to who holds the monitor. */
  lemma HoldersStay(s: State, t: nat, r: State)
    requires SeenOk(s) && t < |s.pcs| && Step(s, t, r)
    ensures |r.pcs| == |s.pcs| && forall u: nat | u < |s.pcs| && u != t :: Holds(r.pcs[u]) == Holds(s.pcs[u])
    ensures if s.pcs[t] == EnterTake then s.free && Holds(r.pcs[t]) && !r.free
            else if s.pcs[t] == ExitSet then Holds(s.pcs[t]) && !Holds(r.pcs[t]) && r.free
            else Holds(r.pcs[t]) == Holds(s.pcs[t]) && r.free == s.free
  {
    OthersStay(s, t, r);
    OwnStep(s, t, r);
    hide Step;
  }

  lemma KeepsFlag(s: State, t: nat, r: State)
    requires MutexOk(s) && FlagOk(s) && t < |s.pcs| && Step(s, t, r)
    ensures FlagOk(r)
  {
    KeepsSeen(s, t, r);
    HoldersStay(s, t, r);
    hide Step, SeenOk, Holds, MutexOk;
    if !s.free {
      var w: nat :| w < |s.pcs| && Holds(s.pcs[w]);
      assert Holds(r.pcs[w]) || w == t;
    }
  }

  lemma KeepsSeen(s: State, t: nat, r: State)
    requires MutexOk(s) && SeenOk(s) && t < |s.pcs| && Step(s, t, r)
    ensures SeenOk(r)
  {
    OthersStay(s, t, r);
    OwnStep(s, t, r);
    hide Step;
    assert s.pcs[t] in {EnterTake, ExitSet} ==> OwnsMutex(s.pcs[t]);
    forall u: nat | u < |r.pcs| && r.pcs[u] in {EnterTake, ExitSignal}
      ensures r.free
    {
      assert u != t ==> OwnsMutex(s.pcs[u]) && s.free;
    }
  }

  lemma KeepsWakeUp(s: State, t: nat, r: State)
    requires Inv(s) && t < |s.pcs| && Step(s, t, r)
    ensures NoneForgotten(r)
  {
    if r.free && exists v: nat :: v < |r.pcs| && r.pcs[v] == Waiting {
      OthersStay(s, t, r);
      var v: nat :| v < |r.pcs| && r.pcs[v] == Waiting;
      if s.pcs[t] == ExitSignal {
        SignalWakes(s, t, r, v);
      } else if !OnItsWay(r.pcs[t]) {
        assert s.pcs[t] != EnterTest && s.free && v != t;
        var u: nat :| u < |s.pcs| && OnItsWay(s.pcs[u]);
        assert OnItsWay(r.pcs[u]);
      }
    }
  }

  /** With a sleeper left, a signal woke another one. */
  lemma SignalWakes(s: State, t: nat, r: State, v: nat)
    requires t < |s.pcs| && s.pcs[t] == ExitSignal && Step(s, t, r) && v < |r.pcs| && r.pcs[v] == Waiting
    ensures exists u: nat :: u < |r.pcs| && OnItsWay(r.pcs[u])
  {
    var q := At(s, t, ExitUnlock);
    assert exists u: nat :: u < |q.pcs| && q.pcs[u] == Waiting by {
      OthersStay(s, t, r);
      assert q.pcs[v] == Waiting;
    }
    var u: nat :| u < |q.pcs| && q.pcs[u] == Waiting && r == At(q, u, Waking);
    assert r.pcs[u] == Waking;
  }

  // ----- every run -----

  lemma {:induction false} EveryRun(run: seq<State>, i: nat)
    requires IsRun(run) && i < |run|
    ensures Inv(run[i])
    decreases i
  {
    hide Step, MutexOk, FlagOk, NoneForgotten;
    if i == 0 {
      assert Inv(run[0]) by { InitOk(run[0]); }
    } else {
      EveryRun(run, i - 1);
      var s, r := run[i - 1], run[i];
      assert Next(run[i - 1], run[i - 1 + 1]);
      var t: nat :| t < |s.pcs| && Step(s, t, r);
      KeepsMutex(s, t, r);
      KeepsFlag(s, t, r);
      KeepsWakeUp(s, t, r);
    }
  }

  lemma InitOk(s: State)
    requires Init(s)
    ensures Inv(s)
  {
  }

  /** Never are two threads inside. */
  lemma MutualExclusion(run: seq<State>, i: nat, t: nat, u: nat)
    requires IsRun(run) && i < |run| && t < |run[i].pcs| && u < |run[i].pcs|
    requires run[i].pcs[t] == Inside && run[i].pcs[u] == Inside
    ensures t == u
  {
    EveryRun(run, i);
    assert Holds(run[i].pcs[t]) && Holds(run[i].pcs[u]);
  }

  /** In no run does a free monitor have sleepers and nobody on the way to wake one
      or to take it. */
  lemma NoLostWakeUp(run: seq<State>, i: nat, t: nat)
    requires IsRun(run) && i < |run| && t < |run[i].pcs| && run[i].free && run[i].pcs[t] == Waiting
    ensures exists u: nat :: u < |run[i].pcs| && OnItsWay(run[i].pcs[u])
  {
    EveryRun(run, i);
  }

  // ----- progress -----

  /** Steps the protocol takes by itself: no arrival, no wake-up without a signal,
      and nobody leaves on its own account. */
  predicate Busy(p: Pc) {
    p !in {Outside, Waiting, Inside}
  }

  /** As long as nobody is inside, and not all are outside, a busy thread can step:
      the protocol does not hang. */
  lemma NoDeadlock(s: State) returns (t: nat, r: State)
    requires Inv(s) && (forall u: nat | u < |s.pcs| :: s.pcs[u] != Inside)
    requires exists u: nat :: u < |s.pcs| && s.pcs[u] != Outside
    ensures t < |s.pcs| && Busy(s.pcs[t]) && Step(s, t, r)
  {
    if s.locked {
      t :| t < |s.pcs| && OwnsMutex(s.pcs[t]);
      r := OwnerSteps(s, t);
    } else {
      var u: nat :| u < |s.pcs| && s.pcs[u] != Outside;
      t := u;
      if s.pcs[u] == Waiting {
        if s.free {
          t :| t < |s.pcs| && OnItsWay(s.pcs[t]);
        } else {
          t :| t < |s.pcs| && Holds(s.pcs[t]);
        }
      }
      assert !OwnsMutex(s.pcs[t]);
      r := LockerSteps(s, t);
    }
  }

  lemma LockerSteps(s: State, t: nat) returns (r: State)
    requires t < |s.pcs| && !s.locked && s.pcs[t] in {EnterLock, Waking, ExitLock}
    ensures Step(s, t, r)
  {
    r := At(s, t, if s.pcs[t] == ExitLock then ExitSet else EnterTest).(locked := true);
  }

  lemma OwnerSteps(s: State, t: nat) returns (r: State)
    requires t < |s.pcs| && OwnsMutex(s.pcs[t])
    ensures Step(s, t, r)
  {
    match s.pcs[t]
    case EnterTest => r := if s.free then At(s, t, EnterTake) else At(s, t, Waiting).(locked := false);
    case EnterTake => r := At(s, t, EnterUnlock).(free := false);
    case EnterUnlock => r := At(s, t, Inside).(locked := false);
    case ExitSet => r := At(s, t, ExitSignal).(free := true);
    case ExitSignal =>
      var q := At(s, t, ExitUnlock);
      r := q;
      if u: nat :| u < |q.pcs| && q.pcs[u] == Waiting {
        r := At(q, u, Waking);
      }
    case ExitUnlock => r := At(s, t, Outside).(locked := false);
  }

  function Weight(p: Pc): nat {
    match p
    case EnterLock | Waking => 4
    case EnterTest => 3
    case EnterTake => 2
    case EnterUnlock | ExitUnlock => 1
    case ExitLock => 8
    case ExitSet => 7
    case ExitSignal => 6
    case _ => 0
  }

  function Rank(pcs: seq<Pc>): nat {
    if pcs == [] then 0 else Rank(pcs[..|pcs| - 1]) + Weight(pcs[|pcs| - 1])
  }

  lemma {:induction false} RankAt(pcs: seq<Pc>, t: nat, p: Pc)
    requires t < |pcs|
    ensures Rank(pcs[t := p]) == Rank(pcs) - Weight(pcs[t]) + Weight(p)
  {
    var n := |pcs| - 1;
    if t < n {
      assert pcs[t := p][..n] == pcs[..n][t := p];
      RankAt(pcs[..n], t, p);
    } else {
      assert pcs[t := p][..n] == pcs[..n];
    }
  }

  /** Every busy step brings the protocol nearer to rest. */
  lemma RankFalls(s: State, t: nat, r: State)
    requires t < |s.pcs| && Busy(s.pcs[t]) && Step(s, t, r)
    ensures Rank(r.pcs) < Rank(s.pcs)
  {
    if s.pcs[t] == ExitSignal {
      var q := At(s, t, ExitUnlock);
      RankAt(s.pcs, t, ExitUnlock);
      if exists u: nat :: u < |q.pcs| && q.pcs[u] == Waiting {
        var u: nat :| u < |q.pcs| && q.pcs[u] == Waiting && r == At(q, u, Waking);
        RankAt(q.pcs, u, Waking);
      }
    } else {
      RankAt(s.pcs, t, r.pcs[t]);
      OneMoved(s, t, r);
    }
  }

  lemma OneMoved(s: State, t: nat, r: State)
    requires t < |s.pcs| && s.pcs[t] != ExitSignal && Step(s, t, r)
    ensures r.pcs == s.pcs[t := r.pcs[t]] && (Busy(s.pcs[t]) ==> Weight(r.pcs[t]) < Weight(s.pcs[t]))
  {
  }

  ghost predicate Settled(s: State) {
    (exists u: nat :: u < |s.pcs| && s.pcs[u] == Inside) || forall u: nat | u < |s.pcs| :: s.pcs[u] == Outside
  }

  ghost predicate BusyStep(s: State, r: State) {
    exists t: nat :: t < |s.pcs| && Busy(s.pcs[t]) && Step(s, t, r)
  }

  /** Left to itself the protocol lets somebody in, whichever busy threads step, in
      at most `Rank` steps, unless all end up outside. */
  lemma {:induction false} SomebodyGetsIn(run: seq<State>) returns (k: nat)
    requires |run| > 0 && Inv(run[0]) && |run| > Rank(run[0].pcs)
    requires forall i: nat | i < |run| - 1 :: BusyStep(run[i], run[i + 1])
    ensures k < |run| && Settled(run[k])
    decreases |run|
  {
    hide MutexOk, FlagOk, NoneForgotten;
    var s := run[0];
    k := 0;
    if !Settled(s) {
      var t, r := NoDeadlock(s);
      RankFalls(s, t, r);
      assert BusyStep(run[0], run[0 + 1]);
      var u: nat :| u < |s.pcs| && Busy(s.pcs[u]) && Step(s, u, run[1]);
      RankFalls(s, u, run[1]);
      KeepsMutex(s, u, run[1]);
      KeepsFlag(s, u, run[1]);
      KeepsWakeUp(s, u, run[1]);
      var rest := run[1..];
      forall i: nat | i < |rest| - 1
        ensures BusyStep(rest[i], rest[i + 1])
      {
        assert BusyStep(run[i + 1], run[i + 1 + 1]);
      }
      k := SomebodyGetsIn(rest);
      k := k + 1;
    }
  }

  // ----- one thread by itself -----

  /** Only t takes steps. */
  ghost predicate Alone(t: nat, path: seq<State>) {
    forall i: nat | i + 1 < |path| :: t < |path[i].pcs| && Step(path[i], t, path[i + 1])
  }

  /** A thread that finds the monitor free, and nobody at its mutex, gets in by its own
      steps. */
  lemma FreeIsEntered(s: State, t: nat) returns (path: seq<State>)
    requires t < |s.pcs| && s.pcs[t] == Outside && s.free && !s.locked
    ensures |path| == 6 && path[0] == s && Alone(t, path) && path[5] == State(false, false, s.pcs[t := Inside])
  {
    path := [s, At(s, t, EnterLock), State(true, true, s.pcs[t := EnterTest]), State(true, true, s.pcs[t := EnterTake]),
             State(false, true, s.pcs[t := EnterUnlock]), State(false, false, s.pcs[t := Inside])];
  }

  /** One that finds it taken sleeps, and leaves the mutex to others. */
  lemma TakenIsAwaited(s: State, t: nat) returns (path: seq<State>)
    requires t < |s.pcs| && s.pcs[t] == Outside && !s.free && !s.locked
    ensures |path| == 4 && path[0] == s && Alone(t, path) && path[3] == State(false, false, s.pcs[t := Waiting])
  {
    path := [s, At(s, t, EnterLock), State(false, true, s.pcs[t := EnterTest]), State(false, false, s.pcs[t := Waiting])];
  }

  /** The one inside can always leave, by its own steps once nobody is at the mutex: the
      monitor is free then, and any one of the sleepers may be the one that is woken. */
  lemma InsideIsLeft(s: State, t: nat, u: nat) returns (path: seq<State>)
    requires t < |s.pcs| && s.pcs[t] == Inside && !s.locked && u < |s.pcs|
    requires s.pcs[u] == Waiting || forall v: nat | v < |s.pcs| :: s.pcs[v] != Waiting
    ensures |path| == 6 && path[0] == s && Alone(t, path)
    ensures path[5] == State(true, false, if s.pcs[u] == Waiting then s.pcs[t := Outside][u := Waking] else s.pcs[t := Outside])
  {
    var pcs := if s.pcs[u] == Waiting then s.pcs[t := ExitUnlock][u := Waking] else s.pcs[t := ExitUnlock];
    var lock, set0 := At(s, t, ExitLock), State(s.free, true, s.pcs[t := ExitSet]);
    var signal, unlock, last := State(true, true, s.pcs[t := ExitSignal]), State(true, true, pcs), State(true, false, pcs[t := Outside]);
    assert Step(s, t, lock) && Step(lock, t, set0) && Step(set0, t, signal);
    assert Step(signal, t, unlock) by { MaySignal(signal, t, u); }
    assert Step(unlock, t, last) by { assert pcs[t] == ExitUnlock; }
    hide Step;
    path := [s, lock, set0, signal, unlock, last];
    FiveSteps(t, s, lock, set0, signal, unlock, last);
    assert last.pcs == if s.pcs[u] == Waiting then s.pcs[t := Outside][u := Waking] else s.pcs[t := Outside];
  }

  lemma FiveSteps(t: nat, a: State, b: State, c: State, d: State, e: State, f: State)
    requires t < |a.pcs| && t < |b.pcs| && t < |c.pcs| && t < |d.pcs| && t < |e.pcs|
    requires Step(a, t, b) && Step(b, t, c) && Step(c, t, d) && Step(d, t, e) && Step(e, t, f)
    ensures Alone(t, [a, b, c, d, e, f])
  {
    hide Step;
  }

  lemma MaySignal(s: State, t: nat, u: nat)
    requires t < |s.pcs| && s.pcs[t] == ExitSignal && u < |s.pcs|
    requires s.pcs[u] == Waiting || forall v: nat | v < |s.pcs| :: s.pcs[v] != Waiting
    ensures Step(s, t, At(s, t, ExitUnlock).(pcs := if s.pcs[u] == Waiting then s.pcs[t := ExitUnlock][u := Waking]
                                                    else s.pcs[t := ExitUnlock]))
  {
    var q := At(s, t, ExitUnlock);
    if s.pcs[u] == Waiting {
      assert q.pcs[u] == Waiting;
    }
  }

  /** A signal wakes exactly one of the sleepers, or there is none. */
  lemma WakesOne(s: State, t: nat, r: State)
    requires t < |s.pcs| && s.pcs[t] == ExitSignal && Step(s, t, r)
    ensures r.free == s.free && r.locked == s.locked
    ensures (exists u: nat :: u < |s.pcs| && s.pcs[u] == Waiting && r.pcs == s.pcs[t := ExitUnlock][u := Waking])
            || ((forall u: nat | u < |s.pcs| :: s.pcs[u] != Waiting) && r.pcs == s.pcs[t := ExitUnlock])
  {
    var q := At(s, t, ExitUnlock);
    if exists u: nat :: u < |q.pcs| && q.pcs[u] == Waiting {
      var u: nat :| u < |q.pcs| && q.pcs[u] == Waiting && r == At(q, u, Waking);
      assert s.pcs[u] == Waiting;
    } else {
      forall u: nat | u < |s.pcs|
        ensures s.pcs[u] != Waiting
      {
        assert u != t ==> q.pcs[u] == s.pcs[u];
      }
    }
  }

  /** Arriving and leaving is up to the thread: no other can keep it from either. */
  lemma Arrives(s: State, t: nat, r: State)
    requires t < |s.pcs| && (s.pcs[t] == Outside || s.pcs[t] == Inside)
    ensures Step(s, t, r) <==> r == State(s.free, s.locked, s.pcs[t := if s.pcs[t] == Outside then EnterLock else ExitLock])
  {
  }
}
