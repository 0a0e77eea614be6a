/** The writer-preferring read/write lock of the SQLite access layer (searchkernel/indices/local.py): any number of
    threads, one atomic step for each stretch of code that holds the condition's mutex. */
module ReadWriteLock {
  import opened Base

  datatype Kind = Read | Write

  /** What a thread is doing. `Asleep` is in the condition's wait set; `Awake` has been notified and has yet to look at
      its guard again. */
  datatype Phase = Idle | Asleep(kind: Kind) | Awake(kind: Kind) | Holding(kind: Kind)
  {
    predicate Waits() { Asleep? || Awake? }

    /** `notify_all`, as one thread sees it. */
    function Notified(): Phase { if Asleep? then Awake(kind) else this }
  }

  type Phases = map<int, Phase>

  function InPhase(phases: Phases, p: Phase): set<int> {
    set t | t in phases && phases[t] == p
  }

  function Waiters(phases: Phases, kind: Kind): set<int> {
    InPhase(phases, Asleep(kind)) + InPhase(phases, Awake(kind))
  }

  function Waiting(phases: Phases): set<int> {
    set t | t in phases && phases[t].Waits()
  }

  function Holders(phases: Phases): set<int> {
    set t | t in phases && phases[t].Holding?
  }

  function AllAwake(phases: Phases): set<int> {
    set t | t in phases && phases[t].Awake?
  }

  /** The counters say who holds the lock and who waits to write, and a writer is alone. */
  ghost predicate Counted(readers: nat, writer: bool, waitingWriters: nat, phases: Phases) {
    && readers == |InPhase(phases, Holding(Read))|
    && |InPhase(phases, Holding(Write))| == (if writer then 1 else 0)
    && waitingWriters == |Waiters(phases, Write)|
    && (writer ==> readers == 0)
  }

  /** The condition a thread sleeps on. */
  predicate Blocked(readers: int, writer: bool, waitingWriters: int, kind: Kind) {
    if kind == Read then writer || waitingWriters > 0 else writer || readers > 0
  }

  /** No thread sleeps un-notified while its guard is open. */
  ghost predicate NoLostWakeup(readers: nat, writer: bool, waitingWriters: nat, phases: Phases) {
    forall t :: t in phases && phases[t].Asleep? ==> Blocked(readers, writer, waitingWriters, phases[t].kind)
  }

  // ----- Counting threads -----

  lemma Moved(phases: Phases, t: int, q: Phase, p: Phase)
    requires t in phases
    ensures InPhase(phases[t := q], p) == if q == p then InPhase(phases, p) + {t} else InPhase(phases, p) - {t}
  {
  }

  lemma Recounted(before: set<int>, after: set<int>, t: int, was: bool, now: bool)
    requires was <==> t in before
    requires after == if now then before + {t} else before - {t}
    ensures |after| == |before| - One(was) + One(now)
  {
    if was && now {
      assert after == before;
    }
  }

  /** How the counted sets change when one thread changes phase. */
  lemma MoveCounts(phases: Phases, t: int, q: Phase)
    requires t in phases
    ensures
      var p, after := phases[t], phases[t := q];
      && |InPhase(after, Holding(Read))|
         == |InPhase(phases, Holding(Read))| - One(p == Holding(Read)) + One(q == Holding(Read))
      && |InPhase(after, Holding(Write))|
         == |InPhase(phases, Holding(Write))| - One(p == Holding(Write)) + One(q == Holding(Write))
  {
    var after := phases[t := q];
    Moved(phases, t, q, Holding(Read));
    Moved(phases, t, q, Holding(Write));
    Recounted(InPhase(phases, Holding(Read)), InPhase(after, Holding(Read)), t, phases[t] == Holding(Read),
              q == Holding(Read));
    Recounted(InPhase(phases, Holding(Write)), InPhase(after, Holding(Write)), t, phases[t] == Holding(Write),
              q == Holding(Write));
  }

  predicate WaitsFor(p: Phase, kind: Kind) {
    p == Asleep(kind) || p == Awake(kind)
  }

  lemma WaitersAre(phases: Phases, kind: Kind, t: int)
    ensures t in Waiters(phases, kind) <==> t in phases && WaitsFor(phases[t], kind)
  {
  }

  lemma MoveWaiters(phases: Phases, t: int, q: Phase, kind: Kind)
    requires t in phases
    ensures |Waiters(phases[t := q], kind)|
      == |Waiters(phases, kind)| - One(WaitsFor(phases[t], kind)) + One(WaitsFor(q, kind))
  {
    var before, after := Waiters(phases, kind), Waiters(phases[t := q], kind);
    WaitersAre(phases, kind, t);
    if WaitsFor(q, kind) {
      MoveIn(phases, t, q, kind);
    } else {
      MoveOut(phases, t, q, kind);
    }
    Recounted(before, after, t, WaitsFor(phases[t], kind), WaitsFor(q, kind));
  }

  lemma MoveIn(phases: Phases, t: int, q: Phase, kind: Kind)
    requires t in phases && WaitsFor(q, kind)
    ensures Waiters(phases[t := q], kind) == Waiters(phases, kind) + {t}
  {
    forall u ensures u in Waiters(phases[t := q], kind) <==> u in Waiters(phases, kind) + {t} {
      WaitersAre(phases[t := q], kind, u);
      WaitersAre(phases, kind, u);
    }
  }

  lemma MoveOut(phases: Phases, t: int, q: Phase, kind: Kind)
    requires t in phases && !WaitsFor(q, kind)
    ensures Waiters(phases[t := q], kind) == Waiters(phases, kind) - {t}
  {
    forall u ensures u in Waiters(phases[t := q], kind) <==> u in Waiters(phases, kind) - {t} {
      WaitersAre(phases[t := q], kind, u);
      WaitersAre(phases, kind, u);
    }
  }

  function One(b: bool): int { if b then 1 else 0 }

  function NotifyAll(phases: Phases): Phases {
    map t | t in phases :: phases[t].Notified()
  }

  lemma NotifyKeepsHolders(phases: Phases, kind: Kind)
    ensures InPhase(NotifyAll(phases), Holding(kind)) == InPhase(phases, Holding(kind))
  {
    forall t ensures t in InPhase(NotifyAll(phases), Holding(kind)) <==> t in InPhase(phases, Holding(kind)) {
      assert t in phases ==> NotifyAll(phases)[t] == phases[t].Notified();
    }
  }

  lemma NotifyKeepsWaiters(phases: Phases, kind: Kind)
    ensures Waiters(NotifyAll(phases), kind) == Waiters(phases, kind)
  {
    forall t ensures t in Waiters(NotifyAll(phases), kind) <==> t in Waiters(phases, kind) {
      WaitersAre(NotifyAll(phases), kind, t);
      WaitersAre(phases, kind, t);
      assert t in phases ==> NotifyAll(phases)[t] == phases[t].Notified();
    }
  }

  /** Notifying everybody keeps the counters and leaves nobody asleep. */
  lemma NotifyKeeps(readers: nat, writer: bool, waitingWriters: nat, phases: Phases)
    requires Counted(readers, writer, waitingWriters, phases)
    ensures Counted(readers, writer, waitingWriters, NotifyAll(phases))
    ensures NoLostWakeup(readers, writer, waitingWriters, NotifyAll(phases))
  {
    NotifyKeepsHolders(phases, Read);
    NotifyKeepsHolders(phases, Write);
    NotifyKeepsWaiters(phases, Write);
  }

  /** A holder that goes idle. */
  lemma ReleaseCounts(readers: nat, writer: bool, waitingWriters: nat, phases: Phases, t: int)
    requires Counted(readers, writer, waitingWriters, phases) && t in phases && phases[t].Holding?
    ensures phases[t].kind == Read ==> readers > 0 && Counted(readers - 1, writer, waitingWriters, phases[t := Idle])
    ensures phases[t].kind == Write ==> writer && Counted(readers, false, waitingWriters, phases[t := Idle])
    ensures NoLostWakeup(readers, writer, waitingWriters, phases) && phases[t].kind == Read && readers > 1 ==>
      NoLostWakeup(readers - 1, writer, waitingWriters, phases[t := Idle])
  {
    assert t in InPhase(phases, phases[t]);
    MoveCounts(phases, t, Idle);
    MoveWaiters(phases, t, Idle, Write);
  }

  /** Whoever waits can be served: if nobody holds the lock, some notified thread finds its guard open. */
  lemma NoDeadlock(readers: nat, writer: bool, waitingWriters: nat, phases: Phases) returns (t: int)
    requires Counted(readers, writer, waitingWriters, phases) && NoLostWakeup(readers, writer, waitingWriters, phases)
    requires Holders(phases) == {} && Waiting(phases) != {}
    ensures t in phases && phases[t].Awake? && !Blocked(readers, writer, waitingWriters, phases[t].kind)
  {
    assert forall t :: t in InPhase(phases, Holding(Read)) + InPhase(phases, Holding(Write)) ==> t in Holders(phases);
    assert InPhase(phases, Holding(Read)) == {} && InPhase(phases, Holding(Write)) == {};
    if Waiters(phases, Write) != {} {
      t := Member(Waiters(phases, Write));
    } else {
      t := Member(Waiting(phases));
      WaitersAre(phases, Write, t);
    }
  }

  /** A thread that looks at its guard either sleeps before it or takes what it asked for; both keep the counters. A
      writer has already counted itself as waiting. */
  lemma GuardCounts(readers: nat, writer: bool, waitingWriters: nat, phases: Phases, t: int, asked: Kind)
    requires t in phases && (phases[t] == Idle || phases[t] == Awake(asked)) && waitingWriters >= One(asked == Write)
    requires Counted(readers, writer, waitingWriters - One(asked == Write && phases[t] == Idle), phases)
    requires NoLostWakeup(readers, writer, waitingWriters, phases)
    ensures
      if Blocked(readers, writer, waitingWriters, asked) then
        var after := phases[t := Asleep(asked)];
        Counted(readers, writer, waitingWriters, after) && NoLostWakeup(readers, writer, waitingWriters, after)
      else if asked == Read then
        var after := phases[t := Holding(Read)];
        Counted(readers + 1, writer, waitingWriters, after) && NoLostWakeup(readers + 1, writer, waitingWriters, after)
      else
        var after := phases[t := Holding(Write)];
        Counted(readers, true, waitingWriters - 1, after) && NoLostWakeup(readers, true, waitingWriters - 1, after)
  {
    var next := if Blocked(readers, writer, waitingWriters, asked) then Asleep(asked) else Holding(asked);
    MoveCounts(phases, t, next);
    MoveWaiters(phases, t, next, Write);
  }

  lemma InterruptedWakeup(readers: nat, writer: bool, waitingWriters: nat, phases: Phases, t: int)
    requires Counted(readers, writer, waitingWriters, phases) && NoLostWakeup(readers, writer, waitingWriters, phases)
    requires t in phases && phases[t].Waits() && (phases[t].kind == Write ==> waitingWriters > 0)
    ensures
      var left := waitingWriters - One(phases[t].kind == Write);
      var after := phases[t := Idle];
      NoLostWakeup(readers, writer, left, after)
      <==> phases[t].kind == Read || writer || left > 0 || InPhase(after, Asleep(Read)) == {}
  {
    var left := waitingWriters - One(phases[t].kind == Write);
    var after := phases[t := Idle];
    if u :| u in InPhase(after, Asleep(Read)) {
      assert after[u].Asleep? && after[u].kind == Read && phases[u] == Asleep(Read);
    } else {
      forall u | u in after && after[u].Asleep? ensures after[u] == Asleep(Write) && after[u] == phases[u] {
        assert u !in InPhase(after, Asleep(Read));
      }
    }
  }

  // ----- The lock -----

  ghost predicate OnlyWriters(phases: Phases) {
    forall t :: t in phases ==> phases[t] == Idle || phases[t].kind == Write
  }

  lemma LookedOnlyWriters(s: LockState, t: int, asked: Kind)
    requires OnlyWriters(s.phases) && t in s.phases && asked == Write
    ensures OnlyWriters(Looked(s, t, asked, true).phases)
  {
  }

  /** The lock's fields at one moment. */
  datatype LockState = LockState(readers: int, writer: bool, waitingWriters: int, phases: Phases)

  function Unused(threads: set<int>): LockState {
    LockState(0, false, 0, map t | t in threads :: Idle)
  }

  class AccessLock {
    const allowParallelReads: bool
    var readers: nat
    var writer: bool
    var waitingWriters: nat
    /** The threads that use the lock. */
    var phases: Phases

    constructor (allowParallelReads: bool, threads: set<int>)
      ensures Valid() && Now() == Unused(threads) && this.allowParallelReads == allowParallelReads
    {
      this.allowParallelReads := allowParallelReads;
      readers, writer, waitingWriters := 0, false, 0;
      phases := map t | t in threads :: Idle;
      new;
      assert InPhase(phases, Holding(Read)) == {} && InPhase(phases, Holding(Write)) == {};
      assert Waiters(phases, Write) == {};
    }

    ghost function Now(): LockState reads this {
      LockState(readers, writer, waitingWriters, phases)
    }

    ghost predicate Valid() reads this {
      && Counted(readers, writer, waitingWriters, phases) && NoLostWakeup(readers, writer, waitingWriters, phases)
      && WritersOnly()
    }

    /** Without parallel reads nobody ever reads. */
    ghost predicate WritersOnly() reads this`phases {
      !allowParallelReads ==> OnlyWriters(phases)
    }

    /** The kind of access a reader really takes: without parallel reads it goes through `write`. */
    function Access(kind: Kind): Kind {
      if allowParallelReads then kind else Write
    }

    /** A reader's or writer's first look at its guard. */
    method Enter(t: int, kind: Kind)
      requires Valid() && t in phases && phases[t] == Idle
      modifies this`readers, this`writer, this`waitingWriters, this`phases
      ensures Valid()
      ensures
        var asked := Access(kind);
        var blocked := Blocked(old(readers), old(writer), old(waitingWriters), asked);
        phases == old(phases)[t := if blocked then Asleep(asked) else Holding(asked)]
      ensures writer == (old(writer) || phases[t] == Holding(Write))
      ensures readers == old(readers) + One(phases[t] == Holding(Read))
      ensures waitingWriters == old(waitingWriters) + One(phases[t] == Asleep(Write))
      ensures Now() == Looked(old(Now()), t, Access(kind), false)
    {
      var asked := Access(kind);
      if asked == Write {
        waitingWriters := waitingWriters + 1;
      }
      LookAtGuard(t, asked, waitingWriters);
    }

    /** The loop test of `read` or `write`, at its start or after a notification. */
    method LookAtGuard(t: int, asked: Kind, ghost counted: nat)
      requires t in phases && (phases[t] == Idle || phases[t] == Awake(asked)) && counted == waitingWriters
      requires waitingWriters >= One(asked == Write)
      requires Counted(readers, writer, waitingWriters - One(asked == Write && phases[t] == Idle), phases)
      requires NoLostWakeup(readers, writer, waitingWriters, phases)
      requires WritersOnly() && (!allowParallelReads ==> asked == Write)
      modifies this`readers, this`writer, this`waitingWriters, this`phases
      ensures Valid() && Now() == Looked(old(Now()), t, asked, true)
    {
      var blocked := if asked == Read then writer || waitingWriters > 0 else writer || readers > 0;
      ghost var next := Looked(Now(), t, asked, true);
      LookedCounts(Now(), t, asked);
      if !allowParallelReads {
        LookedOnlyWriters(Now(), t, asked);
      }
      if blocked {
        phases := phases[t := Asleep(asked)];
      } else if asked == Read {
        readers := readers + 1;
        phases := phases[t := Holding(Read)];
      } else {
        waitingWriters := waitingWriters - 1;
        writer := true;
        phases := phases[t := Holding(Write)];
      }
      assert Now() == next;
    }

    /** A notified thread looks at its guard again. */
    method Recheck(t: int)
      requires Valid() && t in phases && phases[t].Awake?
      modifies this`readers, this`writer, this`waitingWriters, this`phases
      ensures Valid()
      ensures
        var asked := old(phases[t].kind);
        var blocked := Blocked(old(readers), old(writer), old(waitingWriters), asked);
        phases == old(phases)[t := if blocked then Asleep(asked) else Holding(asked)]
      ensures writer == (old(writer) || phases[t] == Holding(Write))
      ensures readers == old(readers) + One(phases[t] == Holding(Read))
      ensures waitingWriters == old(waitingWriters) - One(phases[t] == Holding(Write))
      ensures Now() == Looked(old(Now()), t, old(phases[t].kind), true)
    {
      ghost var waiting := Waiters(phases, Write);
      if phases[t].kind == Write {
        SubsetCardinality({t}, waiting);
      }
      LookAtGuard(t, phases[t].kind, waitingWriters);
    }

    /** The end of a reader's or writer's critical section. */
    method Leave(t: int)
      requires Valid() && t in phases && phases[t].Holding?
      modifies this`readers, this`writer, this`phases
      ensures Valid()
      ensures
        var released := old(phases)[t := Idle];
        phases == if old(phases[t].kind) == Write || old(readers) == 1 then NotifyAll(released) else released
      ensures writer == (old(writer) && old(phases[t].kind) == Read)
      ensures readers == old(readers) - One(old(phases[t].kind) == Read)
      ensures Now() == Released(old(Now()), t)
    {
      ReleaseCounts(readers, writer, waitingWriters, phases, t);
      var kind := phases[t].kind;
      phases := phases[t := Idle];
      if kind == Read {
        readers := readers - 1;
        if readers == 0 {
          Notify();
        }
      } else {
        writer := false;
        Notify();
      }
    }

    /** `notify_all`. */
    method Notify()
      requires Counted(readers, writer, waitingWriters, phases) && WritersOnly()
      modifies this`phases
      ensures phases == NotifyAll(old(phases)) && Valid()
    {
      NotifyKeeps(readers, writer, waitingWriters, phases);
      phases := NotifyAll(phases);
    }

    /** An exception out of `wait`: the counters stay right, and no reader is left sleeping before an open guard exactly
        when the interrupted thread was not the last thing that kept one asleep. */
    method Interrupt(t: int)
      requires Valid() && t in phases && phases[t].Waits()
      modifies this`waitingWriters, this`phases
      ensures Counted(readers, writer, waitingWriters, phases) && phases == old(phases)[t := Idle]
      ensures waitingWriters == old(waitingWriters) - One(old(phases[t].kind) == Write)
      ensures Now() == Interrupted(old(Now()), t)
      ensures NoLostWakeup(readers, writer, waitingWriters, phases)
        <==> old(phases[t].kind) == Read || writer || waitingWriters > 0 || InPhase(phases, Asleep(Read)) == {}
    {
      MoveCounts(phases, t, Idle);
      MoveWaiters(phases, t, Idle, Write);
      var kind := phases[t].kind;
      phases := phases[t := Idle];
      if kind == Write {
        waitingWriters := waitingWriters - 1;
      }
      InterruptedWakeup(old(readers), old(writer), old(waitingWriters), old(phases), t);
    }
  }

  // ----- Any run -----

  datatype Step = Enter(t: int, kind: Kind) | Recheck(t: int) | Leave(t: int)

  predicate Enabled(phases: Phases, step: Step) {
    step.t in phases
    && match step
       case Enter(t, _) => phases[t] == Idle
       case Recheck(t) => phases[t].Awake?
       case Leave(t) => phases[t].Holding?
  }

  /** What the lock promises its users in every state. */
  ghost predicate Excludes(phases: Phases) {
    && (forall t, u :: t in phases && u in phases && t != u && phases[t] == Holding(Write) ==> !phases[u].Holding?)
  }

  lemma CountedExcludes(readers: nat, writer: bool, waitingWriters: nat, phases: Phases)
    requires Counted(readers, writer, waitingWriters, phases)
    ensures Excludes(phases)
  {
    forall t, u | t in phases && u in phases && t != u && phases[t] == Holding(Write) ensures !phases[u].Holding? {
      var writers := InPhase(phases, Holding(Write));
      assert t in writers;
      if u in writers {
        SubsetCardinality({t, u}, writers);
      }
      if u in InPhase(phases, Holding(Read)) {
        SubsetCardinality({t}, writers);
        SubsetCardinality({u}, InPhase(phases, Holding(Read)));
      }
      assert phases[u].Holding? ==> u in writers || u in InPhase(phases, Holding(Read)) by {
        assert phases[u].Holding? && phases[u].kind != Write ==> phases[u] == Holding(Read);
      }
    }
  }

  /** The state after thread t, asking for `asked`, has looked at its guard; `waits` tells whether it had already
      been counted as waiting. */
  function Looked(s: LockState, t: int, asked: Kind, waits: bool): LockState {
    if Blocked(s.readers, s.writer, s.waitingWriters, asked) then
      s.(waitingWriters := s.waitingWriters + One(!waits && asked == Write), phases := s.phases[t := Asleep(asked)])
    else if asked == Read then s.(readers := s.readers + 1, phases := s.phases[t := Holding(Read)])
    else
      s.(writer := true, waitingWriters := s.waitingWriters - One(waits), phases := s.phases[t := Holding(Write)])
  }

  function Released(s: LockState, t: int): LockState
    requires t in s.phases && s.phases[t].Holding?
  {
    var idle := s.phases[t := Idle];
    if s.phases[t].kind == Write then s.(writer := false, phases := NotifyAll(idle))
    else s.(readers := s.readers - 1, phases := if s.readers == 1 then NotifyAll(idle) else idle)
  }

  /** An exception out of `wait`. */
  function Interrupted(s: LockState, t: int): LockState
    requires t in s.phases && s.phases[t].Waits()
  {
    s.(waitingWriters := s.waitingWriters - One(s.phases[t].kind == Write), phases := s.phases[t := Idle])
  }

  /** One step of a thread; a step that is not enabled when its turn comes does nothing. */
  function After(allowParallelReads: bool, s: LockState, step: Step): LockState {
    if !Enabled(s.phases, step) then s
    else
      match step
      case Enter(t, kind) => Looked(s, t, if allowParallelReads then kind else Write, false)
      case Recheck(t) => Looked(s, t, s.phases[t].kind, true)
      case Leave(t) => Released(s, t)
  }

  /** The states before and after every step, from an unused lock on. */
  ghost predicate History(history: seq<LockState>, allowParallelReads: bool, threads: set<int>, steps: seq<Step>) {
    && |history| == |steps| + 1
    && history[0] == Unused(threads)
    && forall i :: 0 <= i < |steps| ==> history[i + 1] == After(allowParallelReads, history[i], steps[i])
  }

  /** The counters are right, nobody sleeps before an open guard, and a writer is alone. */
  ghost predicate Good(s: LockState) {
    && 0 <= s.readers && 0 <= s.waitingWriters
    && Counted(s.readers, s.writer, s.waitingWriters, s.phases)
    && NoLostWakeup(s.readers, s.writer, s.waitingWriters, s.phases)
    && Excludes(s.phases)
  }

  lemma LookedCounts(s: LockState, t: int, asked: Kind)
    requires 0 <= s.readers && One(asked == Write) <= s.waitingWriters
    requires t in s.phases && (s.phases[t] == Idle || s.phases[t] == Awake(asked))
    requires Counted(s.readers, s.writer, s.waitingWriters - One(asked == Write && s.phases[t] == Idle), s.phases)
    requires NoLostWakeup(s.readers, s.writer, s.waitingWriters, s.phases)
    ensures
      var next := Looked(s, t, asked, true);
      && 0 <= next.readers && 0 <= next.waitingWriters
      && Counted(next.readers, next.writer, next.waitingWriters, next.phases)
      && NoLostWakeup(next.readers, next.writer, next.waitingWriters, next.phases)
  {
    GuardCounts(s.readers, s.writer, s.waitingWriters, s.phases, t, asked);
  }

  /** The loop test keeps a state good, whoever looks. */
  lemma LookedIsGood(s: LockState, t: int, asked: Kind, waits: bool)
    requires Good(s) && t in s.phases && s.phases[t] == (if waits then Awake(asked) else Idle)
    ensures Good(Looked(s, t, asked, waits))
  {
    if waits && asked == Write {
      SubsetCardinality({t}, Waiters(s.phases, Write));
    }
    var waiting := s.waitingWriters + One(!waits && asked == Write);
    GuardCounts(s.readers, s.writer, waiting, s.phases, t, asked);
    var after := Looked(s, t, asked, waits);
    CountedExcludes(after.readers, after.writer, after.waitingWriters, after.phases);
  }

  lemma ReleasedIsGood(s: LockState, t: int)
    requires Good(s) && t in s.phases && s.phases[t].Holding?
    ensures Good(Released(s, t))
  {
    ReleaseCounts(s.readers, s.writer, s.waitingWriters, s.phases, t);
    var after := Released(s, t);
    NotifyKeeps(after.readers, after.writer, after.waitingWriters, s.phases[t := Idle]);
    CountedExcludes(after.readers, after.writer, after.waitingWriters, after.phases);
  }

  /** In every state of every interleaving of the threads' steps the counters are right, the critical sections are
      apart and no wakeup is lost. */
  lemma {:induction false} HistoryIsGood(
      history: seq<LockState>, allowParallelReads: bool, threads: set<int>, steps: seq<Step>, n: nat)
    requires History(history, allowParallelReads, threads, steps) && n <= |steps|
    ensures Good(history[n]) && history[n].phases.Keys == threads
  {
    if n == 0 {
      UnusedIsGood(threads);
    } else {
      HistoryIsGood(history, allowParallelReads, threads, steps, n - 1);
      AfterIsGood(allowParallelReads, history[n - 1], steps[n - 1]);
      AfterKeepsThreads(allowParallelReads, history[n - 1], steps[n - 1]);
    }
  }

  lemma AfterKeepsThreads(allowParallelReads: bool, s: LockState, step: Step)
    ensures After(allowParallelReads, s, step).phases.Keys == s.phases.Keys
  {
  }

  lemma AfterIsGood(allowParallelReads: bool, s: LockState, step: Step)
    requires Good(s)
    ensures Good(After(allowParallelReads, s, step))
  {
    if Enabled(s.phases, step) {
      match step
      case Enter(t, kind) =>
        var asked := if allowParallelReads then kind else Write;
        LookedIsGood(s, t, asked, false);
        assert After(allowParallelReads, s, step) == Looked(s, t, asked, false);
      case Recheck(t) =>
        LookedIsGood(s, t, s.phases[t].kind, true);
        assert After(allowParallelReads, s, step) == Looked(s, t, s.phases[t].kind, true);
      case Leave(t) =>
        ReleasedIsGood(s, t);
        assert After(allowParallelReads, s, step) == Released(s, t);
    }
  }

  lemma UnusedIsGood(threads: set<int>)
    ensures Good(Unused(threads))
  {
    var phases := Unused(threads).phases;
    assert InPhase(phases, Holding(Read)) == {} && InPhase(phases, Holding(Write)) == {};
    assert Waiters(phases, Write) == {};
  }

  method Take(lock: AccessLock, step: Step)
    requires lock.Valid()
    modifies lock
    ensures lock.Valid() && lock.Now() == After(lock.allowParallelReads, old(lock.Now()), step)
  {
    if Enabled(lock.phases, step) {
      match step
      case Enter(t, kind) => lock.Enter(t, kind);
      case Recheck(t) => lock.Recheck(t);
      case Leave(t) => lock.Leave(t);
    }
  }

  /** Every interleaving of the threads' steps on a new lock is a run as above. */
  method AnyRun(allowParallelReads: bool, threads: set<int>, steps: seq<Step>)
      returns (lock: AccessLock, ghost history: seq<LockState>)
    ensures fresh(lock) && lock.Valid()
    ensures History(history, allowParallelReads, threads, steps) && history[|steps|] == lock.Now()
    ensures forall n :: 0 <= n <= |steps| ==> Good(history[n]) && history[n].phases.Keys == threads
  {
    lock := new AccessLock(allowParallelReads, threads);
    history := [lock.Now()];
    var i := 0;
    while i < |steps|
      invariant 0 <= i <= |steps| && lock.Valid() && lock.allowParallelReads == allowParallelReads
      invariant History(history, allowParallelReads, threads, steps[..i]) && history[i] == lock.Now()
    {
      Take(lock, steps[i]);
      HistoryGrows(history, allowParallelReads, threads, steps, i);
      history := history + [lock.Now()];
      i := i + 1;
    }
    assert steps[..|steps|] == steps;
    forall n | 0 <= n <= |steps| ensures Good(history[n]) && history[n].phases.Keys == threads {
      HistoryIsGood(history, allowParallelReads, threads, steps, n);
    }
  }

  lemma HistoryGrows(
      history: seq<LockState>, allowParallelReads: bool, threads: set<int>, steps: seq<Step>, i: nat)
    requires i < |steps| && History(history, allowParallelReads, threads, steps[..i])
    ensures
      History(history + [After(allowParallelReads, history[i], steps[i])], allowParallelReads, threads, steps[..i + 1])
  {
    var longer := history + [After(allowParallelReads, history[i], steps[i])];
    forall j | 0 <= j < i + 1 ensures longer[j + 1] == After(allowParallelReads, longer[j], steps[..i + 1][j]) {
      if j < i {
        assert history[j + 1] == After(allowParallelReads, history[j], steps[..i][j]);
      }
    }
  }

  /** A reader holds the lock, a writer waits for it, and a second reader waits behind the writer. */
  function QueuedSteps(): seq<Step> {
    [Enter(1, Read), Enter(2, Write), Enter(3, Read)]
  }

  lemma QueuedState(history: seq<LockState>)
    requires History(history, true, {1, 2, 3}, QueuedSteps())
    ensures history[3] == LockState(1, false, 1, map[1 := Holding(Read), 2 := Asleep(Write), 3 := Asleep(Read)])
  {
    var steps := QueuedSteps();
    assert history[0].phases == map[1 := Idle, 2 := Idle, 3 := Idle];
    assert history[1] == After(true, history[0], steps[0]);
    assert history[1].phases == map[1 := Holding(Read), 2 := Idle, 3 := Idle];
    assert history[2] == After(true, history[1], steps[1]);
    assert history[2].phases == map[1 := Holding(Read), 2 := Asleep(Write), 3 := Idle];
    assert history[3] == After(true, history[2], steps[2]);
    assert history[3].phases == map[1 := Holding(Read), 2 := Asleep(Write), 3 := Asleep(Read)];
  }

  /** If the writer is then interrupted, the second reader sleeps before an open guard until the first one leaves. */
  lemma InterruptedWriterStrandsReader(history: seq<LockState>)
    requires History(history, true, {1, 2, 3}, QueuedSteps())
    ensures 2 in history[3].phases && history[3].phases[2].Waits()
    ensures
      var s := Interrupted(history[3], 2);
      && s.readers == 1 && s.waitingWriters == 0 && 3 in s.phases && s.phases[3] == Asleep(Read)
      && !Blocked(s.readers, s.writer, s.waitingWriters, Read)
      && !NoLostWakeup(s.readers, s.writer, s.waitingWriters, s.phases)
  {
    QueuedState(history);
    var s := Interrupted(history[3], 2);
    assert 3 in s.phases && s.phases[3].Asleep?;
  }

  /** The same run on the lock itself. */
  method InterruptedRun() returns (lock: AccessLock)
    ensures !NoLostWakeup(lock.readers, lock.writer, lock.waitingWriters, lock.phases)
  {
    ghost var history;
    lock, history := AnyRun(true, {1, 2, 3}, QueuedSteps());
    InterruptedWriterStrandsReader(history);
    lock.Interrupt(2);
  }

  // ----- Everyone is served -----

  lemma WaitingMoved(phases: Phases, t: int, q: Phase)
    requires t in phases
    ensures |Waiting(phases[t := q])| == |Waiting(phases)| - One(phases[t].Waits()) + One(q.Waits())
  {
    var before, after := Waiting(phases), Waiting(phases[t := q]);
    forall u ensures u in after <==> u in (if q.Waits() then before + {t} else before - {t}) {
    }
    Recounted(before, after, t, phases[t].Waits(), q.Waits());
  }

  lemma HoldersMoved(phases: Phases, t: int, q: Phase)
    requires t in phases
    ensures |Holders(phases[t := q])| == |Holders(phases)| - One(phases[t].Holding?) + One(q.Holding?)
  {
    var before, after := Holders(phases), Holders(phases[t := q]);
    forall u ensures u in after <==> u in (if q.Holding? then before + {t} else before - {t}) {
    }
    Recounted(before, after, t, phases[t].Holding?, q.Holding?);
  }

  lemma AwakeMoved(phases: Phases, t: int, q: Phase)
    requires t in phases
    ensures |AllAwake(phases[t := q])| == |AllAwake(phases)| - One(phases[t].Awake?) + One(q.Awake?)
  {
    var before, after := AllAwake(phases), AllAwake(phases[t := q]);
    forall u ensures u in after <==> u in (if q.Awake? then before + {t} else before - {t}) {
    }
    Recounted(before, after, t, phases[t].Awake?, q.Awake?);
  }

  /** How many wait, hold and are awake when one thread changes phase. */
  lemma WorkMeasure(phases: Phases, t: int, q: Phase)
    requires t in phases
    ensures
      var after := phases[t := q];
      && |Waiting(after)| == |Waiting(phases)| - One(phases[t].Waits()) + One(q.Waits())
      && |Holders(after)| == |Holders(phases)| - One(phases[t].Holding?) + One(q.Holding?)
      && |AllAwake(after)| == |AllAwake(phases)| - One(phases[t].Awake?) + One(q.Awake?)
  {
    WaitingMoved(phases, t, q);
    HoldersMoved(phases, t, q);
    AwakeMoved(phases, t, q);
  }

  lemma NotifyKeepsWork(phases: Phases)
    ensures Waiting(NotifyAll(phases)) == Waiting(phases) && Holders(NotifyAll(phases)) == Holders(phases)
  {
    var after := NotifyAll(phases);
    forall t ensures t in Waiting(after) <==> t in Waiting(phases) {
      assert t in phases ==> after[t] == phases[t].Notified();
    }
    forall t ensures t in Holders(after) <==> t in Holders(phases) {
      assert t in phases ==> after[t] == phases[t].Notified();
    }
  }

  lemma StepExists(readers: nat, writer: bool, waitingWriters: nat, phases: Phases) returns (step: Step)
    requires Counted(readers, writer, waitingWriters, phases) && NoLostWakeup(readers, writer, waitingWriters, phases)
    requires Waiting(phases) + Holders(phases) != {}
    ensures Enabled(phases, step) && !step.Enter?
  {
    if Holders(phases) != {} {
      var t := Member(Holders(phases));
      step := Leave(t);
    } else {
      var t := NoDeadlock(readers, writer, waitingWriters, phases);
      step := Recheck(t);
    }
  }

  /** A scheduler: at every turn it names a step that is enabled, if there is one, and lets nobody new in. */
  ghost predicate Schedules(choose: (nat, Phases) -> Step) {
    forall n, phases, step :: Enabled(phases, step) && !step.Enter? ==>
      Enabled(phases, choose(n, phases)) && !choose(n, phases).Enter?
  }

  /** The states and steps of a run in which `choose` names every step. */
  ghost predicate Chosen(
      trace: seq<LockState>, steps: seq<Step>, choose: (nat, Phases) -> Step, allowParallelReads: bool)
  {
    && |trace| == |steps| + 1
    && forall n :: 0 <= n < |steps| ==>
      && steps[n] == choose(n, trace[n].phases) && Enabled(trace[n].phases, steps[n]) && !steps[n].Enter?
      && trace[n + 1] == After(allowParallelReads, trace[n], steps[n])
  }

  lemma ChosenGrows(
      trace: seq<LockState>, steps: seq<Step>, choose: (nat, Phases) -> Step, allowParallelReads: bool, step: Step)
    requires Chosen(trace, steps, choose, allowParallelReads)
    requires
      var s := trace[|steps|];
      step == choose(|steps|, s.phases) && Enabled(s.phases, step) && !step.Enter?
    ensures Chosen(trace + [After(allowParallelReads, trace[|steps|], step)], steps + [step], choose, allowParallelReads)
  {
  }

  /** However the remaining steps are scheduled, once nobody new arrives everyone who waits gets the lock and lets go of
      it: the run that `choose` names ends, with every thread idle. */
  method Drain(lock: AccessLock, choose: (nat, Phases) -> Step)
      returns (ghost trace: seq<LockState>, ghost steps: seq<Step>)
    requires lock.Valid() && Schedules(choose)
    modifies lock
    ensures lock.Valid() && lock.phases.Keys == old(lock.phases).Keys
    ensures Chosen(trace, steps, choose, lock.allowParallelReads)
    ensures trace[0] == old(lock.Now()) && trace[|steps|] == lock.Now()
    ensures forall t :: t in lock.phases ==> lock.phases[t] == Idle
  {
    var turn := 0;
    trace, steps := [lock.Now()], [];
    while Waiting(lock.phases) + Holders(lock.phases) != {}
      invariant lock.Valid() && lock.phases.Keys == old(lock.phases).Keys && turn == |steps|
      invariant Chosen(trace, steps, choose, lock.allowParallelReads)
      invariant trace[0] == old(lock.Now()) && trace[|steps|] == lock.Now()
      decreases |Waiting(lock.phases)|, |Holders(lock.phases)|, |AllAwake(lock.phases)|
    {
      ghost var some := StepExists(lock.readers, lock.writer, lock.waitingWriters, lock.phases);
      var step := choose(turn, lock.phases);
      turn := turn + 1;
      StepIsCloser(lock.allowParallelReads, lock.Now(), step);
      AfterKeepsThreads(lock.allowParallelReads, lock.Now(), step);
      Take(lock, step);
      ChosenGrows(trace, steps, choose, lock.allowParallelReads, step);
      trace, steps := trace + [lock.Now()], steps + [step];
    }
    forall t | t in lock.phases ensures lock.phases[t] == Idle {
      assert t !in Waiting(lock.phases) + Holders(lock.phases);
    }
  }

  /** Fewer wait, or as many wait and fewer hold, or as many wait and hold and fewer are awake. */
  ghost predicate Closer(before: Phases, after: Phases) {
    || |Waiting(after)| < |Waiting(before)|
    || (|Waiting(after)| == |Waiting(before)| && |Holders(after)| < |Holders(before)|)
    || (|Waiting(after)| == |Waiting(before)| && |Holders(after)| == |Holders(before)|
        && |AllAwake(after)| < |AllAwake(before)|)
  }

  lemma LeavingIsCloser(before: Phases, t: int)
    requires t in before && before[t].Holding?
    ensures Closer(before, before[t := Idle]) && Closer(before, NotifyAll(before[t := Idle]))
  {
    WorkMeasure(before, t, Idle);
    NotifyKeepsWork(before[t := Idle]);
  }

  lemma RecheckingIsCloser(before: Phases, t: int, next: Phase)
    requires t in before && before[t].Awake? && (next == Asleep(before[t].kind) || next == Holding(before[t].kind))
    ensures Closer(before, before[t := next])
  {
    WorkMeasure(before, t, next);
  }

  /** Every step other than an arrival brings the end closer. */
  lemma StepIsCloser(allowParallelReads: bool, s: LockState, step: Step)
    requires Enabled(s.phases, step) && !step.Enter?
    ensures Closer(s.phases, After(allowParallelReads, s, step).phases)
  {
    if step.Leave? {
      LeavingIsCloser(s.phases, step.t);
    } else {
      RecheckingIsCloser(s.phases, step.t, Asleep(s.phases[step.t].kind));
      RecheckingIsCloser(s.phases, step.t, Holding(s.phases[step.t].kind));
    }
  }
}
