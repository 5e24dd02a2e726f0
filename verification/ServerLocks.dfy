/**
 * Lock order. Any number of handlers and background tasks run at once, each taking and releasing
 * locks one at a time in the order its code does; none of them can ever be stuck for good.
 */
module ServerLocks {
  import opened Wrappers

  datatype Lock = SessionsLock | ByKeyLock | ChallengesLock | TokensLock

  datatype Mode = Read | Write

  datatype Op = Acquire(lock: Lock, mode: Mode) | Release(lock: Lock)

  /** The code that takes locks: the handlers, the token look-up before them, the expiry tasks. */
  datatype Code =
    | DoChallenge | DoLogin | DoLogout | DoAuthenticate
    | DoCreate | DoList | DoInfo | DoSend | DoReceive | DoClose
    | ExpireSessions | ExpireChallenges | ExpireTokens

  /** What each piece of code does with locks when it runs to its end. */
  function Program(code: Code): seq<Op> {
    match code
    case DoChallenge => [Acquire(ChallengesLock, Write), Release(ChallengesLock)]
    case DoLogin =>
      [Acquire(ChallengesLock, Write), Release(ChallengesLock), Acquire(TokensLock, Write), Release(TokensLock)]
    case DoLogout => [Acquire(TokensLock, Write), Release(TokensLock)]
    case DoAuthenticate => [Acquire(TokensLock, Read), Release(TokensLock)]
    case DoCreate =>
      [Acquire(SessionsLock, Write), Acquire(ByKeyLock, Write), Release(ByKeyLock), Release(SessionsLock)]
    case DoList => [Acquire(ByKeyLock, Read), Release(ByKeyLock)]
    case DoInfo =>
      [Acquire(SessionsLock, Read), Acquire(ByKeyLock, Read), Release(ByKeyLock), Release(SessionsLock)]
    case DoSend => [Acquire(SessionsLock, Write), Release(SessionsLock)]
    case DoReceive => [Acquire(SessionsLock, Write), Release(SessionsLock)]
    case DoClose =>
      [Acquire(SessionsLock, Write), Acquire(ByKeyLock, Write), Release(ByKeyLock), Release(SessionsLock)]
    case ExpireSessions =>
      [Acquire(SessionsLock, Write), Release(SessionsLock), Acquire(ByKeyLock, Write), Release(ByKeyLock)]
    case ExpireChallenges => [Acquire(ChallengesLock, Write), Release(ChallengesLock)]
    case ExpireTokens => [Acquire(TokensLock, Write), Release(TokensLock)]
  }

  /** One run of some code: what it still has to do, and the locks it holds. */
  datatype Thread = Thread(todo: seq<Op>, held: map<Lock, Mode>)

  function Rank(lock: Lock): nat {
    match lock case SessionsLock => 0 case ByKeyLock => 1 case ChallengesLock => 2 case TokensLock => 3
  }

  /** From here on locks are only taken above the ones held, and all are given back. */
  predicate Ordered(todo: seq<Op>, held: map<Lock, Mode>) {
    if todo == [] then held == map[]
    else match todo[0]
      case Acquire(lock, mode) =>
        (forall l | l in held :: Rank(l) < Rank(lock)) && Ordered(todo[1..], held[lock := mode])
      case Release(lock) => lock in held && Ordered(todo[1..], held - {lock})
  }

  /** Another thread holds the lock in a way that excludes this use of it. */
  ghost predicate HeldAgainst(threads: seq<Thread>, j: nat, lock: Lock, mode: Mode)
    requires j < |threads|
  {
    lock in threads[j].held && (mode == Write || threads[j].held[lock] == Write)
  }

  ghost predicate CanStep(threads: seq<Thread>, i: nat)
    requires i < |threads|
  {
    && threads[i].todo != []
    && match threads[i].todo[0]
       case Acquire(lock, mode) => forall j | 0 <= j < |threads| && j != i :: !HeldAgainst(threads, j, lock, mode)
       case Release(_) => true
  }

  function Advance(t: Thread): Thread
    requires t.todo != []
  {
    match t.todo[0]
    case Acquire(lock, mode) => Thread(t.todo[1..], t.held[lock := mode])
    case Release(lock) => Thread(t.todo[1..], t.held - {lock})
  }

  /** New code starts, a thread takes its next step, or it returns early and drops its locks. */
  datatype Action = Spawn(code: Code) | StepOf(i: nat) | ReturnEarly(i: nat)

  ghost function Apply(threads: seq<Thread>, a: Action): seq<Thread> {
    match a
    case Spawn(code) => threads + [Thread(Program(code), map[])]
    case StepOf(i) => if i < |threads| && CanStep(threads, i) then threads[i := Advance(threads[i])] else threads
    case ReturnEarly(i) => if i < |threads| then threads[i := Thread([], map[])] else threads
  }

  ghost function Execute(actions: seq<Action>): seq<Thread> {
    if actions == [] then [] else Apply(Execute(actions[..|actions| - 1]), actions[|actions| - 1])
  }

  ghost predicate AllOrdered(threads: seq<Thread>) {
    forall i | 0 <= i < |threads| :: Ordered(threads[i].todo, threads[i].held)
  }

  lemma PairIsOrdered(lock: Lock, mode: Mode)
    ensures Ordered([Acquire(lock, mode), Release(lock)], map[])
  {
    var held := map[lock := mode];
    assert [Acquire(lock, mode), Release(lock)][1..] == [Release(lock)] && [Release(lock)][1..] == [];
    assert map[][lock := mode] == held && held - {lock} == map[];
  }

  /** One lock after the other. */
  lemma SequenceIsOrdered(first: Lock, second: Lock, mode: Mode)
    ensures Ordered([Acquire(first, mode), Release(first), Acquire(second, mode), Release(second)], map[])
  {
    var tail := [Acquire(second, mode), Release(second)];
    var all := [Acquire(first, mode), Release(first)] + tail;
    assert all == [Acquire(first, mode), Release(first), Acquire(second, mode), Release(second)];
    assert all[1..] == [Release(first)] + tail && all[1..][1..] == tail;
    var held := map[first := mode];
    assert map[][first := mode] == held && held - {first} == map[];
    PairIsOrdered(second, mode);
  }

  /** One lock inside the other, the inner one of higher rank. */
  lemma NestingIsOrdered(outer: Lock, inner: Lock, mode: Mode)
    requires Rank(outer) < Rank(inner)
    ensures Ordered([Acquire(outer, mode), Acquire(inner, mode), Release(inner), Release(outer)], map[])
  {
    var all := [Acquire(outer, mode), Acquire(inner, mode), Release(inner), Release(outer)];
    assert all[1..] == [Acquire(inner, mode), Release(inner), Release(outer)];
    assert all[1..][1..] == [Release(inner), Release(outer)];
    assert all[1..][1..][1..] == [Release(outer)] && [Release(outer)][1..] == [];
    var one, two := map[outer := mode], map[outer := mode, inner := mode];
    assert map[][outer := mode] == one && one[inner := mode] == two;
    assert two - {inner} == one && one - {outer} == map[];
    assert Ordered([Release(outer)], one);
    assert Ordered([Release(inner), Release(outer)], two) by {
      assert [Release(inner), Release(outer)][1..] == [Release(outer)];
    }
    assert Ordered(all[1..], one);
  }

  lemma ProgramsAreOrdered(code: Code)
    ensures Ordered(Program(code), map[])
  {
    match code
    case DoLogin => SequenceIsOrdered(ChallengesLock, TokensLock, Write);
    case ExpireSessions => SequenceIsOrdered(SessionsLock, ByKeyLock, Write);
    case DoCreate => NestingIsOrdered(SessionsLock, ByKeyLock, Write);
    case DoClose => NestingIsOrdered(SessionsLock, ByKeyLock, Write);
    case DoInfo => NestingIsOrdered(SessionsLock, ByKeyLock, Read);
    case DoChallenge => PairIsOrdered(ChallengesLock, Write);
    case DoLogout => PairIsOrdered(TokensLock, Write);
    case DoAuthenticate => PairIsOrdered(TokensLock, Read);
    case DoList => PairIsOrdered(ByKeyLock, Read);
    case DoSend => PairIsOrdered(SessionsLock, Write);
    case DoReceive => PairIsOrdered(SessionsLock, Write);
    case ExpireChallenges => PairIsOrdered(ChallengesLock, Write);
    case ExpireTokens => PairIsOrdered(TokensLock, Write);
  }

  lemma {:induction false} ExecutionIsOrdered(actions: seq<Action>)
    ensures AllOrdered(Execute(actions))
  {
    if actions == [] {
    } else {
      var last := |actions| - 1;
      ExecutionIsOrdered(actions[..last]);
      if actions[last].Spawn? { ProgramsAreOrdered(actions[last].code); }
    }
  }

  /** A lock held for writing is held by nobody else. */
  ghost predicate Exclusive(threads: seq<Thread>) {
    forall i, j, l | 0 <= i < |threads| && 0 <= j < |threads| && i != j
                       && l in threads[i].held && l in threads[j].held ::
      threads[i].held[l] == Read
  }

  lemma {:induction false} LocksAreExclusive(actions: seq<Action>)
    ensures Exclusive(Execute(actions))
  {
    if actions == [] {
    } else {
      var last := |actions| - 1;
      LocksAreExclusive(actions[..last]);
      var before := Execute(actions[..last]);
      if actions[last].StepOf? && actions[last].i < |before| && CanStep(before, actions[last].i) {
        StepIsExclusive(before, actions[last].i);
      }
    }
  }

  lemma StepIsExclusive(threads: seq<Thread>, i: nat)
    requires i < |threads| && CanStep(threads, i) && Exclusive(threads)
    ensures Exclusive(threads[i := Advance(threads[i])])
  {
    var after := threads[i := Advance(threads[i])];
    forall a, b, l | 0 <= a < |after| && 0 <= b < |after| && a != b && l in after[a].held && l in after[b].held
      ensures after[a].held[l] == Read
    {
      if threads[i].todo[0].Acquire? && l == threads[i].todo[0].lock {
        var other := if a == i then b else a;
        if a == i || b == i { assert !HeldAgainst(threads, other, l, threads[i].todo[0].mode); }
      }
    }
  }

  /** Thread `i` is waiting for a lock that thread `j` holds. */
  ghost predicate WaitsFor(threads: seq<Thread>, i: nat, j: nat)
    requires i < |threads| && j < |threads|
  {
    i != j && threads[i].todo != [] && threads[i].todo[0].Acquire?
    && HeldAgainst(threads, j, threads[i].todo[0].lock, threads[i].todo[0].mode)
  }

  /** The rank of the lock a thread is about to take. */
  function Wanted(t: Thread): nat {
    if t.todo != [] && t.todo[0].Acquire? then Rank(t.todo[0].lock) else 0
  }

  /** Whoever is waited for, if it waits itself, waits for a higher lock. */
  lemma WaitsClimb(threads: seq<Thread>, i: nat, j: nat)
    requires AllOrdered(threads) && i < |threads| && j < |threads| && WaitsFor(threads, i, j)
    requires threads[j].todo != [] && threads[j].todo[0].Acquire?
    ensures Wanted(threads[i]) < Wanted(threads[j])
  {
    assert Ordered(threads[j].todo, threads[j].held);
  }

  ghost predicate Chain(threads: seq<Thread>, chain: seq<nat>) {
    && (forall k | 0 <= k < |chain| :: chain[k] < |threads|)
    && forall k | 0 <= k < |chain| - 1 :: WaitsFor(threads, chain[k], chain[k + 1])
  }

  lemma {:induction false} ChainsClimb(threads: seq<Thread>, chain: seq<nat>)
    requires AllOrdered(threads) && |chain| >= 2 && Chain(threads, chain)
    ensures var last := threads[chain[|chain| - 1]];
            last.todo != [] && last.todo[0].Acquire?
            ==> Wanted(threads[chain[0]]) + |chain| - 1 <= Wanted(last)
  {
    var last := |chain| - 1;
    assert WaitsFor(threads, chain[last - 1], chain[last]);
    if threads[chain[last]].todo != [] && threads[chain[last]].todo[0].Acquire? {
      WaitsClimb(threads, chain[last - 1], chain[last]);
      if last >= 2 {
        assert Chain(threads, chain[..last]) by {
          forall k | 0 <= k < last - 1 ensures WaitsFor(threads, chain[..last][k], chain[..last][k + 1]) {
            assert WaitsFor(threads, chain[k], chain[k + 1]);
          }
        }
        ChainsClimb(threads, chain[..last]);
      }
    }
  }

  /** No reachable state has a cycle of waiting threads. */
  lemma NoCycleOfWaiters(actions: seq<Action>, chain: seq<nat>)
    requires |chain| >= 2 && Chain(Execute(actions), chain)
    ensures chain[0] != chain[|chain| - 1]
  {
    var threads := Execute(actions);
    ExecutionIsOrdered(actions);
    ChainsClimb(threads, chain);
    assert WaitsFor(threads, chain[0], chain[1]);
  }

  /** From any thread that has not finished, following who is waited for leads to one that can go on. */
  lemma {:induction false} SomebodyCanStep(threads: seq<Thread>, i: nat) returns (j: nat)
    requires AllOrdered(threads) && i < |threads| && threads[i].todo != []
    ensures j < |threads| && CanStep(threads, j)
    decreases if threads[i].todo[0].Acquire? then 4 - Rank(threads[i].todo[0].lock) else 0
  {
    if CanStep(threads, i) {
      j := i;
    } else {
      var op := threads[i].todo[0];
      var k :| 0 <= k < |threads| && k != i && HeldAgainst(threads, k, op.lock, op.mode);
      assert Ordered(threads[k].todo, threads[k].held);
      if threads[k].todo[0].Acquire? { WaitsClimb(threads, i, k); }
      j := SomebodyCanStep(threads, k);
    }
  }

  /** In every reachable state, unless everything has finished, something can go on. */
  lemma NoDeadlock(actions: seq<Action>)
    requires exists i | 0 <= i < |Execute(actions)| :: Execute(actions)[i].todo != []
    ensures exists j: nat | j < |Execute(actions)| :: CanStep(Execute(actions), j)
  {
    ExecutionIsOrdered(actions);
    var i :| 0 <= i < |Execute(actions)| && Execute(actions)[i].todo != [];
    var j := SomebodyCanStep(Execute(actions), i);
  }
}
