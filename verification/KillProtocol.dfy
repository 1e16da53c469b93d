/**
 * Several algorithms race for the same congruence: `Congruence::winning_data`.
 *
 * There are `n` objects, and a thread for each of the first `threads` of them.
 * A thread runs its object until the object is done, its goal is met or it has
 * been killed, takes the lock, and if the object has not been killed kills all
 * the others, one by one.
 *
 * Lines cited here are those of src/cong.cc.
 */
module KillProtocol {

  datatype Phase =
    | Running            // inside `run_until`
    | Waiting            // about to take the lock
    | Locked             // has the lock, has not looked at its kill flag yet
    | Killing(next: nat) // has the lock, the objects from `next` on are still to be killed
    | Finished           // has given the lock back
    | Failed             // an allocation failed inside `run_until`

  datatype State = State(
    killed: seq<bool>,
    done: seq<bool>,
    goal: seq<bool>,
    phase: seq<Phase>,
    lock: int,            // the thread that has the lock, or NOBODY
    winner: int,          // the thread that found its object alive under the lock, or NOBODY
    gaveUp: set<int>      // the objects that have killed themselves
  )

  const NOBODY: int := -1

  datatype Step =
    | Work(i: nat, done: bool, goal: bool)
    | GiveUp(i: nat)
    | Fail(i: nat)
    | Leave(i: nat)
    | Acquire(i: nat)
    | Look(i: nat)
    | KillNext(i: nat)
    | Release(i: nat)

  ghost predicate Sizes(s: State) {
    |s.phase| <= |s.killed| == |s.done| == |s.goal|
  }

  /** After the loop that calls `unkill` (lines 128-130); objects without thread keep their flags. */
  ghost predicate Init(s: State) {
    && Sizes(s) && s.lock == NOBODY && s.winner == NOBODY && s.gaveUp == {}
    && forall i :: 0 <= i < |s.phase| ==> s.phase[i] == Running && !s.killed[i]
  }

  ghost predicate Enabled(s: State, a: Step) {
    && Sizes(s) && a.i < |s.phase|
    && match a
       case Work(i, _, _) => s.phase[i] == Running
       case GiveUp(i) => s.phase[i] == Running
       case Fail(i) => s.phase[i] == Running
       case Leave(i) => s.phase[i] == Running && (s.done[i] || s.killed[i] || s.goal[i])
       case Acquire(i) => s.phase[i] == Waiting && s.lock == NOBODY
       case Look(i) => s.phase[i] == Locked
       case KillNext(i) => s.phase[i].Killing? && s.phase[i].next < |s.killed|
       case Release(i) => s.phase[i].Killing? && s.phase[i].next >= |s.killed|
  }

  ghost function After(s: State, a: Step): State
    requires Enabled(s, a)
  {
    match a
    case Work(i, d, g) => s.(done := s.done[i := s.done[i] || d], goal := s.goal[i := g])
    case GiveUp(i) => s.(killed := s.killed[i := true], gaveUp := s.gaveUp + {i})
    case Fail(i) => s.(phase := s.phase[i := Failed])
    case Leave(i) => s.(phase := s.phase[i := Waiting])
    case Acquire(i) => s.(phase := s.phase[i := Locked], lock := i)
    case Look(i) =>
      if s.killed[i] then s.(phase := s.phase[i := Killing(|s.killed|)])
      else s.(phase := s.phase[i := Killing(0)], winner := i)
    case KillNext(i) =>
      var p := s.phase[i].next;
      s.(phase := s.phase[i := Killing(p + 1)], killed := if p == i then s.killed else s.killed[p := true])
    case Release(i) => s.(phase := s.phase[i := Finished], lock := NOBODY)
  }

  // ----- what every step keeps -----

  ghost predicate HasLock(p: Phase) {
    p.Locked? || p.Killing?
  }

  /** The lock is held by exactly the thread that says so. */
  ghost predicate LockOk(s: State) {
    && Sizes(s) && (s.lock == NOBODY || 0 <= s.lock < |s.phase|)
    && forall i {:trigger s.phase[i]} :: 0 <= i < |s.phase| ==> (HasLock(s.phase[i]) <==> s.lock == i)
  }

  /** Whoever has left has a reason. */
  ghost predicate ReasonOk(s: State) {
    Sizes(s) && forall i {:trigger s.phase[i]} :: 0 <= i < |s.phase| && s.phase[i] != Running && s.phase[i] != Failed ==> s.done[i] || s.killed[i] || s.goal[i]
  }

  /** As long as there is no winner, nobody has been killed by somebody else. */
  ghost predicate NoWinner(s: State) {
    && Sizes(s)
    && (forall i {:trigger s.killed[i]} :: 0 <= i < |s.phase| && s.killed[i] ==> i in s.gaveUp)
    && (forall i {:trigger s.phase[i]} :: 0 <= i < |s.phase| && (s.phase[i] == Finished || s.phase[i].Killing?) ==>
          s.killed[i] && (s.phase[i].Killing? ==> s.phase[i].next == |s.killed|))
  }

  /** The winner is alive, and has killed everybody that it has come past. */
  ghost predicate WinnerOk(s: State, w: int) {
    && Sizes(s) && 0 <= w < |s.phase| && !s.killed[w] && w !in s.gaveUp && (s.done[w] || s.goal[w])
    && (s.phase[w].Killing? || s.phase[w] == Finished)
    && (forall j {:trigger s.killed[j]} :: 0 <= j < |s.killed| && j != w && (s.phase[w].Killing? ==> j < s.phase[w].next) ==> s.killed[j])
    && (forall i {:trigger s.phase[i]} :: 0 <= i < |s.phase| && i != w && s.phase[i].Killing? ==> s.phase[i].next == |s.killed|)
  }

  ghost predicate Inv(s: State) {
    && LockOk(s) && ReasonOk(s) && (forall i :: i in s.gaveUp ==> 0 <= i < |s.killed| && s.killed[i])
    && (s.winner == NOBODY || 0 <= s.winner < |s.phase|)
    && (if s.winner == NOBODY then NoWinner(s) else WinnerOk(s, s.winner))
  }

  lemma InitInv(s: State)
    requires Init(s)
    ensures Inv(s)
  {
  }

  lemma StepInv(s: State, a: Step)
    requires Inv(s) && Enabled(s, a)
    ensures Inv(After(s, a))
  {
    StepLock(s, a);
    StepReason(s, a);
    if s.winner == NOBODY {
      StepNoWinner(s, a);
    } else {
      StepWinner(s, a);
    }
    hide LockOk, ReasonOk, NoWinner, WinnerOk;
  }

  lemma StepLock(s: State, a: Step)
    requires LockOk(s) && Enabled(s, a)
    ensures LockOk(After(s, a))
  {
  }

  lemma StepReason(s: State, a: Step)
    requires ReasonOk(s) && Enabled(s, a)
    ensures ReasonOk(After(s, a))
  {
  }

  lemma StepNoWinner(s: State, a: Step)
    requires Inv(s) && Enabled(s, a) && s.winner == NOBODY
    ensures var s' := After(s, a); if s'.winner == NOBODY then NoWinner(s') else WinnerOk(s', s'.winner)
  {
  }

  lemma StepWinner(s: State, a: Step)
    requires Inv(s) && Enabled(s, a) && s.winner != NOBODY
    ensures After(s, a).winner == s.winner && WinnerOk(After(s, a), s.winner)
  {
  }

  /** A finite part of an interleaving. */
  ghost predicate Run(s: State, steps: seq<Step>, s': State)
    decreases |steps|
  {
    if steps == [] then s == s' else Enabled(s, steps[0]) && Run(After(s, steps[0]), steps[1..], s')
  }

  lemma {:induction false} RunInv(s: State, steps: seq<Step>, s': State)
    requires Inv(s) && Run(s, steps, s')
    ensures Inv(s') && |s'.phase| == |s.phase| && |s'.killed| == |s.killed| && s.gaveUp <= s'.gaveUp
    decreases |steps|
  {
    if steps != [] {
      StepInv(s, steps[0]);
      RunInv(After(s, steps[0]), steps[1..], s');
    }
  }

  // ----- the end -----

  /** All threads have been joined. */
  ghost predicate Joined(s: State) {
    Sizes(s) && forall i :: 0 <= i < |s.phase| ==> s.phase[i] == Finished || s.phase[i] == Failed
  }

  /** Exactly the object `w` is alive. */
  ghost predicate OnlyAlive(s: State, w: int) {
    0 <= w < |s.killed| && forall j :: 0 <= j < |s.killed| ==> (s.killed[j] <==> j != w)
  }

  /**
   * If some object that has not killed itself gets as far as the lock, then in
   * the end exactly one object is alive, and it is done or its goal is met.
   */
  lemma OneSurvives(s: State, steps: seq<Step>, s': State, i: nat)
    requires Init(s) && Run(s, steps, s') && Joined(s') && i < |s'.phase| && s'.phase[i] == Finished && i !in s'.gaveUp
    ensures 0 <= s'.winner < |s'.phase| <= |s'.done| && OnlyAlive(s', s'.winner) && (s'.done[s'.winner] || s'.goal[s'.winner])
  {
    InitInv(s);
    RunInv(s, steps, s');
    SomebodyWon(s', i);
    SurvivorOk(s');
  }

  lemma SomebodyWon(s: State, i: nat)
    requires Inv(s) && i < |s.phase| && s.phase[i] == Finished && i !in s.gaveUp
    ensures s.winner != NOBODY
  {
  }

  lemma SurvivorOk(s: State)
    requires Inv(s) && Joined(s) && s.winner != NOBODY
    ensures OnlyAlive(s, s.winner) && (s.done[s.winner] || s.goal[s.winner])
  {
  }

  ghost predicate Candidate(s: State, i: int)
    requires Sizes(s)
  {
    0 <= i < |s.done| && (s.done[i] || !s.killed[i])
  }

  /** The object is returned: the first that is done or alive. */
  ghost predicate Returned(s: State, r: int)
    requires Sizes(s)
  {
    Candidate(s, r) && forall i :: 0 <= i < r ==> !Candidate(s, i)
  }

  /** An object that may be returned: it is done, or it has stopped by itself because its goal was met. */
  ghost predicate Good(s: State, r: int)
    requires Sizes(s) && 0 <= r < |s.done|
  {
    s.done[r] || (r < |s.phase| && s.phase[r] == Finished && !s.killed[r] && s.goal[r])
  }

  /** The loop of lines 137-159; it finds nothing where the original aborts. */
  method FindWinner(killed: seq<bool>, done: seq<bool>) returns (found: bool, r: nat)
    requires |killed| == |done|
    ensures found ==> r < |done| && (done[r] || !killed[r]) && forall i :: 0 <= i < r ==> !done[i] && killed[i]
    ensures !found ==> forall i :: 0 <= i < |done| ==> !done[i] && killed[i]
  {
    r := 0;
    while r < |done|
      invariant r <= |done| && forall i :: 0 <= i < r ==> !done[i] && killed[i]
    {
      if done[r] || !killed[r] {
        return true, r;
      }
      r := r + 1;
    }
    found := false;
  }

  /** If there is a winner, what is returned is done or has met its goal. */
  lemma WinnerGood(s: State, r: int)
    requires Inv(s) && Joined(s) && s.winner != NOBODY && Returned(s, r)
    ensures Good(s, r) && (s.done[r] || r == s.winner)
  {
    SurvivorOk(s);
  }

  lemma SomethingReturned(s: State)
    requires Inv(s) && Joined(s) && s.winner != NOBODY
    ensures exists r :: Returned(s, r)
  {
    SurvivorOk(s);
    FirstCandidate(s, s.winner);
  }

  lemma {:induction false} FirstCandidate(s: State, i: int)
    requires Sizes(s) && Candidate(s, i)
    ensures exists r :: Returned(s, r)
    decreases i
  {
    if j :| 0 <= j < i && Candidate(s, j) {
      FirstCandidate(s, j);
    } else {
      assert Returned(s, i);
    }
  }

  /** Some thread got as far as the lock with an object that has not killed itself. */
  ghost predicate Arrived(s: State) {
    exists i :: 0 <= i < |s.phase| && s.phase[i] != Failed && i !in s.gaveUp
  }

  /** In the end there is a winner exactly if some thread has arrived. */
  lemma WinnerIff(s: State)
    requires Inv(s) && Joined(s)
    ensures s.winner != NOBODY <==> Arrived(s)
  {
    if Arrived(s) {
      var i :| 0 <= i < |s.phase| && s.phase[i] != Failed && i !in s.gaveUp;
      SomebodyWon(s, i);
    }
    if s.winner != NOBODY {
      assert s.phase[s.winner] != Failed && s.winner !in s.gaveUp;
    }
  }

  /** Exactly when the returned object deserves it: some allocation succeeded for an object that did not kill itself, or the object is done all the same. */
  lemma GoodIff(s: State, steps: seq<Step>, s': State, r: int)
    requires Init(s) && Run(s, steps, s') && Joined(s') && Returned(s', r)
    ensures Good(s', r) <==> Arrived(s') || s'.done[r]
  {
    InitInv(s);
    RunInv(s, steps, s');
    WinnerIff(s');
    if s'.winner != NOBODY {
      WinnerGood(s', r);
    }
  }

  /** Whatever the interleaving, a good object is returned if one thread gets to the lock with an object that has not killed itself. */
  lemma AlwaysGood(s: State, steps: seq<Step>, s': State, i: nat)
    requires Init(s) && Run(s, steps, s') && Joined(s')
    requires i < |s'.phase| && s'.phase[i] != Failed && i !in s'.gaveUp
    ensures exists r :: Returned(s', r) && 0 <= r < |s'.done| && Good(s', r)
  {
    OneSurvives(s, steps, s', i);
    InitInv(s);
    RunInv(s, steps, s');
    SomethingReturned(s');
    var r :| Returned(s', r);
    WinnerGood(s', r);
  }

  /**
   * If the allocation fails in every thread the original means to abort, but
   * nobody has been killed then, and an object that has achieved nothing is returned.
   */
  lemma FailureReturned(s: State)
    requires Init(s) && s.phase == [Running] && s.done == [false] && s.goal == [false]
    ensures exists s' :: Run(s, [Fail(0)], s') && Joined(s') && Returned(s', 0) && !Good(s', 0)
  {
    var s' := After(s, Fail(0));
    assert [Fail(0)][1..] == [];
    assert Run(s', [], s');
    assert Run(s, [Fail(0)], s');
  }

  // ----- no deadlock -----

  /** Unless all threads have ended or one is still working, the protocol can go on. */
  lemma NoDeadlock(s: State)
    requires Inv(s) && !Joined(s) && forall i :: 0 <= i < |s.phase| ==> s.phase[i] != Running
    ensures exists a :: Enabled(s, a) && (a.Acquire? || a.Look? || a.KillNext? || a.Release?)
  {
    var i :| 0 <= i < |s.phase| && s.phase[i] != Finished && s.phase[i] != Failed;
    var k := if s.lock == NOBODY then i else s.lock;
    assert s.lock == k ==> HasLock(s.phase[k]);
    assert s.lock == NOBODY ==> !HasLock(s.phase[i]);
    var a := if s.phase[k] == Waiting then Acquire(k) else if s.phase[k] == Locked then Look(k)
             else if s.phase[k].next < |s.killed| then KillNext(k) else Release(k);
    assert Enabled(s, a);
  }

  ghost function Remaining(s: State, i: nat): nat
    requires i < |s.phase|
  {
    match s.phase[i]
    case Running => |s.killed| + 4
    case Waiting => |s.killed| + 3
    case Locked => |s.killed| + 2
    case Killing(p) => if p <= |s.killed| then |s.killed| - p + 1 else 1
    case Finished => 0
    case Failed => 0
  }

  ghost function Total(s: State, n: nat): nat
    requires n <= |s.phase|
  {
    if n == 0 then 0 else Total(s, n - 1) + Remaining(s, n - 1)
  }

  lemma {:induction false} TotalOthers(s: State, s': State, i: nat, n: nat)
    requires n <= |s.phase| == |s'.phase| && |s'.killed| == |s.killed| && i < |s.phase|
    requires forall j :: 0 <= j < |s.phase| && j != i ==> s'.phase[j] == s.phase[j]
    ensures Total(s', n) == Total(s, n) + (if i < n then Remaining(s', i) - Remaining(s, i) else 0)
  {
    if n > 0 {
      TotalOthers(s, s', i, n - 1);
    }
  }

  /** Apart from the work itself every step brings the end nearer. */
  lemma StepDecreases(s: State, a: Step)
    requires Inv(s) && Enabled(s, a)
    ensures var s' := After(s, a);
            |s'.phase| == |s.phase| && if a.Work? || a.GiveUp? then Total(s', |s.phase|) == Total(s, |s.phase|) else Total(s', |s.phase|) < Total(s, |s.phase|)
  {
    var s' := After(s, a);
    TotalOthers(s, s', a.i, |s.phase|);
  }
}
