/** The futex mutex of one side of the queue, for any number of threads: every access to the lock word
    and every futex call is one step, and the steps of the threads interleave freely. */
module Mutex {

  type Tid = nat

  /** Where a thread stands in `lock` and in the drop of the guard. */
  datatype Pc =
    | Outside          // not using the lock
    | Exchange         // lock: about to compare-and-exchange 0 for 1
    | Swap             // lock: about to swap in 2
    | Compare          // lock: in futex_wait, about to compare the word with 2
    | Asleep           // lock: suspended by the kernel
    | Inside           // holds the guard
    | Wake             // drop: the word was 2, about to wake one sleeper

  datatype State = State(word: nat, pcs: seq<Pc>)

  /** What a step leaves open: whom the kernel wakes, and whether it returns from a sleep by itself. */
  datatype Choice = Go | WakeOne(who: Tid) | Spurious

  function Init(threads: nat): State {
    State(0, seq(threads, _ => Outside))
  }

  predicate SomeAsleep(s: State) {
    exists u | 0 <= u < |s.pcs| :: s.pcs[u] == Asleep
  }

  /** One step of thread `t`; a choice that is not possible leaves the state as it is. */
  function Step(s: State, t: Tid, c: Choice): State {
    if t >= |s.pcs| then s else
    match s.pcs[t]
    case Outside => At(s, t, Exchange)
    case Exchange => if s.word == 0 then At(s, t, Inside).(word := 1) else At(s, t, Swap)
    case Swap => At(s, t, if s.word == 0 then Inside else Compare).(word := 2)
    case Compare => At(s, t, if s.word == 2 then Asleep else Swap)
    case Asleep => if c.Spurious? then At(s, t, Swap) else s
    case Inside => At(s, t, if s.word == 2 then Wake else Outside).(word := 0)
    case Wake =>
      if c.WakeOne? && c.who < |s.pcs| && s.pcs[c.who] == Asleep then At(At(s, c.who, Swap), t, Outside)
      else if SomeAsleep(s) then s
      else At(s, t, Outside)
  }

  function At(s: State, t: Tid, pc: Pc): State
    requires t < |s.pcs|
  {
    s.(pcs := s.pcs[t := pc])
  }

  function Run(s: State, schedule: seq<(Tid, Choice)>): State
    decreases |schedule|
  {
    if schedule == [] then s
    else
      var last := schedule[|schedule| - 1];
      Step(Run(s, schedule[..|schedule| - 1]), last.0, last.1)
  }

  predicate Holder(s: State, t: Tid) { t < |s.pcs| && s.pcs[t] == Inside }

  ghost predicate MutualExclusion(s: State) {
    forall t, u | Holder(s, t) && Holder(s, u) :: t == u
  }

  ghost predicate WordTellsHolder(s: State) {
    && s.word <= 2
    && (s.word != 0 <==> exists t :: Holder(s, t))
  }

  /** Somebody will look after the sleepers: the word says so to the next unlocker, an unlocker is about to wake
      one of them, or a thread that is awake is about to swap in 2. */
  ghost predicate SleepersCaredFor(s: State) {
    SomeAsleep(s) ==> s.word == 2 || exists u | 0 <= u < |s.pcs| :: s.pcs[u] == Wake || s.pcs[u] == Swap
  }

  ghost predicate Inv(s: State) {
    MutualExclusion(s) && WordTellsHolder(s) && SleepersCaredFor(s)
  }

  lemma {:induction false} StepKeepsExclusion(s: State, t: Tid, c: Choice)
    requires MutualExclusion(s) && WordTellsHolder(s)
    ensures MutualExclusion(Step(s, t, c)) && WordTellsHolder(Step(s, t, c))
  {
    var s' := Step(s, t, c);
    if t < |s.pcs| && !s.pcs[t].Outside? && s' != s {
      forall u | u != t ensures Holder(s', u) <==> Holder(s, u) {}
      if Holder(s, t) { assert !exists u :: Holder(s', u); }
      if Holder(s', t) { assert !exists u :: Holder(s, u); }
    } else {
      assert forall u :: Holder(s', u) <==> Holder(s, u);
    }
  }

  lemma {:induction false} StepKeepsCare(s: State, t: Tid, c: Choice)
    requires Inv(s)
    ensures SleepersCaredFor(Step(s, t, c))
  {
    var s' := Step(s, t, c);
    if t < |s.pcs| && SomeAsleep(s') && s' != s {
      match s.pcs[t]
      case Compare =>
        if s.word == 2 { assert s'.word == 2; } else { assert s'.pcs[t] == Swap; }
      case Swap => assert s'.word == 2;
      case Inside =>
        if s.word == 2 { assert s'.pcs[t] == Wake; } else { CarerStays(s, s', t); }
      case Wake => assert s'.pcs[c.who] == Swap;
      case Asleep => assert s'.pcs[t] == Swap;
      case Exchange =>
        if s.word == 0 { CarerStays(s, s', t); } else { assert s'.pcs[t] == Swap; }
      case Outside =>
        if s.word != 2 { CarerStays(s, s', t); }
    }
  }

  /** A thread that is neither waking nor swapping takes nobody's carer away. */
  lemma CarerStays(s: State, s': State, t: Tid)
    requires t < |s.pcs| == |s'.pcs| && s.word != 2 && SleepersCaredFor(s)
    requires !s.pcs[t].Wake? && !s.pcs[t].Swap? && !s'.pcs[t].Asleep?
    requires s'.pcs == s.pcs[t := s'.pcs[t]]
    ensures SleepersCaredFor(s')
  {
    if SomeAsleep(s') {
      var a :| 0 <= a < |s'.pcs| && s'.pcs[a] == Asleep;
      assert s.pcs[a] == Asleep;
      var u :| 0 <= u < |s.pcs| && (s.pcs[u] == Wake || s.pcs[u] == Swap);
      assert s'.pcs[u] == s.pcs[u];
    }
  }

  /** At every moment of every run: one holder at most, a word that tells whether there is one,
      and nobody asleep without somebody to care for it. */
  lemma {:induction false} AlwaysInv(threads: nat, schedule: seq<(Tid, Choice)>)
    ensures Inv(Run(Init(threads), schedule))
    decreases |schedule|
  {
    if schedule != [] {
      var last := schedule[|schedule| - 1];
      var s := Run(Init(threads), schedule[..|schedule| - 1]);
      AlwaysInv(threads, schedule[..|schedule| - 1]);
      StepKeepsExclusion(s, last.0, last.1);
      StepKeepsCare(s, last.0, last.1);
    } else {
      assert forall t :: !Holder(Init(threads), t);
    }
  }

  /** No step of `t` but a spurious return from a sleep changes anything. */
  ghost predicate Blocked(s: State, t: Tid) {
    forall c: Choice | !c.Spurious? :: Step(s, t, c) == s
  }

  /** Only sleepers are blocked. */
  lemma BlockedMeansAsleep(s: State, t: Tid)
    requires t < |s.pcs|
    ensures Blocked(s, t) <==> s.pcs[t] == Asleep
  {
    if s.pcs[t] != Asleep {
      if s.pcs[t] == Wake && SomeAsleep(s) {
        var u :| 0 <= u < |s.pcs| && s.pcs[u] == Asleep;
        assert Step(s, t, WakeOne(u)).pcs[t] == Outside;
      } else {
        assert Step(s, t, Go).pcs[t] != s.pcs[t];
      }
    }
  }

  /** No lost wake: in every reachable state with a free lock and somebody who wants it, a thread can move. */
  lemma FreeLockIsReached(threads: nat, schedule: seq<(Tid, Choice)>, wants: Tid)
    requires var s := Run(Init(threads), schedule);
             wants < |s.pcs| && s.pcs[wants] != Outside && !exists t :: Holder(s, t)
    ensures var s := Run(Init(threads), schedule);
            exists t | 0 <= t < |s.pcs| :: s.pcs[t] != Outside && !Blocked(s, t)
  {
    var s := Run(Init(threads), schedule);
    AlwaysInv(threads, schedule);
    BlockedMeansAsleep(s, wants);
    if s.pcs[wants] == Asleep {
      assert SomeAsleep(s);
      var u :| 0 <= u < |s.pcs| && (s.pcs[u] == Wake || s.pcs[u] == Swap);
      BlockedMeansAsleep(s, u);
    }
  }

  // ---- How it gets there ----

  lemma RunMore(s: State, schedule: seq<(Tid, Choice)>, t: Tid, c: Choice)
    ensures Run(s, schedule + [(t, c)]) == Step(Run(s, schedule), t, c)
  {
    assert (schedule + [(t, c)])[..|schedule|] == schedule;
  }

  /** Without contention the lock is taken by one exchange, which leaves the word 1, and dropped by one swap, after
      which everything is as before: nobody has been woken and nobody needs to be. */
  lemma Uncontended(s: State, t: Tid)
    requires t < |s.pcs| && s.pcs[t] == Outside && s.word == 0
    ensures var inside := Run(s, [(t, Go), (t, Go)]);
            inside == At(s, t, Inside).(word := 1) && Step(inside, t, Go) == s
  {
    RunMore(s, [], t, Go);
    RunMore(s, [(t, Go)], t, Go);
    assert [] + [(t, Go)] == [(t, Go)] && [(t, Go)] + [(t, Go)] == [(t, Go), (t, Go)];
    assert s.pcs[t := Exchange][t := Inside][t := Outside] == s.pcs;
  }

  /** A thread that finds the lock held does not spin: it marks the word and sleeps, and the owner's drop and wake
      hand the lock over. */
  lemma Handover(s: State, t: Tid, owner: Tid)
    requires Holder(s, owner) && t < |s.pcs| && s.pcs[t] == Outside && 1 <= s.word <= 2
    ensures var asleep := Step(Step(Step(Step(s, t, Go), t, Go), t, Go), t, Go);
            && asleep == At(s, t, Asleep).(word := 2) && Blocked(asleep, t)
            && var dropped := Step(Step(asleep, owner, Go), owner, WakeOne(t));
               Step(dropped, t, Go) == At(At(s, owner, Outside), t, Inside).(word := 2)
  {
    var s1 := Step(s, t, Go);
    var s2 := Step(s1, t, Go);
    var s3 := Step(s2, t, Go);
    var s4 := Step(s3, t, Go);
    assert s1 == At(s, t, Exchange);
    assert s2 == At(s, t, Swap);
    assert s3 == At(s, t, Compare).(word := 2);
    assert s4 == At(s, t, Asleep).(word := 2);
    var d1 := Step(s4, owner, Go);
    assert d1 == At(At(s, t, Asleep), owner, Wake).(word := 0);
    var d2 := Step(d1, owner, WakeOne(t));
    assert d2 == At(At(s, owner, Outside), t, Swap).(word := 0);
  }

  // ---- Refinement of an atomic lock ----

  datatype Owner = Nobody | Held(owner: Tid)

  ghost function Abs(s: State): Owner {
    if exists t :: Holder(s, t) then var t :| Holder(s, t); Held(t) else Nobody
  }

  /** The atomic lock: taken when free, given back by its owner. */
  predicate AtomicStep(o: Owner, t: Tid, o': Owner) {
    o' == o || (o == Nobody && o' == Held(t)) || (o == Held(t) && o' == Nobody)
  }

  lemma AbsIsHolder(s: State, t: Tid)
    requires MutualExclusion(s) && Holder(s, t)
    ensures Abs(s) == Held(t)
  {
  }

  /** Every step of a thread is a step of the atomic lock by that thread, and the thread enters or leaves
      `Inside` exactly when the atomic lock changes hands. */
  lemma RefinesAtomicLock(threads: nat, schedule: seq<(Tid, Choice)>, t: Tid, c: Choice)
    ensures var s := Run(Init(threads), schedule);
            var s' := Step(s, t, c);
            && AtomicStep(Abs(s), t, Abs(s'))
            && (Abs(s') == Held(t) <==> Holder(s', t))
            && (Abs(s') != Abs(s) <==> (Holder(s, t) != Holder(s', t)))
  {
    var s := Run(Init(threads), schedule);
    var s' := Step(s, t, c);
    AlwaysInv(threads, schedule);
    StepKeepsExclusion(s, t, c);
    forall u | u != t ensures Holder(s', u) <==> Holder(s, u) {}
    if u: Tid :| Holder(s, u) { AbsIsHolder(s, u); }
    if u: Tid :| Holder(s', u) { AbsIsHolder(s', u); }
  }
}
