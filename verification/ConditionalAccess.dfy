/** The shared/exclusive lock `ConditionalAccess` of corelib/condition.cpp as a step system.

    One step is one critical section: from taking the internal mutex to waiting, unlocking, or (for
    `modify`) returning with the mutex held.  A waiting thread is blocked until a signal, a broadcast
    or a spurious wakeup makes it awake; an awake thread has still to retake the mutex. */
module ConditionalAccess {

  import opened Options
  import opened Waiting

  /** `pending`, `waiting` and `sharing` are the lock's own counters; the sets and the multiset record
      what each thread is doing and how many shares it holds. */
  datatype State = State(
    owner: Option<Tid>, pending: nat, waiting: nat, sharing: nat,
    wBlocked: set<Tid>, wAwake: set<Tid>, rBlocked: set<Tid>, rAwake: set<Tid>, shares: multiset<Tid>)

  ghost predicate Init(s: State) {
    s == State(None, 0, 0, 0, {}, {}, {}, {}, multiset{})
  }

  ghost predicate Waits(s: State, t: Tid) { t in s.wBlocked + s.wAwake + s.rBlocked + s.rAwake }

  /** `t` is running outside the lock's operations and the mutex is free. */
  ghost predicate MayCall(s: State, t: Tid) { s.owner.None? && !Waits(s, t) }

  // ---------------------------------------------------------------- condition variables

  /** A signal wakes one thread blocked on `cond`, if there is one. */
  ghost predicate Signalled(s: State, s': State) {
    if s.wBlocked == {} then s' == s
    else exists u | u in s.wBlocked :: s' == s.(wBlocked := s.wBlocked - {u}, wAwake := s.wAwake + {u})
  }

  /** A broadcast wakes every thread blocked on `bcast`. */
  function Broadcast(s: State): State { s.(rBlocked := {}, rAwake := s.rAwake + s.rBlocked) }

  // ---------------------------------------------------------------- the operations

  /** The loop test of `modify`: enter holding the mutex, or wait. */
  function TryModify(s: State, t: Tid): State {
    if s.sharing == 0 then s.(owner := Some(t))
    else s.(pending := s.pending + 1, wBlocked := s.wBlocked + {t})
  }

  ghost predicate Modify(s: State, t: Tid, s': State) { MayCall(s, t) && s' == TryModify(s, t) }

  ghost predicate RetryModify(s: State, t: Tid, s': State) {
    && s.owner.None? && t in s.wAwake && s.pending > 0
    && s' == TryModify(s.(pending := s.pending - 1, wAwake := s.wAwake - {t}), t)
  }

  ghost predicate Commit(s: State, t: Tid, s': State) {
    && s.owner == Some(t)
    && var u := s.(owner := None);
       if s.pending > 0 then Signalled(u, s')
       else if s.waiting > 0 then s' == Broadcast(u)
       else s' == u
  }

  /** The loop test of `access`: take a share, or wait. */
  function TryAccess(s: State, t: Tid): State {
    if s.pending == 0 then s.(sharing := s.sharing + 1, shares := s.shares + multiset{t})
    else s.(waiting := s.waiting + 1, rBlocked := s.rBlocked + {t})
  }

  ghost predicate Access(s: State, t: Tid, s': State) { MayCall(s, t) && s' == TryAccess(s, t) }

  ghost predicate RetryAccess(s: State, t: Tid, s': State) {
    && s.owner.None? && t in s.rAwake && s.waiting > 0
    && s' == TryAccess(s.(waiting := s.waiting - 1, rAwake := s.rAwake - {t}), t)
  }

  /** Called only by a thread that holds a share. */
  ghost predicate Release(s: State, t: Tid, s': State) {
    && MayCall(s, t) && t in s.shares && s.sharing > 0
    && var u := s.(sharing := s.sharing - 1, shares := s.shares - multiset{t});
       if u.pending > 0 && u.sharing == 0 then Signalled(u, s')
       else if u.waiting > 0 && u.pending == 0 then s' == Broadcast(u)
       else s' == u
  }

  /** A wait may end without a signal. */
  ghost predicate Spurious(s: State, t: Tid, s': State) {
    || (t in s.wBlocked && s' == s.(wBlocked := s.wBlocked - {t}, wAwake := s.wAwake + {t}))
    || (t in s.rBlocked && s' == s.(rBlocked := s.rBlocked - {t}, rAwake := s.rAwake + {t}))
  }

  /** Steps that only finish work already begun: no new calls and no spurious wakeups. */
  ghost predicate Finish(s: State, s': State) {
    exists t :: RetryModify(s, t, s') || Commit(s, t, s') || RetryAccess(s, t, s') || Release(s, t, s')
  }

  ghost predicate Next(s: State, s': State) {
    Finish(s, s') || exists t :: Modify(s, t, s') || Access(s, t, s') || Spurious(s, t, s')
  }

  ghost predicate Run(run: seq<State>) {
    && run != [] && Init(run[0])
    && forall i | 0 <= i < |run| - 1 :: Next(run[i], run[i + 1])
  }

  // ---------------------------------------------------------------- what every step keeps

  ghost predicate Disjoint(s: State) {
    && s.wBlocked !! s.wAwake !! s.rBlocked !! s.rAwake
    && (s.owner.Some? ==> !Waits(s, s.owner.value))
  }

  /** The counters say exactly how many threads wait and how many shares are out. */
  ghost predicate Counted(s: State) {
    && s.pending == |s.wBlocked| + |s.wAwake|
    && s.waiting == |s.rBlocked| + |s.rAwake|
    && s.sharing == |s.shares|
  }

  ghost predicate Exclusive(s: State) { s.owner.Some? ==> s.shares == multiset{} }

  /** With the mutex free, a blocked reader has a writer to wait for, and a blocked writer facing no
      readers has an awakened writer ahead of it. */
  ghost predicate Woken(s: State) {
    s.owner.None? ==>
      && (s.rBlocked != {} ==> s.pending > 0)
      && (s.wBlocked != {} && s.sharing == 0 ==> s.wAwake != {})
  }

  ghost predicate Inv(s: State) { Disjoint(s) && Counted(s) && Exclusive(s) && Woken(s) }

  lemma SignalKeeps(u: State, s': State)
    requires Disjoint(u) && Counted(u) && Signalled(u, s')
    ensures Disjoint(s') && Counted(s') && (s'.wBlocked != {} ==> s'.wAwake != {})
    ensures s' == u.(wBlocked := s'.wBlocked, wAwake := s'.wAwake)
  {
  }

  lemma BroadcastKeeps(u: State)
    requires Disjoint(u) && Counted(u)
    ensures Disjoint(Broadcast(u)) && Counted(Broadcast(u))
  {
  }

  lemma TryModifyKeeps(u: State, t: Tid)
    requires Inv(u) && MayCall(u, t)
    ensures Inv(TryModify(u, t))
  {
  }

  lemma TryAccessKeeps(u: State, t: Tid)
    requires Inv(u) && MayCall(u, t)
    ensures Inv(TryAccess(u, t))
  {
  }

  lemma RetryModifyKeeps(s: State, t: Tid, s': State)
    requires Inv(s) && RetryModify(s, t, s')
    ensures Inv(s')
  {
    assert s.wAwake == (s.wAwake - {t}) + {t};
  }

  lemma RetryAccessKeeps(s: State, t: Tid, s': State)
    requires Inv(s) && RetryAccess(s, t, s')
    ensures Inv(s')
  {
    TryAccessKeeps(s.(waiting := s.waiting - 1, rAwake := s.rAwake - {t}), t);
  }

  lemma CommitKeeps(s: State, t: Tid, s': State)
    requires Inv(s) && Commit(s, t, s')
    ensures Inv(s')
  {
    var u := s.(owner := None);
    if s.pending > 0 { SignalKeeps(u, s'); } else { BroadcastKeeps(u); }
  }

  lemma ReleaseKeeps(s: State, t: Tid, s': State)
    requires Inv(s) && Release(s, t, s')
    ensures Inv(s')
  {
    var u := s.(sharing := s.sharing - 1, shares := s.shares - multiset{t});
    if u.pending > 0 && u.sharing == 0 { SignalKeeps(u, s'); } else { BroadcastKeeps(u); }
  }

  lemma SpuriousKeeps(s: State, t: Tid, s': State)
    requires Inv(s) && Spurious(s, t, s')
    ensures Inv(s')
  {
    if t in s.wBlocked { SpuriousWriter(s, t, s'); } else { SpuriousReader(s, t, s'); }
  }

  lemma SpuriousWriter(s: State, t: Tid, s': State)
    requires Inv(s) && t in s.wBlocked && s' == s.(wBlocked := s.wBlocked - {t}, wAwake := s.wAwake + {t})
    ensures Inv(s')
  {
    MoveCounts(s.wBlocked, s.wAwake, t);
  }

  lemma SpuriousReader(s: State, t: Tid, s': State)
    requires Inv(s) && t in s.rBlocked && s' == s.(rBlocked := s.rBlocked - {t}, rAwake := s.rAwake + {t})
    ensures Inv(s')
  {
    MoveCounts(s.rBlocked, s.rAwake, t);
  }

  lemma MoveCounts(blocked: set<Tid>, awake: set<Tid>, t: Tid)
    requires t in blocked && blocked !! awake
    ensures |blocked - {t}| + |awake + {t}| == |blocked| + |awake|
  {
  }

  lemma NextKeeps(s: State, s': State)
    requires Inv(s) && Next(s, s')
    ensures Inv(s')
  {
    if Finish(s, s') {
      var t :| RetryModify(s, t, s') || Commit(s, t, s') || RetryAccess(s, t, s') || Release(s, t, s');
      if RetryModify(s, t, s') { RetryModifyKeeps(s, t, s'); }
      else if Commit(s, t, s') { CommitKeeps(s, t, s'); }
      else if RetryAccess(s, t, s') { RetryAccessKeeps(s, t, s'); }
      else { ReleaseKeeps(s, t, s'); }
    } else {
      var t :| Modify(s, t, s') || Access(s, t, s') || Spurious(s, t, s');
      if Spurious(s, t, s') { SpuriousKeeps(s, t, s'); } else { TryModifyKeeps(s, t); TryAccessKeeps(s, t); }
    }
  }

  lemma {:induction false} RunKeeps(run: seq<State>, k: nat)
    requires Run(run) && k < |run|
    ensures Inv(run[k])
  {
    if k > 0 {
      RunKeeps(run, k - 1);
      NextKeeps(run[k - 1], run[k]);
    }
  }

  // ---------------------------------------------------------------- the promises

  /** A writer is alone: no reader while `modify` .. `commit` is in progress. */
  lemma WriterAlone(run: seq<State>, k: nat)
    requires Run(run) && k < |run| && run[k].owner.Some?
    ensures run[k].sharing == 0 && forall t :: t !in run[k].shares
  {
    RunKeeps(run, k);
  }

  /** No lost wakeup in any run: when nobody holds the lock and some thread is blocked, an awakened
      writer is on its way, and its next step enters. */
  lemma NoLostWakeup(run: seq<State>, k: nat) returns (t: Tid, s': State)
    requires Run(run) && k < |run|
    requires run[k].owner.None? && run[k].shares == multiset{}
    requires run[k].wBlocked + run[k].rBlocked != {}
    ensures t in run[k].wAwake && RetryModify(run[k], t, s') && s'.owner == Some(t)
  {
    RunKeeps(run, k);
    var s := run[k];
    assert s.wBlocked == {} ==> s.pending == |s.wAwake|;
    t :| t in s.wAwake;
    s' := TryModify(s.(pending := s.pending - 1, wAwake := s.wAwake - {t}), t);
  }

  /** A commit or release wakes one writer at most, and only if nobody holds the lock any longer; it wakes readers
      only when no writer waits. */
  lemma WakesFew(run: seq<State>, k: nat, t: Tid, s': State)
    requires Run(run) && k < |run| && (Commit(run[k], t, s') || Release(run[k], t, s'))
    ensures s'.wAwake == run[k].wAwake || exists u | u in run[k].wBlocked :: s'.wAwake == run[k].wAwake + {u}
    ensures s'.wAwake != run[k].wAwake ==> s'.owner.None? && s'.shares == multiset{}
    ensures s'.rAwake == run[k].rAwake || run[k].wBlocked + run[k].wAwake == {}
  {
    RunKeeps(run, k);
    QueueCounts(run[k]);
  }

  // ---------------------------------------------------------------- nothing else holds a thread up

  ghost predicate Inside(s: State, t: Tid) { t in s.wBlocked || t in s.wAwake || t in s.rBlocked || t in s.rAwake }

  /** In every run any thread outside the lock's operations can call any of them when the mutex is free, one that
      holds a share can release it, an awake one can try again, and the owner can commit. */
  lemma CallsPossible(run: seq<State>, k: nat, t: Tid)
    requires Run(run) && k < |run|
    ensures run[k].owner.None? && !Inside(run[k], t) ==>
      (exists s' :: Modify(run[k], t, s')) && (exists s' :: Access(run[k], t, s'))
    ensures run[k].owner.None? && !Inside(run[k], t) && t in run[k].shares ==> exists s' :: Release(run[k], t, s')
    ensures run[k].owner.None? && t in run[k].wAwake ==> exists s' :: RetryModify(run[k], t, s')
    ensures run[k].owner.None? && t in run[k].rAwake ==> exists s' :: RetryAccess(run[k], t, s')
    ensures run[k].owner == Some(t) ==> exists s' :: Commit(run[k], t, s')
  {
    RunKeeps(run, k);
    StatePossible(run[k], t);
  }

  lemma StatePossible(s: State, t: Tid)
    requires Inv(s)
    ensures s.owner.None? && !Inside(s, t) ==> (exists s' :: Modify(s, t, s')) && (exists s' :: Access(s, t, s'))
    ensures s.owner.None? && !Inside(s, t) && t in s.shares ==> exists s' :: Release(s, t, s')
    ensures s.owner.None? && t in s.wAwake ==> exists s' :: RetryModify(s, t, s')
    ensures s.owner.None? && t in s.rAwake ==> exists s' :: RetryAccess(s, t, s')
    ensures s.owner == Some(t) ==> exists s' :: Commit(s, t, s')
  {
    if s.owner == Some(t) {
      var s' := SomeCommit(s);
    } else if s.owner.None? {
      if t in s.wAwake {
        assert RetryModify(s, t, TryModify(s.(pending := s.pending - 1, wAwake := s.wAwake - {t}), t));
      }
      if t in s.rAwake {
        assert RetryAccess(s, t, TryAccess(s.(waiting := s.waiting - 1, rAwake := s.rAwake - {t}), t));
      }
      if !Inside(s, t) {
        assert Modify(s, t, TryModify(s, t)) && Access(s, t, TryAccess(s, t));
        if t in s.shares { var s' := SomeRelease(s, t); }
      }
    }
  }

  // ---------------------------------------------------------------- who has to wait

  lemma QueueCounts(s: State)
    requires Inv(s)
    ensures s.pending == 0 <==> s.wBlocked + s.wAwake == {}
    ensures s.sharing == 0 <==> s.shares == multiset{}
  {
  }

  /** A call of `modify` waits exactly when some thread holds a share. */
  lemma ModifyWaitsExactly(run: seq<State>, k: nat, t: Tid, s': State)
    requires Run(run) && k < |run| && Modify(run[k], t, s')
    ensures var s := run[k];
      if s.shares == multiset{} then s' == s.(owner := Some(t))
      else s' == s.(pending := s'.pending, wBlocked := s.wBlocked + {t}) && s'.pending == s.pending + 1
  {
    RunKeeps(run, k);
    QueueCounts(run[k]);
  }

  /** A call of `access` waits exactly when a writer waits, even if others hold shares or it does itself. */
  lemma AccessWaitsExactly(run: seq<State>, k: nat, t: Tid, s': State)
    requires Run(run) && k < |run| && Access(run[k], t, s')
    ensures var s := run[k];
      if s.wBlocked + s.wAwake == {} then s'.shares == s.shares + multiset{t} && s'.rBlocked == s.rBlocked
      else s'.shares == s.shares && s'.rBlocked == s.rBlocked + {t}
    ensures s'.owner.None? && s'.wBlocked == run[k].wBlocked && s'.wAwake == run[k].wAwake
    ensures s'.rAwake == run[k].rAwake
  {
    RunKeeps(run, k);
    QueueCounts(run[k]);
  }

  /** Awake threads that retry go by the same rules, apart from their own waiting. */
  lemma RetryExactly(run: seq<State>, k: nat, t: Tid, s': State)
    requires Run(run) && k < |run|
    ensures RetryModify(run[k], t, s') ==>
      if run[k].shares == multiset{} then s'.owner == Some(t) && s'.wBlocked == run[k].wBlocked
      else s'.owner.None? && s'.wBlocked == run[k].wBlocked + {t}
    ensures RetryAccess(run[k], t, s') ==>
      if run[k].wBlocked + run[k].wAwake == {}
      then s'.shares == run[k].shares + multiset{t} && s'.rBlocked == run[k].rBlocked
      else s'.shares == run[k].shares && s'.rBlocked == run[k].rBlocked + {t}
  {
    RunKeeps(run, k);
    QueueCounts(run[k]);
  }

  /** Shares given up between two states of a run. */
  ghost function GivenUp(run: seq<State>, j: nat, k: nat): nat
    requires j <= k < |run|
    decreases k - j
  {
    if j == k then 0 else GivenUp(run, j, k - 1) + if run[k].shares == run[k - 1].shares then 0 else 1
  }

  /** While a writer waits no reader gets in, whatever is called: the shares then held are the only ones ever
      given up before it, each once. */
  lemma NoOvertaking(run: seq<State>, j: nat, k: nat)
    requires Run(run) && j <= k < |run|
    requires forall i | j <= i < k :: run[i].wBlocked + run[i].wAwake != {}
    ensures run[k].shares <= run[j].shares && GivenUp(run, j, k) == |run[j].shares| - |run[k].shares|
  {
    forall i | j <= i < k ensures Shrinks(run, i) { NextKeepsOut(run, i); }
    ShrinksOn(run, j, k);
  }

  /** At most one share is given up and none is taken. */
  ghost predicate Shrinks(run: seq<State>, i: int)
    requires 0 <= i < |run| - 1
  {
    var s, s' := run[i].shares, run[i + 1].shares;
    s' == s || (s' <= s && |s'| == |s| - 1)
  }

  lemma {:induction false} ShrinksOn(run: seq<State>, j: nat, k: nat)
    requires j <= k < |run| && forall i | j <= i < k :: Shrinks(run, i)
    ensures run[k].shares <= run[j].shares && GivenUp(run, j, k) == |run[j].shares| - |run[k].shares|
    decreases k - j
  {
    if j < k {
      ShrinksOn(run, j, k - 1);
      assert Shrinks(run, k - 1);
    }
  }

  lemma NextKeepsOut(run: seq<State>, k: nat)
    requires Run(run) && k < |run| - 1 && run[k].wBlocked + run[k].wAwake != {}
    ensures Shrinks(run, k)
  {
    RunKeeps(run, k);
    QueueCounts(run[k]);
    NextTakesNone(run[k], run[k + 1]);
  }

  lemma NextTakesNone(s: State, s': State)
    requires s.pending > 0 && Next(s, s')
    ensures s'.shares == s.shares || (s'.shares <= s.shares && |s'.shares| == |s.shares| - 1)
  {
    if Finish(s, s') {
      var t :| RetryModify(s, t, s') || Commit(s, t, s') || RetryAccess(s, t, s') || Release(s, t, s');
      FinishTakesNone(s, t, s');
    }
  }

  lemma FinishTakesNone(s: State, t: Tid, s': State)
    requires s.pending > 0
    requires RetryModify(s, t, s') || Commit(s, t, s') || RetryAccess(s, t, s') || Release(s, t, s')
    ensures s'.shares == s.shares || (t in s.shares && s'.shares == s.shares - multiset{t})
  {
  }

  // ---------------------------------------------------------------- somebody can always go on

  /** So no run reaches a state where all that wait are blocked and nobody holds the lock. */
  lemma NoDeadlock(run: seq<State>, k: nat)
    requires Run(run) && k < |run|
    requires run[k].wBlocked + run[k].rBlocked != {} && run[k].wAwake == run[k].rAwake == {}
    ensures run[k].owner.Some? || run[k].shares != multiset{}
  {
    if run[k].owner.None? && run[k].shares == multiset{} {
      var t, s' := NoLostWakeup(run, k);
      assert false;
    }
  }

  // ---------------------------------------------------------------- everyone gets through

  ghost function Waiters(s: State): nat { |s.wBlocked| + |s.wAwake| + |s.rBlocked| + |s.rAwake| }
  ghost function Holds(s: State): nat { |s.shares| + if s.owner.Some? then 1 else 0 }
  ghost function Awakened(s: State): nat { |s.wAwake| + |s.rAwake| }

  /** An upper bound on the steps left when nothing new arrives; `n` bounds the waiters. */
  ghost function Budget(n: nat, s: State): nat { (n + 1) * (Waiters(s) + Holds(s)) + Awakened(s) }

  /** A step either uses up an awakening, or a hold. */
  ghost predicate Spends(s: State, s': State) {
    && Waiters(s') <= Waiters(s)
    && (|| (Waiters(s') + Holds(s') == Waiters(s) + Holds(s) && Awakened(s') == Awakened(s) - 1)
        || (Waiters(s') + Holds(s') == Waiters(s) + Holds(s) - 1 && Awakened(s') <= Waiters(s)))
  }

  lemma RetrySpends(s: State, t: Tid, s': State)
    requires Inv(s) && Inv(s') && (RetryModify(s, t, s') || RetryAccess(s, t, s'))
    ensures Spends(s, s')
  {
    if RetryModify(s, t, s') {
      assert |s'.wAwake| == |s.wAwake| - 1;
    } else {
      assert |s'.rAwake| == |s.rAwake| - 1;
    }
  }

  /** A hold given up: nobody starts or stops waiting. */
  lemma GiveUpShape(s: State, t: Tid, s': State)
    requires Commit(s, t, s') || Release(s, t, s')
    ensures s'.pending == s.pending && s'.waiting == s.waiting && s'.owner.None?
    ensures if s.owner.Some? then s'.sharing == s.sharing else s'.sharing == s.sharing - 1
  {
  }

  lemma CountedWaiters(s: State)
    requires Counted(s)
    ensures Waiters(s) == s.pending + s.waiting && Awakened(s) <= Waiters(s)
    ensures Holds(s) == s.sharing + if s.owner.Some? then 1 else 0
  {
  }

  lemma GiveUpSpends(s: State, t: Tid, s': State)
    requires Counted(s) && Counted(s') && (Commit(s, t, s') || Release(s, t, s'))
    ensures Spends(s, s')
  {
    GiveUpShape(s, t, s');
    CountedWaiters(s);
    CountedWaiters(s');
  }

  lemma FinishSpends(s: State, s': State)
    requires Inv(s) && Finish(s, s')
    ensures Spends(s, s')
  {
    NextKeeps(s, s');
    var t :| RetryModify(s, t, s') || Commit(s, t, s') || RetryAccess(s, t, s') || Release(s, t, s');
    if RetryModify(s, t, s') || RetryAccess(s, t, s') { RetrySpends(s, t, s'); } else { GiveUpSpends(s, t, s'); }
  }

  lemma BudgetDrops(n: nat, s: State, s': State)
    requires Spends(s, s') && Waiters(s) <= n
    ensures Budget(n, s') < Budget(n, s)
  {
    var w, w' := Waiters(s) + Holds(s), Waiters(s') + Holds(s');
    if w' == w - 1 {
      TimesLess(n + 1, w);
    }
  }

  lemma TimesLess(n: nat, w: nat)
    requires w > 0
    ensures n * w == n * (w - 1) + n
  {
  }

  /** If nothing new arrives, the work in progress ends within `Budget` steps, whatever the schedule. */
  lemma {:induction false} DrainBound(run: seq<State>, n: nat)
    requires run != [] && Inv(run[0]) && Waiters(run[0]) <= n
    requires forall i | 0 <= i < |run| - 1 :: Finish(run[i], run[i + 1])
    ensures |run| - 1 <= Budget(n, run[0])
    decreases |run|
  {
    if |run| > 1 {
      FinishSpends(run[0], run[1]);
      NextKeeps(run[0], run[1]);
      BudgetDrops(n, run[0], run[1]);
      var rest := run[1..];
      assert forall i | 0 <= i < |rest| - 1 :: Finish(rest[i], rest[i + 1]) by {
        forall i | 0 <= i < |rest| - 1 ensures Finish(rest[i], rest[i + 1]) {
          assert Finish(run[i + 1], run[i + 2]);
        }
      }
      DrainBound(rest, n);
    }
  }

  /** No thread waits while it holds a share itself. */
  ghost predicate Disciplined(s: State) { forall t | t in s.shares :: !Waits(s, t) }

  lemma FinishKeepsDiscipline(s: State, s': State)
    requires Inv(s) && Disciplined(s) && Finish(s, s')
    ensures Disciplined(s')
  {
    var t :| RetryModify(s, t, s') || Commit(s, t, s') || RetryAccess(s, t, s') || Release(s, t, s');
    if RetryAccess(s, t, s') {
      RetryAccessDisciplined(s, t, s');
    } else if RetryModify(s, t, s') {
      RetryModifyDisciplined(s, t, s');
    } else {
      GiveUpDisciplined(s, t, s');
    }
  }

  lemma WakeSameWaits(u: State, s': State, x: Tid)
    requires Signalled(u, s') || s' == Broadcast(u)
    ensures Waits(s', x) <==> Waits(u, x)
  {
  }

  lemma GiveUpDisciplined(s: State, t: Tid, s': State)
    requires Disciplined(s) && (Commit(s, t, s') || Release(s, t, s'))
    ensures Disciplined(s')
  {
    forall x | x in s'.shares ensures !Waits(s', x) {
      assert x in s.shares;
      if s' != s.(owner := None) && s' != s.(sharing := s'.sharing, shares := s'.shares) {
        WakeSameWaits(s.(owner := None, sharing := s'.sharing, shares := s'.shares), s', x);
      }
    }
  }

  lemma RetryModifyDisciplined(s: State, t: Tid, s': State)
    requires Inv(s) && Disciplined(s) && RetryModify(s, t, s')
    ensures Disciplined(s')
  {
    forall x | x in s'.shares ensures !Waits(s', x) {
      RetryModifyWaits(s, t, s', x);
    }
  }

  lemma RetryModifyWaits(s: State, t: Tid, s': State, x: Tid)
    requires RetryModify(s, t, s')
    ensures s'.shares == s.shares && Waits(s, t)
    ensures Waits(s', x) ==> x == t || Waits(s, x)
  {
  }

  lemma RetryAccessDisciplined(s: State, t: Tid, s': State)
    requires Inv(s) && Disciplined(s) && RetryAccess(s, t, s')
    ensures Disciplined(s')
  {
  }

  /** Some step can be taken while the lock is held by a writer, a thread is awake, or a reader does not wait. */
  lemma DrainContinues(run: seq<State>, k: nat) returns (s': State)
    requires Run(run) && k < |run|
    requires run[k].owner.Some? || run[k].wAwake + run[k].rAwake != {} || !Knotted(run[k])
    ensures Finish(run[k], s')
  {
    RunKeeps(run, k);
    var s := run[k];
    if s.owner.Some? {
      s' := SomeCommit(s);
    } else if s.rAwake != {} {
      var t :| t in s.rAwake;
      s' := TryAccess(s.(waiting := s.waiting - 1, rAwake := s.rAwake - {t}), t);
      assert RetryAccess(s, t, s');
    } else if s.wAwake != {} {
      var t :| t in s.wAwake;
      s' := TryModify(s.(pending := s.pending - 1, wAwake := s.wAwake - {t}), t);
      assert RetryModify(s, t, s');
    } else {
      var t :| t in s.shares && !Waits(s, t);
      s' := SomeRelease(s, t);
    }
  }

  lemma SomeSignal(u: State) returns (s': State)
    ensures Signalled(u, s')
  {
    s' := u;
    if u.wBlocked != {} {
      var t :| t in u.wBlocked;
      s' := u.(wBlocked := u.wBlocked - {t}, wAwake := u.wAwake + {t});
    }
  }

  lemma SomeCommit(s: State) returns (s': State)
    requires s.owner.Some?
    ensures Commit(s, s.owner.value, s') && Finish(s, s')
  {
    var u := s.(owner := None);
    if s.pending > 0 { s' := SomeSignal(u); } else if s.waiting > 0 { s' := Broadcast(u); } else { s' := u; }
    assert Commit(s, s.owner.value, s');
  }

  lemma SomeRelease(s: State, t: Tid) returns (s': State)
    requires s.owner.None? && t in s.shares && !Waits(s, t) && s.sharing > 0
    ensures Release(s, t, s') && Finish(s, s')
  {
    var u := s.(sharing := s.sharing - 1, shares := s.shares - multiset{t});
    if u.pending > 0 && u.sharing == 0 { s' := SomeSignal(u); }
    else if u.waiting > 0 && u.pending == 0 { s' := Broadcast(u); }
    else { s' := u; }
    assert Release(s, t, s');
  }

  /** Every thread with a share waits itself. */
  ghost predicate Knotted(s: State) { forall t | t in s.shares :: Waits(s, t) }

  ghost predicate Stuck(s: State) { forall s': State :: !Finish(s, s') }

  /** Nothing can be finished exactly when nobody owns the lock, nobody is awake and every reader waits itself;
      and then the readers are what the others wait for. */
  lemma StuckExactly(run: seq<State>, k: nat)
    requires Run(run) && k < |run|
    ensures Stuck(run[k]) <==> run[k].owner.None? && run[k].wAwake == run[k].rAwake == {} && Knotted(run[k])
    ensures Stuck(run[k]) ==> (Waiters(run[k]) > 0 <==> run[k].shares != multiset{})
  {
    RunKeeps(run, k);
    var s := run[k];
    if s.owner.Some? || s.wAwake + s.rAwake != {} || !Knotted(s) {
      var s' := DrainContinues(run, k);
    } else {
      if s.shares != multiset{} {
        var t :| t in s.shares;
        assert Waits(s, t);
      }
    }
  }

  // ---------------------------------------------------------------- exactly when everyone gets through

  /** No writer waits, or no reader does. */
  ghost predicate Clear(s: State) { s.pending == 0 || Disciplined(s) }

  /** Finishing steps neither tie nor untie the knot of a reader that waits behind, or as, a writer. */
  lemma FinishKeepsClear(s: State, s': State)
    requires Inv(s) && Finish(s, s')
    ensures Clear(s) <==> Clear(s')
  {
    NextKeeps(s, s');
    if Disciplined(s) {
      FinishKeepsDiscipline(s, s');
    } else {
      var x :| x in s.shares && Waits(s, x);
      var t :| RetryModify(s, t, s') || Commit(s, t, s') || RetryAccess(s, t, s') || Release(s, t, s');
      if s.pending == 0 { NoWriterStays(s, t, s'); } else { KnotStays(s, t, s', x); }
    }
  }

  lemma NoWriterStays(s: State, t: Tid, s': State)
    requires Inv(s) && s.pending == 0 && s.shares != multiset{}
    requires RetryModify(s, t, s') || Commit(s, t, s') || RetryAccess(s, t, s') || Release(s, t, s')
    ensures s'.pending == 0
  {
  }

  lemma KnotStays(s: State, t: Tid, s': State, x: Tid)
    requires Inv(s) && s.pending > 0 && x in s.shares && Waits(s, x)
    requires RetryModify(s, t, s') || Commit(s, t, s') || RetryAccess(s, t, s') || Release(s, t, s')
    ensures s'.pending > 0 && x in s'.shares && Waits(s', x)
  {
    if Release(s, t, s') { ReleaseKnot(s, t, s', x); }
  }

  lemma ReleaseKnot(s: State, t: Tid, s': State, x: Tid)
    requires Inv(s) && s.pending > 0 && x in s.shares && Waits(s, x) && Release(s, t, s')
    ensures s'.pending > 0 && x in s'.shares && Waits(s', x)
  {
    var u := s.(sharing := s.sharing - 1, shares := s.shares - multiset{t});
    if s' != u { WakeSameWaits(u, s', x); }
  }

  /** Once calls stop arriving, a run that goes on until it can do no more has served every waiter exactly if,
      when they stopped, no writer was waiting or no thread waited while it held a share itself. */
  lemma {:induction false} EveryoneServed(run: seq<State>, k: nat)
    requires Run(run) && k < |run|
    requires forall i | k <= i < |run| - 1 :: Finish(run[i], run[i + 1])
    requires Stuck(run[|run| - 1])
    ensures Waiters(run[|run| - 1]) == 0 <==> run[k].pending == 0 || Disciplined(run[k])
    decreases |run| - k
  {
    RunKeeps(run, k);
    if k < |run| - 1 {
      FinishKeepsClear(run[k], run[k + 1]);
      EveryoneServed(run, k + 1);
    } else {
      StuckExactly(run, k);
      StuckServed(run[k]);
    }
  }

  lemma StuckServed(s: State)
    requires Inv(s) && s.owner.None? && s.wAwake == s.rAwake == {} && Knotted(s)
    requires Waiters(s) > 0 <==> s.shares != multiset{}
    ensures Waiters(s) == 0 <==> Clear(s)
  {
    if Waiters(s) > 0 {
      var t :| t in s.shares;
      assert Waits(s, t) && t in s.wBlocked + s.rBlocked;
    }
  }

  /** The smallest run that is not served: a thread asks for the write lock while it reads. */
  lemma WaitsForItself() returns (run: seq<State>)
    ensures Run(run) && |run| == 3 && Stuck(run[2]) && Waiters(run[2]) == 1
  {
    var s0 := State(None, 0, 0, 0, {}, {}, {}, {}, multiset{});
    var s1 := s0.(sharing := 1, shares := multiset{1});
    var s2 := s1.(pending := 1, wBlocked := {1});
    assert s0.shares + multiset{1} == s1.shares && s1.wBlocked + {1} == s2.wBlocked;
    assert Access(s0, 1, s1) && Modify(s1, 1, s2);
    run := [s0, s1, s2];
    StuckExactly(run, 2);
  }
}
