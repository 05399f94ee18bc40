/** The recursive reader/writer lock `RWLock` of corelib/thread.cpp as a step system.

    One step is one critical section of `modify`, `access` or `release`.  Every wait may end
    spuriously; a wait with a finite timeout may also expire. */
module RWLock {

  import opened Waiting

  datatype Kind = Reader | Writer

  /** The lock's fields, the two wait queues with the threads whose wait has a finite timeout, and
      the acquisitions not yet released, thread by thread. */
  datatype State = State(
    writers: nat, writeid: Tid, sharing: nat, pending: nat, waiting: nat,
    w: Queue, r: Queue, timed: set<Tid>, wHolds: multiset<Tid>, rHolds: multiset<Tid>)

  ghost predicate Init(s: State) {
    s == State(0, s.writeid, 0, 0, 0, IDLE, IDLE, {}, multiset{}, multiset{})
  }

  /** Calls carry the kind of timeout: `timed` for a finite one, otherwise infinite.  A zero timeout
      never waits: where another call would wait, such a call returns false and leaves no trace (`Refused`). */
  datatype Event =
    | Modify(t: Tid, timed: bool) | RetryModify(t: Tid) | QuitModify(t: Tid)
    | Access(t: Tid, timed: bool) | RetryAccess(t: Tid) | QuitAccess(t: Tid)
    | Release(t: Tid, held: Kind) | Spurious(t: Tid) | Expire(t: Tid) | Refused(t: Tid, asked: Kind)

  predicate Waits(s: State, t: Tid) { t in s.w.All() || t in s.r.All() }

  predicate MayWrite(s: State, t: Tid) {
    (s.writers == 0 && s.sharing == 0) || (s.writers > 0 && s.writeid == t)
  }

  predicate MayRead(s: State) { s.writers == 0 && s.pending == 0 }

  function TryModify(s: State, t: Tid): State {
    if MayWrite(s, t) then
      s.(writeid := if s.writers == 0 then t else s.writeid, writers := s.writers + 1,
         wHolds := s.wHolds + multiset{t}, timed := s.timed - {t})
    else s.(pending := s.pending + 1, w := s.w.Block(t))
  }

  function TryAccess(s: State, t: Tid): State {
    if MayRead(s) then s.(sharing := s.sharing + 1, rHolds := s.rHolds + multiset{t}, timed := s.timed - {t})
    else s.(waiting := s.waiting + 1, r := s.r.Block(t))
  }

  function Timed(s: State, t: Tid, timed: bool): State { if timed then s.(timed := s.timed + {t}) else s }

  function LeaveW(s: State, t: Tid): State
    requires s.pending > 0
  {
    s.(pending := s.pending - 1, w := s.w.Leave(t))
  }

  function LeaveR(s: State, t: Tid): State
    requires s.waiting > 0
  {
    s.(waiting := s.waiting - 1, r := s.r.Leave(t))
  }

  ghost predicate Signal(s: State, s': State) { s.w.Signalled(s'.w) && s' == s.(w := s'.w) }

  function Broadcast(s: State): State { s.(r := s.r.WakeAll()) }

  /** `release`: the code looks only at `writers` and `sharing`, not at what the caller holds. */
  ghost predicate ReleaseBody(s: State, s': State) {
    if s.writers > 0 then
      var u := s.(writers := s.writers - 1);
      if u.pending > 0 && u.writers == 0 then Signal(u, s')
      else if u.waiting > 0 && u.writers == 0 then s' == Broadcast(u)
      else s' == u
    else
      s.sharing > 0 &&
      var u := s.(sharing := s.sharing - 1);
      if u.pending > 0 && u.sharing == 0 then Signal(u, s')
      else if u.waiting > 0 && u.pending == 0 then s' == Broadcast(u)
      else s' == u
  }

  /** The caller gives up one acquisition of the kind it holds. */
  function Forget(s: State, t: Tid, held: Kind): State {
    match held
    case Writer => s.(wHolds := s.wHolds - multiset{t})
    case Reader => s.(rHolds := s.rHolds - multiset{t})
  }

  ghost predicate Step(s: State, e: Event, s': State) {
    match e
    case Modify(t, timed) => !Waits(s, t) && s' == TryModify(Timed(s, t, timed), t)
    case RetryModify(t) => t in s.w.awake && s.pending > 0 && s' == TryModify(LeaveW(s, t), t)
    case QuitModify(t) => t in s.w.expired && s.pending > 0 && s' == LeaveW(s, t).(timed := s.timed - {t})
    case Access(t, timed) => !Waits(s, t) && s' == TryAccess(Timed(s, t, timed), t)
    case RetryAccess(t) => t in s.r.awake && s.waiting > 0 && s' == TryAccess(LeaveR(s, t), t)
    case QuitAccess(t) => t in s.r.expired && s.waiting > 0 && s' == LeaveR(s, t).(timed := s.timed - {t})
    case Release(t, held) =>
      && !Waits(s, t) && (if held.Writer? then t in s.wHolds else t in s.rHolds)
      && ReleaseBody(Forget(s, t, held), s')
    case Spurious(t) =>
      || (t in s.w.blocked && s' == s.(w := s.w.Wake(t)))
      || (t in s.r.blocked && s' == s.(r := s.r.Wake(t)))
    case Expire(t) =>
      && t in s.timed
      && (|| (t in s.w.blocked && s' == s.(w := s.w.Expire(t)))
          || (t in s.r.blocked && s' == s.(r := s.r.Expire(t))))
    case Refused(t, asked) => !Waits(s, t) && !(if asked.Writer? then MayWrite(s, t) else MayRead(s)) && s' == s
  }

  /** `finite` tells whether writers may wait with finite timeouts; readers always may. */
  predicate Allowed(finite: bool, e: Event) { e.Modify? && e.timed ==> finite }

  ghost predicate Next(finite: bool, s: State, s': State) {
    exists e :: Allowed(finite, e) && Step(s, e, s')
  }

  ghost predicate Run(finite: bool, run: seq<State>) {
    && run != [] && Init(run[0])
    && forall i | 0 <= i < |run| - 1 :: Next(finite, run[i], run[i + 1])
  }

  // ---------------------------------------------------------------- what every step keeps

  ghost predicate Queued(s: State) {
    && s.w.Valid() && s.r.Valid() && s.w.All() !! s.r.All()
    && s.timed <= s.w.All() + s.r.All()
    && s.pending == s.w.Size()
    && s.waiting == s.r.Size()
  }

  /** `writers` is the recursion depth of the one owner, `sharing` the number of reads outstanding,
      and never both. */
  ghost predicate Held(s: State) {
    && s.writers == |s.wHolds| && (forall t | t in s.wHolds :: t == s.writeid)
    && s.sharing == |s.rHolds|
    && (s.writers == 0 || s.sharing == 0)
  }

  ghost predicate Safe(s: State) { Queued(s) && Held(s) }

  /** Safe but for `t`, which is about to wait with a finite timeout. */
  ghost predicate SafeBut(s: State, t: Tid) { Safe(s.(timed := s.timed - {t})) && !Waits(s, t) }

  lemma TryModifySafe(s: State, t: Tid)
    requires SafeBut(s, t)
    ensures Safe(TryModify(s, t))
  {
    if MayWrite(s, t) && s.writers > 0 {
      assert s.wHolds + multiset{t} == s.wHolds[t := s.wHolds[t] + 1];
    }
  }

  lemma TryAccessSafe(s: State, t: Tid)
    requires SafeBut(s, t)
    ensures Safe(TryAccess(s, t))
  {
  }

  lemma LeaveSafe(s: State, t: Tid)
    requires Safe(s)
    ensures t in s.w.All() && s.pending > 0 ==> SafeBut(LeaveW(s, t), t)
    ensures t in s.r.All() && s.waiting > 0 ==> SafeBut(LeaveR(s, t), t)
  {
    if t in s.w.All() { QueueLeave(s.w, t); }
    if t in s.r.All() { QueueLeave(s.r, t); }
  }

  lemma WakeSafe(s: State, s': State)
    requires Safe(s) && (Signal(s, s') || s' == Broadcast(s))
    ensures Safe(s')
  {
    QueueWoken(if Signal(s, s') then s.w else s.r, if Signal(s, s') then s'.w else s'.r);
  }

  lemma ReleaseSafe(s: State, t: Tid, held: Kind, s': State)
    requires Safe(s) && Step(s, Release(t, held), s')
    ensures Safe(s')
    ensures held.Writer? ==> s.writeid == t && s'.writers == s.writers - 1 && s'.sharing == s.sharing
    ensures held.Reader? ==> s'.sharing == s.sharing - 1 && s'.writers == s.writers
  {
    var f := Forget(s, t, held);
    var u := if held.Writer? then f.(writers := f.writers - 1) else f.(sharing := f.sharing - 1);
    ReleasedSafe(s, t, held, u);
    assert s' == u || Signal(u, s') || s' == Broadcast(u);
    if s' != u { WakeSafe(u, s'); }
  }

  lemma ReleasedSafe(s: State, t: Tid, held: Kind, u: State)
    requires Safe(s) && if held.Writer? then t in s.wHolds else t in s.rHolds
    requires held.Writer? ==> u == s.(writers := u.writers, wHolds := s.wHolds - multiset{t})
    requires held.Reader? ==> u == s.(sharing := u.sharing, rHolds := s.rHolds - multiset{t})
    requires if held.Writer? then u.writers == s.writers - 1 else u.sharing == s.sharing - 1
    ensures Safe(u) && (held.Writer? ==> s.writers > 0 && s.writeid == t) && (held.Reader? ==> s.writers == 0)
  {
  }

  lemma CallSafe(s: State, t: Tid, timed: bool)
    requires Safe(s) && !Waits(s, t)
    ensures SafeBut(Timed(s, t, timed), t)
  {
    assert s.timed - {t} == s.timed;
    assert Timed(s, t, timed).timed - {t} == s.timed;
  }

  lemma MoveSafe(s: State, e: Event, s': State)
    requires Safe(s) && (e.Spurious? || e.Expire?) && Step(s, e, s')
    ensures Safe(s')
  {
    if e.t in s.w.blocked { QueueMove(s.w, e.t); } else { QueueMove(s.r, e.t); }
  }

  lemma StepSafe(s: State, e: Event, s': State)
    requires Safe(s) && Step(s, e, s')
    ensures Safe(s')
  {
    match e
    case Modify(t, timed) => CallSafe(s, t, timed); TryModifySafe(Timed(s, t, timed), t);
    case RetryModify(t) => LeaveSafe(s, t); TryModifySafe(LeaveW(s, t), t);
    case QuitModify(t) => LeaveSafe(s, t); assert s' == LeaveW(s, t).(timed := LeaveW(s, t).timed - {t});
    case Access(t, timed) => CallSafe(s, t, timed); TryAccessSafe(Timed(s, t, timed), t);
    case RetryAccess(t) => LeaveSafe(s, t); TryAccessSafe(LeaveR(s, t), t);
    case QuitAccess(t) => LeaveSafe(s, t); assert s' == LeaveR(s, t).(timed := LeaveR(s, t).timed - {t});
    case Release(t, held) => ReleaseSafe(s, t, held, s');
    case Spurious(t) => MoveSafe(s, e, s');
    case Expire(t) => MoveSafe(s, e, s');
    case Refused(t, asked) =>
  }

  lemma {:induction false} RunSafe(finite: bool, run: seq<State>, k: nat)
    requires Run(finite, run) && k < |run|
    ensures Safe(run[k])
  {
    if k > 0 {
      RunSafe(finite, run, k - 1);
      var e :| Step(run[k - 1], e, run[k]);
      StepSafe(run[k - 1], e, run[k]);
    }
  }

  // ---------------------------------------------------------------- exclusion, with any timeouts

  /** In every run, whatever the timeouts: never a reader and a writer together, all outstanding
      writes belong to `writeid`, and the two counters are what is really held. */
  lemma Exclusion(finite: bool, run: seq<State>, k: nat, t: Tid, u: Tid)
    requires Run(finite, run) && k < |run| && t in run[k].wHolds
    ensures run[k].rHolds == multiset{} && run[k].writeid == t
    ensures run[k].writers == run[k].wHolds[t] && run[k].sharing == 0
    ensures u in run[k].wHolds ==> u == t
  {
    RunSafe(finite, run, k);
    OneHolder(run[k].wHolds, t);
  }

  lemma OneHolder(m: multiset<Tid>, t: Tid)
    requires forall u | u in m :: u == t
    ensures |m| == m[t]
  {
    assert m == m[t := 0] + multiset{}[t := m[t]];
    assert m[t := 0] == multiset{};
  }

  /** A release by a holder undoes that holder's own kind of acquisition and no other. */
  lemma ReleaseMatches(finite: bool, run: seq<State>, k: nat, t: Tid, held: Kind, s': State)
    requires Run(finite, run) && k < |run| && Step(run[k], Release(t, held), s')
    ensures s'.wHolds == (if held.Writer? then run[k].wHolds - multiset{t} else run[k].wHolds)
    ensures s'.rHolds == (if held.Reader? then run[k].rHolds - multiset{t} else run[k].rHolds)
    ensures s'.writers == |s'.wHolds| && s'.sharing == |s'.rHolds|
  {
    RunSafe(finite, run, k);
    ReleaseSafe(run[k], t, held, s');
  }

  // ---------------------------------------------------------------- nothing else holds a thread up

  /** What the threads may do next: a thread that does not wait may call, one that holds the lock may release it,
      one that is awake tries again, and one whose wait has expired gives up. */
  ghost predicate Due(s: State, e: Event) {
    var waits := e.t in s.w.blocked + s.w.awake + s.w.expired + s.r.blocked + s.r.awake + s.r.expired;
    match e
    case Modify(t, timed) => !waits
    case RetryModify(t) => t in s.w.awake
    case QuitModify(t) => t in s.w.expired
    case Access(t, timed) => !waits
    case RetryAccess(t) => t in s.r.awake
    case QuitAccess(t) => t in s.r.expired
    case Release(t, held) => !waits && if held.Writer? then t in s.wHolds else t in s.rHolds
    case Spurious(t) => t in s.w.blocked + s.r.blocked
    case Expire(t) => t in s.timed && t in s.w.blocked + s.r.blocked
    case Refused(t, asked) => !waits && if asked.Writer? then WriteBarred(s, t) else ReadBarred(s)
  }

  /** In every run a step is possible exactly when it is due. */
  lemma StepsExactly(finite: bool, run: seq<State>, k: nat, e: Event)
    requires Run(finite, run) && k < |run|
    ensures (exists s' :: Step(run[k], e, s')) <==> Due(run[k], e)
  {
    RunSafe(finite, run, k);
    var s := run[k];
    BarredExactly(s, e.t);
    if Due(s, e) { var s' := SomeStep(s, e); }
  }

  lemma SomeStep(s: State, e: Event) returns (s': State)
    requires Safe(s) && Due(s, e) && (e.Refused? ==> Step(s, e, s))
    ensures Step(s, e, s')
  {
    match e
    case Modify(t, timed) => s' := TryModify(Timed(s, t, timed), t);
    case RetryModify(t) => s' := TryModify(LeaveW(s, t), t);
    case QuitModify(t) => s' := LeaveW(s, t).(timed := s.timed - {t});
    case Access(t, timed) => s' := TryAccess(Timed(s, t, timed), t);
    case RetryAccess(t) => s' := TryAccess(LeaveR(s, t), t);
    case QuitAccess(t) => s' := LeaveR(s, t).(timed := s.timed - {t});
    case Release(t, held) => s' := SomeRelease(Forget(s, t, held));
    case Spurious(t) => s' := if t in s.w.blocked then s.(w := s.w.Wake(t)) else s.(r := s.r.Wake(t));
    case Expire(t) => s' := if t in s.w.blocked then s.(w := s.w.Expire(t)) else s.(r := s.r.Expire(t));
    case Refused(t, asked) => s' := s;
  }

  lemma SomeRelease(s: State) returns (s': State)
    requires s.writers > 0 || s.sharing > 0
    ensures ReleaseBody(s, s')
  {
    var u := if s.writers > 0 then s.(writers := s.writers - 1) else s.(sharing := s.sharing - 1);
    if u.pending > 0 && u.writers == 0 && (s.writers > 0 || u.sharing == 0) {
      s' := u;
      if u.w.blocked != {} {
        var t :| t in u.w.blocked;
        s' := u.(w := u.w.Wake(t));
      }
    } else if u.waiting > 0 && if s.writers > 0 then u.writers == 0 else u.pending == 0 {
      s' := Broadcast(u);
    } else {
      s' := u;
    }
  }

  // ---------------------------------------------------------------- who has to wait

  /** What a writer waits for: another thread's write, or any thread's read, its own included. */
  ghost predicate WriteBarred(s: State, t: Tid) { s.rHolds != multiset{} || exists u | u in s.wHolds :: u != t }

  /** What a reader waits for: any thread's write, its own included, or a writer already waiting. */
  ghost predicate ReadBarred(s: State) { s.wHolds != multiset{} || s.w.All() != {} }

  lemma BarredExactly(s: State, t: Tid)
    requires Safe(s)
    ensures MayWrite(s, t) <==> !WriteBarred(s, t)
    ensures MayRead(s) <==> !ReadBarred(s)
  {
    QueueEmpty(s.w);
    if s.writers > 0 {
      var u :| u in s.wHolds;
    }
  }

  /** A call of `modify` waits exactly when it is barred; otherwise it enters, again if the thread holds the
      lock already. A call with a zero timeout is refused in the same cases. */
  lemma ModifyWaitsExactly(finite: bool, run: seq<State>, k: nat, t: Tid, timed: bool, s': State)
    requires Run(finite, run) && k < |run| && Step(run[k], Modify(t, timed), s')
    ensures var s := run[k];
      && s'.rHolds == s.rHolds && s'.r == s.r
      && s'.timed == (if timed && WriteBarred(s, t) then s.timed + {t} else s.timed)
      && if WriteBarred(s, t) then s'.wHolds == s.wHolds && s'.w == s.w.Block(t) && s'.pending == s.pending + 1
         else s'.wHolds == s.wHolds + multiset{t} && s'.w == s.w && s'.pending == s.pending
    ensures Step(run[k], Refused(t, Writer), run[k]) <==> WriteBarred(run[k], t)
  {
    RunSafe(finite, run, k);
    BarredExactly(run[k], t);
  }

  /** So the thread that holds the write lock enters again at once, one level deeper. */
  lemma OwnerReenters(finite: bool, run: seq<State>, k: nat, t: Tid, timed: bool, s': State)
    requires Run(finite, run) && k < |run| && Step(run[k], Modify(t, timed), s') && t in run[k].wHolds
    ensures s'.wHolds == run[k].wHolds + multiset{t} && s'.writers == run[k].writers + 1
    ensures s'.w == run[k].w && s'.r == run[k].r && s'.pending == run[k].pending
  {
    Exclusion(finite, run, k, t, t);
    ModifyWaitsExactly(finite, run, k, t, timed, s');
  }

  /** An awake writer that retries enters or goes back to wait by the same rule. */
  lemma RetryModifyExactly(finite: bool, run: seq<State>, k: nat, t: Tid, s': State)
    requires Run(finite, run) && k < |run| && Step(run[k], RetryModify(t), s')
    ensures var s := run[k];
      && s'.rHolds == s.rHolds && s'.r == s.r
      && if WriteBarred(s, t) then s'.wHolds == s.wHolds && s'.w == s.w.Leave(t).Block(t)
         else s'.wHolds == s.wHolds + multiset{t} && s'.w == s.w.Leave(t)
  {
    RunSafe(finite, run, k);
    BarredExactly(run[k], t);
  }

  lemma AccessWaitsExactly(finite: bool, run: seq<State>, k: nat, t: Tid, timed: bool, s': State)
    requires Run(finite, run) && k < |run| && Step(run[k], Access(t, timed), s')
    ensures var s := run[k];
      && s'.wHolds == s.wHolds && s'.w == s.w
      && s'.timed == (if timed && ReadBarred(s) then s.timed + {t} else s.timed)
      && if ReadBarred(s) then s'.rHolds == s.rHolds && s'.r == s.r.Block(t) && s'.waiting == s.waiting + 1
         else s'.rHolds == s.rHolds + multiset{t} && s'.r == s.r && s'.waiting == s.waiting
    ensures Step(run[k], Refused(t, Reader), run[k]) <==> ReadBarred(run[k])
  {
    RunSafe(finite, run, k);
    BarredExactly(run[k], t);
  }

  lemma RetryAccessExactly(finite: bool, run: seq<State>, k: nat, t: Tid, s': State)
    requires Run(finite, run) && k < |run| && Step(run[k], RetryAccess(t), s')
    ensures var s := run[k];
      && s'.wHolds == s.wHolds && s'.w == s.w
      && if ReadBarred(s) then s'.rHolds == s.rHolds && s'.r == s.r.Leave(t).Block(t)
         else s'.rHolds == s.rHolds + multiset{t} && s'.r == s.r.Leave(t)
  {
    RunSafe(finite, run, k);
    BarredExactly(run[k], t);
  }

  /** A thread whose wait has expired leaves without the lock, even if it could have it now. */
  lemma QuitExactly(finite: bool, run: seq<State>, k: nat, t: Tid, s': State)
    requires Run(finite, run) && k < |run| && (Step(run[k], QuitModify(t), s') || Step(run[k], QuitAccess(t), s'))
    ensures s'.wHolds == run[k].wHolds && s'.rHolds == run[k].rHolds
    ensures s'.w.All() + s'.r.All() == run[k].w.All() + run[k].r.All() - {t} && t !in s'.timed
  {
    RunSafe(finite, run, k);
    Gone(run[k].w, run[k].r, t);
  }

  lemma Gone(w: Queue, r: Queue, t: Tid)
    requires w.Valid() && r.Valid() && w.All() !! r.All()
    ensures t in w.All() ==> w.Leave(t).All() + r.All() == w.All() + r.All() - {t}
    ensures t in r.All() ==> w.All() + r.Leave(t).All() == w.All() + r.All() - {t}
  {
    if t in w.All() {
      QueueLeave(w, t);
      Without(w.All(), r.All(), t);
    }
    if t in r.All() {
      QueueLeave(r, t);
      Without(r.All(), w.All(), t);
    }
  }

  lemma Without(a: set<Tid>, b: set<Tid>, t: Tid)
    requires t !in b
    ensures (a - {t}) + b == a + b - {t} && b + (a - {t}) == b + a - {t}
  {
  }

  /** While a writer waits no reader gets in, whatever is called: the reads then held are the only ones that
      have to end before it. */
  lemma NoOvertaking(finite: bool, run: seq<State>, j: nat, k: nat)
    requires Run(finite, run) && j <= k < |run|
    requires forall i | j <= i < k :: run[i].w.All() != {}
    ensures run[k].rHolds <= run[j].rHolds
  {
    forall i | j <= i < k ensures Shrinks(run, i) { NextKeepsOut(finite, run, i); }
    ShrinksOn(run, j, k);
  }

  ghost predicate Shrinks(run: seq<State>, i: int)
    requires 0 <= i < |run| - 1
  {
    run[i + 1].rHolds <= run[i].rHolds
  }

  lemma {:induction false} ShrinksOn(run: seq<State>, j: nat, k: nat)
    requires j <= k < |run| && forall i | j <= i < k :: Shrinks(run, i)
    ensures run[k].rHolds <= run[j].rHolds
  {
    if j < k {
      ShrinksOn(run, j, k - 1);
      assert Shrinks(run, k - 1);
    }
  }

  lemma NextKeepsOut(finite: bool, run: seq<State>, k: nat)
    requires Run(finite, run) && k < |run| - 1 && run[k].w.All() != {}
    ensures Shrinks(run, k)
  {
    RunSafe(finite, run, k);
    NextTakesNone(finite, run[k], run[k + 1]);
  }

  lemma NextTakesNone(finite: bool, s: State, s': State)
    requires Safe(s) && s.w.All() != {} && Next(finite, s, s')
    ensures s'.rHolds <= s.rHolds
  {
    var e :| Allowed(finite, e) && Step(s, e, s');
    NoReaderEnters(s, e, s');
  }

  lemma NoReaderEnters(s: State, e: Event, s': State)
    requires Safe(s) && s.w.All() != {} && Step(s, e, s')
    ensures s'.rHolds <= s.rHolds
  {
    QueueEmpty(s.w);
    if e.Release? { ReleaseKeepsReads(s, e.t, e.held, s'); }
  }

  lemma ReleaseKeepsReads(s: State, t: Tid, held: Kind, s': State)
    requires Step(s, Release(t, held), s')
    ensures s'.rHolds == Forget(s, t, held).rHolds
  {
  }

  // ---------------------------------------------------------------- wakeups

  ghost predicate Woken(s: State) {
    && s.w.expired == {} && s.w.All() !! s.timed
    && (s.r.blocked != {} ==> s.pending > 0 || s.writers > 0)
    && (s.w.blocked != {} && s.writers == 0 && s.sharing == 0 ==> s.w.awake != {})
  }

  /** Without finite writer timeouts every step keeps waiting threads covered. */
  lemma StepWoken(s: State, e: Event, s': State)
    requires Safe(s) && Woken(s) && Step(s, e, s') && Allowed(false, e)
    ensures Woken(s')
  {
    match e
    case Modify(t, timed) => assert t !in s.timed; TryModifyWoken(s, t);
    case RetryModify(t) => RetryModifyWoken(s, t);
    case QuitModify(t) => QuitWoken(s, e, s');
    case Access(t, timed) => AccessWoken(s, t, timed);
    case RetryAccess(t) => RetryAccessWoken(s, t);
    case QuitAccess(t) => QuitWoken(s, e, s');
    case Release(t, held) => ReleaseWoken(s, t, held, s');
    case Spurious(t) => MoveWoken(s, e, s');
    case Expire(t) => MoveWoken(s, e, s');
    case Refused(t, asked) =>
  }

  lemma RetryModifyWoken(s: State, t: Tid)
    requires Safe(s) && Woken(s) && t in s.w.awake && s.pending > 0
    ensures Woken(TryModify(LeaveW(s, t), t))
  {
    QueueLeave(s.w, t);
    TryModifyWoken(LeaveW(s, t), t);
  }

  lemma AccessWoken(s: State, t: Tid, timed: bool)
    requires Safe(s) && Woken(s) && !Waits(s, t)
    ensures Woken(TryAccess(Timed(s, t, timed), t))
  {
    CallSafe(s, t, timed);
    TryAccessWoken(Timed(s, t, timed), t);
  }

  lemma RetryAccessWoken(s: State, t: Tid)
    requires Safe(s) && Woken(s) && t in s.r.awake && s.waiting > 0
    ensures Woken(TryAccess(LeaveR(s, t), t))
  {
    LeaveSafe(s, t);
    TryAccessWoken(LeaveR(s, t), t);
  }

  lemma TryModifyWoken(u: State, t: Tid)
    requires u.w.expired == {} && u.w.All() !! u.timed && t !in u.timed
    ensures Woken(TryModify(u, t))
  {
  }

  lemma TryAccessWoken(s: State, t: Tid)
    requires SafeBut(s, t) && Woken(s.(timed := s.timed - {t}))
    ensures Woken(TryAccess(s, t))
  {
    assert t !in s.w.All();
  }

  lemma QuitWoken(s: State, e: Event, s': State)
    requires Safe(s) && Woken(s) && (e.QuitModify? || e.QuitAccess?) && Step(s, e, s')
    ensures Woken(s')
  {
  }

  lemma MoveWoken(s: State, e: Event, s': State)
    requires Safe(s) && Woken(s) && (e.Spurious? || e.Expire?) && Step(s, e, s')
    ensures Woken(s')
  {
    if e.t in s.w.blocked { QueueMove(s.w, e.t); }
  }

  lemma ReleaseWoken(s: State, t: Tid, held: Kind, s': State)
    requires Safe(s) && Woken(s) && Step(s, Release(t, held), s')
    ensures Woken(s')
  {
    var f := Forget(s, t, held);
    var u := if held.Writer? then f.(writers := f.writers - 1) else f.(sharing := f.sharing - 1);
    assert ReleaseBody(f, s') && Safe(u);
    ReleasedWoken(s, u, held, s');
  }

  lemma ReleasedWoken(s: State, u: State, held: Kind, s': State)
    requires Safe(u) && Woken(s) && u.w == s.w && u.r == s.r && u.timed == s.timed && u.pending == s.pending
    requires if held.Writer? then s.writers > 0 && u.writers == s.writers - 1
      else s.writers == 0 && u.writers == 0 && u.sharing == s.sharing - 1
    requires var last := if held.Writer? then u.writers == 0 else u.sharing == 0;
      if u.pending > 0 && last then Signal(u, s')
      else if u.waiting > 0 && (if held.Writer? then last else u.pending == 0) then s' == Broadcast(u)
      else s' == u
    ensures Woken(s')
  {
    QueueEmpty(u.r);
    QueueEmpty(u.w);
    if Signal(u, s') { QueueWoken(u.w, s'.w); }
  }

  lemma {:induction false} RunWoken(run: seq<State>, k: nat)
    requires Run(false, run) && k < |run|
    ensures Safe(run[k]) && Woken(run[k])
  {
    RunSafe(false, run, k);
    if k > 0 {
      RunWoken(run, k - 1);
      var e :| Allowed(false, e) && Step(run[k - 1], e, run[k]);
      StepWoken(run[k - 1], e, run[k]);
    }
  }

  /** A release wakes one writer at most, and only if nobody holds the lock any longer; it wakes readers only
      when no writer waits. */
  lemma WakesFew(finite: bool, run: seq<State>, k: nat, t: Tid, held: Kind, s': State)
    requires Run(finite, run) && k < |run| && Step(run[k], Release(t, held), s')
    ensures s'.w == run[k].w || exists u | u in run[k].w.blocked :: s'.w == run[k].w.Wake(u)
    ensures s'.w != run[k].w ==> s'.wHolds == s'.rHolds == multiset{}
    ensures s'.r == run[k].r || (s'.r == run[k].r.WakeAll() && run[k].w.All() == {})
  {
    RunSafe(finite, run, k);
    StepSafe(run[k], Release(t, held), s');
    QueueEmpty(run[k].w);
  }

  /** Threads are blocked although nobody holds the lock and nobody is on the way to it. */
  ghost predicate Lost(s: State) {
    && s.wHolds == s.rHolds == multiset{}
    && s.w.blocked + s.r.blocked != {}
    && s.w.awake == s.w.expired == s.r.awake == s.r.expired == {}
  }

  /** With only infinite or zero writer timeouts: if nobody holds the lock and a thread is blocked,
      an awakened writer is on its way and its next step enters. */
  lemma NoLostWakeup(run: seq<State>, k: nat) returns (t: Tid, s': State)
    requires Run(false, run) && k < |run|
    requires run[k].wHolds == run[k].rHolds == multiset{} && run[k].w.blocked + run[k].r.blocked != {}
    ensures t in run[k].w.awake && Step(run[k], RetryModify(t), s') && t in s'.wHolds
  {
    RunWoken(run, k);
    var s := run[k];
    QueueEmpty(s.w);
    t :| t in s.w.awake;
    s' := TryModify(LeaveW(s, t), t);
  }

  // ---------------------------------------------------------------- finite writer timeouts lose wakeups

  /** Thread 1 reads, writer 2 waits with a timeout and reader 3 queues behind it; 2 expires, 1 releases
      (its signal finds no writer blocked), and 2 gives up without waking 3. */
  function LostRun(i: nat): State
    requires i <= 6
  {
    var s0 := State(0, 0, 0, 0, 0, IDLE, IDLE, {}, multiset{}, multiset{});
    var s1 := s0.(sharing := 1, rHolds := multiset{1});
    var s2 := s1.(pending := 1, w := Queue({2}, {}, {}), timed := {2});
    var s3 := s2.(waiting := 1, r := Queue({3}, {}, {}));
    var s4 := s3.(w := Queue({}, {}, {2}));
    var s5 := s4.(sharing := 0, rHolds := multiset{});
    var s6 := s5.(pending := 0, w := IDLE, timed := {});
    [s0, s1, s2, s3, s4, s5, s6][i]
  }

  lemma LostRunSteps(i: nat)
    requires i < 6
    ensures Next(true, LostRun(i), LostRun(i + 1))
  {
    if i < 3 { LostRunCalls(i); } else { LostRunEnds(i); }
  }

  lemma LostRunCalls(i: nat)
    requires i < 3
    ensures Next(true, LostRun(i), LostRun(i + 1))
  {
    var e := if i == 0 then Access(1, false) else if i == 1 then Modify(2, true) else Access(3, false);
    var s, s' := LostRun(i), LostRun(i + 1);
    if i == 0 { assert s'.rHolds == s.rHolds + multiset{1}; }
    assert Allowed(true, e) && Step(s, e, s');
  }

  lemma LostRunEnds(i: nat)
    requires 3 <= i < 6
    ensures Next(true, LostRun(i), LostRun(i + 1))
  {
    var e := if i == 3 then Expire(2) else if i == 4 then Release(1, Reader) else QuitModify(2);
    assert Allowed(true, e) && Step(LostRun(i), e, LostRun(i + 1));
  }

  lemma FiniteWritersLose() returns (run: seq<State>)
    ensures Run(true, run) && |run| == 7 && Lost(run[6])
  {
    run := seq(7, i requires 0 <= i < 7 => LostRun(i));
    forall i | 0 <= i < |run| - 1 ensures Next(true, run[i], run[i + 1]) {
      LostRunSteps(i);
    }
  }

  ghost predicate NeverLost(finite: bool) {
    forall run, k | Run(finite, run) && 0 <= k < |run| :: !Lost(run[k])
  }

  /** No run loses a wakeup exactly when writers never wait with a finite timeout. */
  lemma NeverLostExactly(finite: bool)
    ensures NeverLost(finite) <==> !finite
  {
    if finite {
      var run := FiniteWritersLose();
    } else {
      forall run, k | Run(finite, run) && 0 <= k < |run| ensures !Lost(run[k]) {
        if Lost(run[k]) {
          var t, s' := NoLostWakeup(run, k);
          assert false;
        }
      }
    }
  }
}
