/** The upgradeable lock `ConditionalLock` of corelib/condition.cpp, used through
    `SharedProtocol::Locking` of corelib/access.cpp: access, release, exclusive and share.

    Each thread's nesting count lives in a context slot (module Slots). */
module ConditionalLock {
  import opened Slots
  import opened Options
  import opened Waiting

  /** A context slot counts the shares of one thread. */
  type Context = Slot<Tid>

  /** The counts of all slots whose thread is not in `out`. */
  function Total(ctx: seq<Context>, out: set<Tid>): nat {
    if ctx == [] then 0
    else Total(ctx[..|ctx| - 1], out) + Part(ctx[|ctx| - 1], out)
  }

  function Part(c: Context, out: set<Tid>): nat { if c.key in out then 0 else c.count }

  /** Changing one slot's part changes the total by as much. */
  lemma {:induction false} TotalChange(a: seq<Context>, x: set<Tid>, b: seq<Context>, y: set<Tid>, i: nat)
    requires i < |a| == |b|
    requires forall j | 0 <= j < |a| && j != i :: Part(a[j], x) == Part(b[j], y)
    ensures Total(b, y) + Part(a[i], x) == Total(a, x) + Part(b[i], y)
    decreases |a|
  {
    var n := |a| - 1;
    if i < n {
      TotalChange(a[..n], x, b[..n], y, i);
    } else {
      TotalSame(a[..n], x, b[..n], y);
    }
  }

  lemma {:induction false} TotalSame(a: seq<Context>, x: set<Tid>, b: seq<Context>, y: set<Tid>)
    requires |a| == |b|
    requires forall j | 0 <= j < |a| :: Part(a[j], x) == Part(b[j], y)
    ensures Total(b, y) == Total(a, x)
    decreases |a|
  {
    if a != [] {
      TotalSame(a[..|a| - 1], x, b[..|b| - 1], y);
    }
  }

  lemma {:induction false} TotalAtLeast(ctx: seq<Context>, out: set<Tid>, i: nat)
    requires i < |ctx|
    ensures Part(ctx[i], out) <= Total(ctx, out)
    decreases |ctx|
  {
    if i < |ctx| - 1 { TotalAtLeast(ctx[..|ctx| - 1], out, i); }
  }

  // ---------------------------------------------------------------- the step system

  /** What a thread inside an operation is doing: waiting in `access` with its slot `at`, waiting in
      `exclusive`, or returned from `exclusive` and holding the mutex until `share`. */
  datatype Mode = Entering(awake: bool, at: nat) | Upgrading(awake: bool) | Owning

  type Modes = map<Tid, Mode>

  datatype State = State(
    contexts: seq<Context>, pending: nat, waiting: nat, sharing: nat, owner: Option<Tid>, modes: Modes)

  ghost predicate Init(s: State) { s == State([], 0, 0, 0, None, map[]) }

  /** A thread with no mode is running outside the lock's operations, in shared mode if it has a count. */
  predicate MayCall(s: State, t: Tid) { s.owner.None? && t !in s.modes }

  predicate Holds(s: State, t: Tid) { Active(s.contexts, t, |s.contexts|).Some? }

  function SlotOf(s: State, t: Tid): nat
    requires Holds(s, t)
  {
    Active(s.contexts, t, |s.contexts|).value
  }

  function Count(s: State, t: Tid): nat
    requires Holds(s, t)
  {
    s.contexts[SlotOf(s, t)].count
  }

  predicate In(m: Modes, t: Tid, x: Mode) { t in m && m[t] == x }

  ghost predicate EnteringBlocked(m: Modes) { exists t :: t in m && m[t].Entering? && !m[t].awake }
  ghost predicate UpgradingBlocked(m: Modes) { exists t :: In(m, t, Upgrading(false)) }
  ghost predicate UpgradingAwake(m: Modes) { exists t :: In(m, t, Upgrading(true)) }

  /** A signal wakes one thread blocked in `exclusive`, if there is one. */
  ghost predicate Signal(s: State, s': State) {
    if UpgradingBlocked(s.modes)
    then exists t :: In(s.modes, t, Upgrading(false)) && s' == s.(modes := s.modes[t := Upgrading(true)])
    else s' == s
  }

  /** A broadcast wakes every thread blocked in `access`. */
  function Roused(m: Modes): Modes {
    map t | t in m :: if m[t].Entering? then m[t].(awake := true) else m[t]
  }

  function Broadcast(s: State): State { s.(modes := Roused(s.modes)) }

  function TryEnter(s: State, t: Tid, i: nat): State
    requires i < |s.contexts|
  {
    if s.contexts[i].count < 2 && s.pending > 0
    then s.(waiting := s.waiting + 1, modes := s.modes[t := Entering(false, i)])
    else s.(sharing := s.sharing + 1)
  }

  function TryUpgrade(s: State, t: Tid): State {
    if s.sharing > 0 then s.(pending := s.pending + 1, modes := s.modes[t := Upgrading(false)])
    else s.(owner := Some(t), modes := s.modes[t := Owning])
  }

  datatype Event =
    | Access(t: Tid) | RetryAccess(t: Tid) | Release(t: Tid)
    | Exclusive(t: Tid) | RetryExclusive(t: Tid) | Share(t: Tid) | Spurious(t: Tid)

  /** What the client protocol demands of a call, or what must have happened for a waiter to go on. */
  ghost predicate Legal(s: State, e: Event) {
    match e
    case Access(t) => MayCall(s, t)
    case RetryAccess(t) => s.owner.None? && t in s.modes && s.modes[t].Entering? && s.modes[t].awake
    case Release(t) => MayCall(s, t) && Holds(s, t)
    case Exclusive(t) => MayCall(s, t) && Holds(s, t)
    case RetryExclusive(t) => s.owner.None? && In(s.modes, t, Upgrading(true))
    case Share(t) => s.owner == Some(t)
    case Spurious(t) => t in s.modes && !s.modes[t].Owning? && !s.modes[t].awake
  }

  /** The assertions in the code, and no counter going below zero. */
  ghost predicate Asserted(s: State, e: Event)
    requires Legal(s, e)
  {
    match e
    case Access(t) => true
    case RetryAccess(t) => s.waiting > 0 && s.modes[t].at < |s.contexts|
    case Release(t) => s.sharing > 0
    case Exclusive(t) => s.sharing > 0 && Count(s, t) <= s.sharing
    case RetryExclusive(t) => s.pending > 0
    case Share(t) => Holds(s, t) && s.sharing == 0
    case Spurious(t) => true
  }

  ghost predicate Step(s: State, e: Event, s': State)
    requires Legal(s, e) && Asserted(s, e)
  {
    match e
    case Access(t) =>
      var (ctx, i) := SlotFor(s.contexts, t);
      s' == TryEnter(s.(contexts := ctx[i := Slot(t, ctx[i].count + 1)]), t, i)
    case RetryAccess(t) =>
      s' == TryEnter(s.(waiting := s.waiting - 1, modes := s.modes - {t}), t, s.modes[t].at)
    case Release(t) =>
      var i := SlotOf(s, t);
      var u := s.(sharing := s.sharing - 1, contexts := s.contexts[i := Slot(t, s.contexts[i].count - 1)]);
      if u.pending > 0 && u.sharing == 0 then Signal(u, s')
      else if u.waiting > 0 && u.pending == 0 then s' == Broadcast(u)
      else s' == u
    case Exclusive(t) => s' == TryUpgrade(s.(sharing := s.sharing - Count(s, t)), t)
    case RetryExclusive(t) => s' == TryUpgrade(s.(pending := s.pending - 1, modes := s.modes - {t}), t)
    case Share(t) => s' == s.(sharing := s.sharing + Count(s, t), owner := None, modes := s.modes - {t})
    case Spurious(t) => s' == s.(modes := s.modes[t := s.modes[t].(awake := true)])
  }

  ghost predicate Next(s: State, s': State) {
    exists e :: Legal(s, e) && Asserted(s, e) && Step(s, e, s')
  }

  ghost predicate Run(run: seq<State>) {
    && run != [] && Init(run[0])
    && forall i | 0 <= i < |run| - 1 :: Next(run[i], run[i + 1])
  }

  // ---------------------------------------------------------------- what every step keeps

  ghost function Upgraders(m: Modes): set<Tid> { set t | t in m && m[t].Upgrading? }
  ghost function Entrants(m: Modes): set<Tid> { set t | t in m && m[t].Entering? }

  /** The counters say how many threads wait, and the mutex owner is the one owning thread. */
  ghost predicate Counted(s: State) {
    && s.pending == |Upgraders(s.modes)| && s.waiting == |Entrants(s.modes)|
    && (forall t | t in s.modes :: s.modes[t].Owning? <==> s.owner == Some(t))
    && (s.owner.Some? ==> s.owner.value in s.modes && s.sharing == 0)
  }

  /** Each thread uses at most one slot, every thread inside an operation has one, an entering thread
      has count 1 in the slot it remembers, and `sharing` is the sum of the counts of the threads in
      shared mode. */
  ghost predicate Balanced(ctx: seq<Context>, sharing: nat, m: Modes) {
    && OneSlotEach(ctx)
    && (forall t | t in m :: Active(ctx, t, |ctx|).Some?)
    && (forall t | t in m && m[t].Entering? :: Active(ctx, t, |ctx|) == Some(m[t].at) && ctx[m[t].at].count == 1)
    && sharing == Total(ctx, m.Keys)
  }

  ghost predicate Woken(s: State) {
    s.owner.None? ==>
      && (EnteringBlocked(s.modes) ==> s.pending > 0 || s.sharing > 0)
      && (UpgradingBlocked(s.modes) && s.sharing == 0 ==> UpgradingAwake(s.modes))
  }

  ghost predicate Inv(s: State) { Counted(s) && Balanced(s.contexts, s.sharing, s.modes) && Woken(s) }

  lemma CountSet(m: Modes, t: Tid, x: Mode)
    ensures |Upgraders(m[t := x])| == |Upgraders(m - {t})| + (if x.Upgrading? then 1 else 0)
    ensures |Entrants(m[t := x])| == |Entrants(m - {t})| + (if x.Entering? then 1 else 0)
  {
    UpgradersSet(m, t, x);
    EntrantsSet(m, t, x);
  }

  lemma UpgradersSet(m: Modes, t: Tid, x: Mode)
    ensures Upgraders(m[t := x]) == Upgraders(m - {t}) + (if x.Upgrading? then {t} else {})
    ensures t !in Upgraders(m - {t})
  {
  }

  lemma EntrantsSet(m: Modes, t: Tid, x: Mode)
    ensures Entrants(m[t := x]) == Entrants(m - {t}) + (if x.Entering? then {t} else {})
    ensures t !in Entrants(m - {t})
  {
  }

  lemma CountDrop(m: Modes, t: Tid)
    requires t in m
    ensures |Upgraders(m)| == |Upgraders(m - {t})| + (if m[t].Upgrading? then 1 else 0)
    ensures |Entrants(m)| == |Entrants(m - {t})| + (if m[t].Entering? then 1 else 0)
  {
    assert m == m[t := m[t]];
    CountSet(m, t, m[t]);
  }

  lemma CountNew(m: Modes, t: Tid)
    requires t !in m
    ensures m - {t} == m
  {
  }

  lemma CountRoused(m: Modes)
    ensures Upgraders(Roused(m)) == Upgraders(m) && Entrants(Roused(m)) == Entrants(m)
    ensures Roused(m).Keys == m.Keys && !EnteringBlocked(Roused(m))
  {
  }

  /** Steps of entering threads do not touch the upgraders. */
  lemma UpgradersApart(m: Modes, n: Modes)
    requires forall t, a :: In(m, t, Upgrading(a)) <==> In(n, t, Upgrading(a))
    ensures UpgradingBlocked(m) <==> UpgradingBlocked(n)
    ensures UpgradingAwake(m) <==> UpgradingAwake(n)
  {
    if t :| In(m, t, Upgrading(false)) { assert In(n, t, Upgrading(false)); }
    if t :| In(n, t, Upgrading(false)) { assert In(m, t, Upgrading(false)); }
    if t :| In(m, t, Upgrading(true)) { assert In(n, t, Upgrading(true)); }
    if t :| In(n, t, Upgrading(true)) { assert In(m, t, Upgrading(true)); }
  }

  /** Taking one more count in `t`'s slot, old or new. */
  lemma BumpFacts(ctx: seq<Context>, t: Tid, out: set<Tid>) returns (ctx': seq<Context>, i: nat)
    requires OneSlotEach(ctx) && t !in out
    ensures i == SlotFor(ctx, t).1
    ensures ctx' == SlotFor(ctx, t).0[i := Slot(t, SlotFor(ctx, t).0[i].count + 1)]
    ensures OneSlotEach(ctx') && Active(ctx', t, |ctx'|) == Some(i)
    ensures forall u | u != t && Active(ctx, u, |ctx|).Some? ::
      && Active(ctx', u, |ctx'|) == Active(ctx, u, |ctx|)
      && ctx'[Active(ctx, u, |ctx|).value] == ctx[Active(ctx, u, |ctx|).value]
    ensures Total(ctx', out) == Total(ctx, out) + 1
    ensures ctx'[i].count < 2 ==> Total(ctx', out + {t}) == Total(ctx, out)
  {
    var (c, k) := SlotFor(ctx, t);
    i := k;
    ctx' := c[i := Slot(t, c[i].count + 1)];
    BumpOneSlot(ctx, c, t, i);
    SlotUnique(ctx', t, i);
    forall u | u != t && Active(ctx, u, |ctx|).Some?
      ensures Active(ctx', u, |ctx'|) == Active(ctx, u, |ctx|)
      ensures ctx'[Active(ctx, u, |ctx|).value] == ctx[Active(ctx, u, |ctx|).value]
    {
      OthersKeep(ctx, ctx', i, u);
    }
    BumpTotal(ctx, t, out, ctx', i);
  }

  lemma BumpTotal(ctx: seq<Context>, t: Tid, out: set<Tid>, ctx': seq<Context>, i: nat)
    requires t !in out && i == SlotFor(ctx, t).1
    requires ctx' == SlotFor(ctx, t).0[i := Slot(t, SlotFor(ctx, t).0[i].count + 1)]
    ensures Total(ctx', out) == Total(ctx, out) + 1
    ensures ctx'[i].count < 2 ==> Total(ctx', out + {t}) == Total(ctx, out)
  {
    var base := if i < |ctx| then ctx else ctx + [Slot(t, 0)];
    BaseTotal(ctx, t, out);
    assert Part(base[i], out) == if i < |ctx| && ctx[i].count > 0 then ctx[i].count else 0;
    TotalChange(base, out, ctx', out, i);
    if ctx'[i].count < 2 {
      TotalChange(base, out, ctx', out + {t}, i);
    }
  }

  lemma BaseTotal(ctx: seq<Context>, t: Tid, out: set<Tid>)
    ensures Total(ctx + [Slot(t, 0)], out) == Total(ctx, out)
  {
    var b := ctx + [Slot(t, 0)];
    assert b[..|b| - 1] == ctx;
  }

  /** A thread leaving shared mode takes exactly its count out of the total. */
  lemma LeaveTotal(ctx: seq<Context>, out: set<Tid>, t: Tid)
    requires OneSlotEach(ctx) && t !in out && Active(ctx, t, |ctx|).Some?
    ensures Total(ctx, out) == Total(ctx, out + {t}) + ctx[Active(ctx, t, |ctx|).value].count
  {
    var i := Active(ctx, t, |ctx|).value;
    forall j | 0 <= j < |ctx| && j != i ensures Part(ctx[j], out) == Part(ctx[j], out + {t}) {
      assert ctx[j].key == t ==> ctx[j].count == 0;
    }
    TotalChange(ctx, out, ctx, out + {t}, i);
  }

  lemma ReleaseFacts(ctx: seq<Context>, t: Tid, out: set<Tid>, i: nat, ctx': seq<Context>)
    requires OneSlotEach(ctx) && t !in out && Active(ctx, t, |ctx|) == Some(i)
    requires ctx' == ctx[i := Slot(t, ctx[i].count - 1)]
    ensures OneSlotEach(ctx') && Total(ctx', out) == Total(ctx, out) - 1
    ensures forall u | u != t && Active(ctx, u, |ctx|).Some? ::
      && Active(ctx', u, |ctx'|) == Active(ctx, u, |ctx|)
      && ctx'[Active(ctx, u, |ctx|).value] == ctx[Active(ctx, u, |ctx|).value]
  {
    TotalChange(ctx, out, ctx', out, i);
    forall u | u != t && Active(ctx, u, |ctx|).Some?
      ensures Active(ctx', u, |ctx'|) == Active(ctx, u, |ctx|)
      ensures ctx'[Active(ctx, u, |ctx|).value] == ctx[Active(ctx, u, |ctx|).value]
    {
      OthersKeep(ctx, ctx', i, u);
    }
  }

  // What each kind of entry does to the balance.

  lemma BalanceEnter(ctx: seq<Context>, sharing: nat, m: Modes, t: Tid) returns (ctx': seq<Context>, i: nat)
    requires Balanced(ctx, sharing, m) && t !in m
    ensures i == SlotFor(ctx, t).1 < |ctx'|
    ensures ctx' == SlotFor(ctx, t).0[i := Slot(t, SlotFor(ctx, t).0[i].count + 1)]
    ensures Balanced(ctx', sharing + 1, m)
    ensures ctx'[i].count < 2 ==> Balanced(ctx', sharing, m[t := Entering(false, i)])
  {
    ctx', i := BumpFacts(ctx, t, m.Keys);
    assert Balanced(ctx', sharing + 1, m);
    if ctx'[i].count < 2 {
      BalanceLeave(ctx', sharing, m, t, Entering(false, i), i);
    }
  }

  /** A thread in shared mode takes its count out of `sharing`, or an entering one adds it. */
  lemma BalanceLeave(ctx: seq<Context>, sharing: nat, m: Modes, t: Tid, x: Mode, i: nat)
    requires t !in m && Active(ctx, t, |ctx|) == Some(i)
    requires x.Entering? ==> x.at == i && ctx[i].count == 1
    ensures Balanced(ctx, sharing + ctx[i].count, m) <==> Balanced(ctx, sharing, m[t := x])
  {
    var n := m[t := x];
    assert n.Keys == m.Keys + {t};
    if OneSlotEach(ctx) {
      LeaveTotal(ctx, m.Keys, t);
    }
    assert forall u | u in m :: n[u] == m[u];
  }

  lemma BalanceRelease(ctx: seq<Context>, sharing: nat, m: Modes, t: Tid, i: nat)
    requires Balanced(ctx, sharing, m) && t !in m && Active(ctx, t, |ctx|) == Some(i) && sharing > 0
    ensures Balanced(ctx[i := Slot(t, ctx[i].count - 1)], sharing - 1, m)
  {
    var ctx' := ctx[i := Slot(t, ctx[i].count - 1)];
    ReleaseFacts(ctx, t, m.Keys, i, ctx');
    BalanceSame(ctx, sharing, m, ctx', sharing - 1);
  }

  /** The slots of the threads inside an operation are the same. */
  lemma BalanceSame(ctx: seq<Context>, sharing: nat, m: Modes, ctx': seq<Context>, sharing': nat)
    requires Balanced(ctx, sharing, m) && OneSlotEach(ctx') && sharing' == Total(ctx', m.Keys)
    requires forall u | u in m && Active(ctx, u, |ctx|).Some? ::
      && Active(ctx', u, |ctx'|) == Active(ctx, u, |ctx|)
      && ctx'[Active(ctx, u, |ctx|).value] == ctx[Active(ctx, u, |ctx|).value]
    ensures Balanced(ctx', sharing', m)
  {
  }

  /** The balance does not depend on who is awake. */
  lemma BalanceWake(ctx: seq<Context>, sharing: nat, m: Modes, n: Modes)
    requires Balanced(ctx, sharing, m) && n.Keys == m.Keys
    requires forall t | t in m :: n[t].Entering? ==> m[t].Entering? && m[t].at == n[t].at
    ensures Balanced(ctx, sharing, n)
  {
  }

  lemma BalanceReplace(ctx: seq<Context>, sharing: nat, m: Modes, t: Tid, x: Mode)
    requires Balanced(ctx, sharing, m) && t in m && !x.Entering?
    ensures Balanced(ctx, sharing, (m - {t})[t := x])
  {
    BalanceWake(ctx, sharing, m, (m - {t})[t := x]);
  }

  /** The assertions in the code never fail and no counter goes below zero, for legal callers. */
  lemma LegalAsserted(s: State, e: Event)
    requires Inv(s) && Legal(s, e)
    ensures Asserted(s, e)
  {
    match e
    case Access(t) =>
    case RetryAccess(t) => CountDrop(s.modes, t);
    case Release(t) => TotalAtLeast(s.contexts, s.modes.Keys, SlotOf(s, t));
    case Exclusive(t) => TotalAtLeast(s.contexts, s.modes.Keys, SlotOf(s, t));
    case RetryExclusive(t) => CountDrop(s.modes, t);
    case Share(t) =>
    case Spurious(t) =>
  }

  lemma AccessKeeps(s: State, t: Tid, s': State)
    requires Inv(s) && Legal(s, Access(t)) && Step(s, Access(t), s')
    ensures Inv(s')
  {
    var ctx, i := BalanceEnter(s.contexts, s.sharing, s.modes, t);
    if ctx[i].count < 2 && s.pending > 0 {
      QueueEntrant(s.(contexts := ctx), t, i);
    } else {
      assert s' == s.(contexts := ctx, sharing := s.sharing + 1);
    }
  }

  lemma QueueEntrant(u: State, t: Tid, i: nat)
    requires Counted(u) && Woken(u) && u.owner.None? && t !in u.modes && u.pending > 0
    ensures var v := u.(waiting := u.waiting + 1, modes := u.modes[t := Entering(false, i)]);
      Counted(v) && Woken(v)
  {
    CountNew(u.modes, t);
    CountSet(u.modes, t, Entering(false, i));
    UpgradersApart(u.modes, u.modes[t := Entering(false, i)]);
  }

  lemma RetryAccessKeeps(s: State, t: Tid, s': State)
    requires Inv(s) && Legal(s, RetryAccess(t)) && Asserted(s, RetryAccess(t)) && Step(s, RetryAccess(t), s')
    ensures Inv(s')
  {
    if s.pending > 0 { StillEntering(s, t, s'); } else { Entered(s, t, s'); }
  }

  lemma StillEntering(s: State, t: Tid, s': State)
    requires Inv(s) && s.owner.None? && t in s.modes && s.modes[t].Entering? && s.pending > 0 && s.waiting > 0
    requires s' == s.(modes := (s.modes - {t})[t := Entering(false, s.modes[t].at)])
    ensures Inv(s')
  {
    var v := s.(waiting := s.waiting - 1, modes := s.modes - {t});
    CountDrop(s.modes, t);
    UpgradersApart(s.modes, v.modes);
    QueueEntrant(v, t, s.modes[t].at);
    BalanceWake(s.contexts, s.sharing, s.modes, s'.modes);
  }

  lemma Entered(s: State, t: Tid, s': State)
    requires Inv(s) && s.owner.None? && t in s.modes && s.modes[t].Entering? && s.waiting > 0
    requires s' == s.(waiting := s.waiting - 1, sharing := s.sharing + 1, modes := s.modes - {t})
    ensures Inv(s')
  {
    CountDrop(s.modes, t);
    UpgradersApart(s.modes, s'.modes);
    assert s'.modes[t := s.modes[t]] == s.modes;
    BalanceLeave(s.contexts, s.sharing, s'.modes, t, s.modes[t], s.modes[t].at);
  }

  lemma ReleaseKeeps(s: State, t: Tid, s': State)
    requires Inv(s) && Legal(s, Release(t)) && Asserted(s, Release(t)) && Step(s, Release(t), s')
    ensures Inv(s')
  {
    var i := SlotOf(s, t);
    BalanceRelease(s.contexts, s.sharing, s.modes, t, i);
    var u := s.(sharing := s.sharing - 1, contexts := s.contexts[i := Slot(t, s.contexts[i].count - 1)]);
    OneLess(s, u);
    ReleaseWakes(u, s');
  }

  lemma OneLess(s: State, u: State)
    requires Counted(s) && s.owner.None? && s.sharing > 0 && u == s.(sharing := s.sharing - 1, contexts := u.contexts)
    ensures Counted(u)
  {
  }

  lemma ReleaseWakes(u: State, s': State)
    requires Counted(u) && Balanced(u.contexts, u.sharing, u.modes)
    requires if u.pending > 0 && u.sharing == 0 then Signal(u, s')
             else if u.waiting > 0 && u.pending == 0 then s' == Broadcast(u)
             else s' == u
    ensures Inv(s')
  {
    if u.pending > 0 && u.sharing == 0 {
      SignalKeeps(u, s');
    } else if u.waiting > 0 && u.pending == 0 {
      BroadcastKeeps(u);
    } else {
      NoWakeKeeps(u);
    }
  }

  lemma NoWakeKeeps(u: State)
    requires Counted(u) && Balanced(u.contexts, u.sharing, u.modes)
    requires (u.pending == 0 || u.sharing > 0) && (u.waiting == 0 || u.pending > 0)
    ensures Inv(u)
  {
    if t :| In(u.modes, t, Upgrading(false)) { assert t in Upgraders(u.modes); }
    if t :| t in u.modes && u.modes[t].Entering? && !u.modes[t].awake { assert t in Entrants(u.modes); }
  }

  lemma BroadcastKeeps(u: State)
    requires Counted(u) && Balanced(u.contexts, u.sharing, u.modes) && u.pending == 0
    ensures Inv(Broadcast(u))
  {
    var n := Roused(u.modes);
    CountRoused(u.modes);
    BalanceWake(u.contexts, u.sharing, u.modes, n);
    assert forall t :: In(n, t, Upgrading(false)) ==> t in Upgraders(n);
  }

  lemma SignalKeeps(u: State, s': State)
    requires Counted(u) && Balanced(u.contexts, u.sharing, u.modes) && Signal(u, s') && u.pending > 0
    ensures Inv(s')
  {
    if UpgradingBlocked(u.modes) {
      var t :| In(u.modes, t, Upgrading(false)) && s' == u.(modes := u.modes[t := Upgrading(true)]);
      CountDrop(u.modes, t);
      CountSet(u.modes, t, Upgrading(true));
      BalanceWake(u.contexts, u.sharing, u.modes, s'.modes);
      assert In(s'.modes, t, Upgrading(true));
    }
  }

  /** Whoever tries to upgrade is either in, or waits behind a share-holder. */
  lemma TryUpgradeWoken(u: State, t: Tid)
    ensures Woken(TryUpgrade(u, t))
  {
  }

  lemma TryUpgradeCounted(v: State, t: Tid)
    requires Counted(v) && v.owner.None? && t !in v.modes
    ensures Counted(TryUpgrade(v, t))
  {
    CountNew(v.modes, t);
    CountSet(v.modes, t, TryUpgrade(v, t).modes[t]);
  }

  lemma ExclusiveKeeps(s: State, t: Tid, s': State)
    requires Inv(s) && Legal(s, Exclusive(t)) && Asserted(s, Exclusive(t)) && Step(s, Exclusive(t), s')
    ensures Inv(s')
  {
    var v := s.(sharing := s.sharing - Count(s, t));
    TryUpgradeCounted(v, t);
    TryUpgradeWoken(v, t);
    BalanceLeave(s.contexts, v.sharing, s.modes, t, s'.modes[t], SlotOf(s, t));
  }

  lemma RetryExclusiveKeeps(s: State, t: Tid, s': State)
    requires Inv(s) && Legal(s, RetryExclusive(t)) && Asserted(s, RetryExclusive(t)) && Step(s, RetryExclusive(t), s')
    ensures Inv(s')
  {
    var v := s.(pending := s.pending - 1, modes := s.modes - {t});
    DropCounted(s, t, v);
    TryUpgradeCounted(v, t);
    TryUpgradeWoken(v, t);
    BalanceReplace(s.contexts, s.sharing, s.modes, t, s'.modes[t]);
  }

  lemma DropCounted(s: State, t: Tid, v: State)
    requires Counted(s) && In(s.modes, t, Upgrading(true)) && s.pending > 0
    requires v == s.(pending := s.pending - 1, modes := s.modes - {t})
    ensures Counted(v)
  {
    CountDrop(s.modes, t);
  }

  lemma ShareKeeps(s: State, t: Tid, s': State)
    requires Inv(s) && Legal(s, Share(t)) && Asserted(s, Share(t)) && Step(s, Share(t), s')
    ensures Inv(s')
  {
    CountDrop(s.modes, t);
    assert s'.modes[t := s.modes[t]] == s.modes;
    BalanceLeave(s.contexts, s.sharing, s'.modes, t, s.modes[t], SlotOf(s, t));
  }

  lemma SpuriousKeeps(s: State, t: Tid, s': State)
    requires Inv(s) && Legal(s, Spurious(t)) && Step(s, Spurious(t), s')
    ensures Inv(s')
  {
    CountDrop(s.modes, t);
    CountSet(s.modes, t, s'.modes[t]);
    BalanceWake(s.contexts, s.sharing, s.modes, s'.modes);
    if s.modes[t].Upgrading? {
      assert In(s'.modes, t, Upgrading(true));
    } else {
      UpgradersApart(s.modes, s'.modes);
    }
  }

  lemma NextKeeps(s: State, s': State)
    requires Inv(s) && Next(s, s')
    ensures Inv(s')
  {
    var e :| Legal(s, e) && Asserted(s, e) && Step(s, e, s');
    match e
    case Access(t) => AccessKeeps(s, t, s');
    case RetryAccess(t) => RetryAccessKeeps(s, t, s');
    case Release(t) => ReleaseKeeps(s, t, s');
    case Exclusive(t) => ExclusiveKeeps(s, t, s');
    case RetryExclusive(t) => RetryExclusiveKeeps(s, t, s');
    case Share(t) => ShareKeeps(s, t, s');
    case Spurious(t) => SpuriousKeeps(s, t, s');
  }

  lemma {:induction false} RunKeeps(run: seq<State>, k: nat)
    requires Run(run) && k < |run|
    ensures Inv(run[k])
  {
    if k > 0 {
      RunKeeps(run, k - 1);
      NextKeeps(run[k - 1], run[k]);
    } else {
      assert Upgraders(run[0].modes) == Entrants(run[0].modes) == {};
    }
  }

  // ---------------------------------------------------------------- the promises

  /** In every run a legal call never trips an assertion of the code. */
  lemma AssertionsHold(run: seq<State>, k: nat, e: Event)
    requires Run(run) && k < |run| && Legal(run[k], e)
    ensures Asserted(run[k], e)
  {
    RunKeeps(run, k);
    LegalAsserted(run[k], e);
  }

  /** In every run each thread has at most one slot in use, every thread waiting or exclusive has one,
      and `sharing` is the sum of the counts of the threads in shared mode. */
  lemma SlotsAndSharing(run: seq<State>, k: nat, t: Tid)
    requires Run(run) && k < |run|
    ensures OneSlotEach(run[k].contexts)
    ensures t in run[k].modes ==> Holds(run[k], t)
    ensures run[k].sharing == Total(run[k].contexts, run[k].modes.Keys)
  {
    RunKeeps(run, k);
  }

  /** When `exclusive` has returned to `t`, every other thread with a count is itself waiting: to
      upgrade, or to enter with its first count. */
  lemma ExclusiveAlone(run: seq<State>, k: nat, t: Tid, u: Tid)
    requires Run(run) && k < |run| && run[k].owner == Some(t)
    requires u != t && Holds(run[k], u)
    ensures u in run[k].modes && (run[k].modes[u].Upgrading? || (run[k].modes[u].Entering? && Count(run[k], u) == 1))
  {
    RunKeeps(run, k);
    TotalAtLeast(run[k].contexts, run[k].modes.Keys, SlotOf(run[k], u));
  }

  // ---------------------------------------------------------------- nothing else holds a thread up

  /** In every run what the client protocol allows can be done. */
  lemma LegalPossible(run: seq<State>, k: nat, e: Event) returns (s': State)
    requires Run(run) && k < |run| && Legal(run[k], e)
    ensures Asserted(run[k], e) && Step(run[k], e, s')
  {
    AssertionsHold(run, k, e);
    s' := SomeStep(run[k], e);
  }

  lemma SomeStep(s: State, e: Event) returns (s': State)
    requires Legal(s, e) && Asserted(s, e)
    ensures Step(s, e, s')
  {
    match e
    case Access(t) =>
      var (ctx, i) := SlotFor(s.contexts, t);
      s' := TryEnter(s.(contexts := ctx[i := Slot(t, ctx[i].count + 1)]), t, i);
    case RetryAccess(t) =>
      s' := TryEnter(s.(waiting := s.waiting - 1, modes := s.modes - {t}), t, s.modes[t].at);
    case Release(t) =>
      var i := SlotOf(s, t);
      var u := s.(sharing := s.sharing - 1, contexts := s.contexts[i := Slot(t, s.contexts[i].count - 1)]);
      s' := if u.waiting > 0 && u.pending == 0 then Broadcast(u) else u;
      if u.pending > 0 && u.sharing == 0 && UpgradingBlocked(u.modes) {
        var w :| In(u.modes, w, Upgrading(false));
        s' := u.(modes := u.modes[w := Upgrading(true)]);
      }
    case Exclusive(t) => s' := TryUpgrade(s.(sharing := s.sharing - Count(s, t)), t);
    case RetryExclusive(t) => s' := TryUpgrade(s.(pending := s.pending - 1, modes := s.modes - {t}), t);
    case Share(t) => s' := s.(sharing := s.sharing + Count(s, t), owner := None, modes := s.modes - {t});
    case Spurious(t) => s' := s.(modes := s.modes[t := s.modes[t].(awake := true)]);
  }

  // ---------------------------------------------------------------- who has to wait

  lemma TotalZero(ctx: seq<Context>, out: set<Tid>)
    ensures Total(ctx, out) == 0 <==> forall i | 0 <= i < |ctx| :: ctx[i].count > 0 ==> ctx[i].key in out
  {
    if Total(ctx, out) > 0 {
      var i := SomePart(ctx, out);
    } else {
      forall i | 0 <= i < |ctx| ensures ctx[i].count > 0 ==> ctx[i].key in out { TotalAtLeast(ctx, out, i); }
    }
  }

  lemma PendingExactly(s: State)
    requires Inv(s)
    ensures s.pending > 0 <==> Upgraders(s.modes) != {}
  {
  }

  /** A call of `access` waits exactly when the thread has no share yet and a thread waits to upgrade; its count
      is one more in any case, and the other threads' counts and modes are as they were. */
  lemma AccessExactly(run: seq<State>, k: nat, t: Tid, s': State)
    requires Run(run) && k < |run| && Legal(run[k], Access(t)) && Step(run[k], Access(t), s')
    ensures var s := run[k];
      && Holds(s', t) && Count(s', t) == 1 + (if Holds(s, t) then Count(s, t) else 0)
      && (t in s'.modes <==> !Holds(s, t) && Upgraders(s.modes) != {})
      && (t in s'.modes ==> s'.modes == s.modes[t := Entering(false, SlotOf(s', t))] && s'.sharing == s.sharing)
      && (t !in s'.modes ==> s'.modes == s.modes && s'.sharing == s.sharing + 1)
    ensures forall u | u != t && Holds(run[k], u) :: Holds(s', u) && Count(s', u) == Count(run[k], u)
  {
    RunKeeps(run, k);
    PendingExactly(run[k]);
    var ctx, i := BumpFacts(run[k].contexts, t, run[k].modes.Keys);
    assert s'.contexts == ctx && SlotOf(s', t) == i;
    SlotForExactly(run[k].contexts, t);
  }

  lemma SlotForExactly(ctx: seq<Context>, t: Tid)
    requires OneSlotEach(ctx)
    ensures var (c, i) := SlotFor(ctx, t); var a := Active(ctx, t, |ctx|);
      if a.Some? then c == ctx && i == a.value else c[i].count == 0
  {
    var (c, i) := SlotFor(ctx, t);
    if c[i].count > 0 { SlotUnique(ctx, t, i); }
  }

  /** A waiting thread that tries again enters exactly when no thread waits to upgrade. */
  lemma RetryAccessExactly(run: seq<State>, k: nat, t: Tid, s': State)
    requires Run(run) && k < |run| && Legal(run[k], RetryAccess(t)) && Asserted(run[k], RetryAccess(t))
    requires Step(run[k], RetryAccess(t), s')
    ensures t !in s'.modes <==> Upgraders(run[k].modes) == {}
    ensures t in s'.modes ==> s'.modes[t].Entering? && s'.sharing == run[k].sharing
    ensures s'.contexts == run[k].contexts && s'.modes - {t} == run[k].modes - {t}
  {
    RunKeeps(run, k);
    PendingExactly(run[k]);
  }

  /** A release wakes one upgrading thread at most, and only if no thread is in shared mode any longer; it wakes
      entering threads only when none waits to upgrade. */
  lemma WakesFew(run: seq<State>, k: nat, t: Tid, s': State)
    requires Run(run) && k < |run| && Legal(run[k], Release(t)) && Asserted(run[k], Release(t))
    requires Step(run[k], Release(t), s')
    ensures || s'.modes == run[k].modes
      || (exists u | In(run[k].modes, u, Upgrading(false)) :: s'.modes == run[k].modes[u := Upgrading(true)])
      || (s'.modes == Roused(run[k].modes) && Upgraders(run[k].modes) == {})
    ensures s'.modes != run[k].modes && Upgraders(run[k].modes) != {} ==> s'.sharing == 0
  {
    RunKeeps(run, k);
    PendingExactly(run[k]);
  }

  /** No thread other than `t` is in shared mode. */
  ghost predicate OthersOut(s: State, t: Tid) { forall u | u != t && Holds(s, u) :: u in s.modes }

  lemma OthersOutExactly(s: State, t: Tid)
    requires Inv(s)
    ensures OthersOut(s, t) <==> Total(s.contexts, s.modes.Keys + {t}) == 0
  {
    var out := s.modes.Keys + {t};
    TotalZero(s.contexts, out);
    if OthersOut(s, t) {
      forall i | 0 <= i < |s.contexts| && s.contexts[i].count > 0 ensures s.contexts[i].key in out {
        SlotUnique(s.contexts, s.contexts[i].key, i);
      }
    }
  }

  /** `exclusive`, called or tried again, returns exactly when no other thread is in shared mode. */
  lemma ExclusiveExactly(run: seq<State>, k: nat, t: Tid, e: Event, s': State)
    requires Run(run) && k < |run| && (e == Exclusive(t) || e == RetryExclusive(t))
    requires Legal(run[k], e) && Asserted(run[k], e) && Step(run[k], e, s')
    ensures s'.owner == (if OthersOut(run[k], t) then Some(t) else None)
    ensures t in s'.modes && s'.modes[t] == (if OthersOut(run[k], t) then Owning else Upgrading(false))
    ensures s'.contexts == run[k].contexts && s'.modes - {t} == run[k].modes - {t}
  {
    RunKeeps(run, k);
    OthersOutExactly(run[k], t);
    if e.Exclusive? { CallUpgrades(run[k], t, s'); } else { RetryUpgrades(run[k], t, s'); }
  }

  lemma CallUpgrades(s: State, t: Tid, s': State)
    requires Inv(s) && Legal(s, Exclusive(t)) && Asserted(s, Exclusive(t)) && Step(s, Exclusive(t), s')
    ensures s'.owner == (if Total(s.contexts, s.modes.Keys + {t}) == 0 then Some(t) else None)
    ensures t in s'.modes && s'.modes[t] == (if s'.owner.Some? then Owning else Upgrading(false))
    ensures s'.contexts == s.contexts && s'.modes - {t} == s.modes - {t}
  {
    LeaveTotal(s.contexts, s.modes.Keys, t);
  }

  lemma RetryUpgrades(s: State, t: Tid, s': State)
    requires Inv(s) && Legal(s, RetryExclusive(t)) && Asserted(s, RetryExclusive(t)) && Step(s, RetryExclusive(t), s')
    ensures s'.owner == (if Total(s.contexts, s.modes.Keys + {t}) == 0 then Some(t) else None)
    ensures t in s'.modes && s'.modes[t] == (if s'.owner.Some? then Owning else Upgrading(false))
    ensures s'.contexts == s.contexts && s'.modes - {t} == s.modes - {t}
  {
    assert s.modes.Keys + {t} == s.modes.Keys;
  }

  /** `t` has no share: no count at all, or one it waits to make good. */
  ghost predicate Outside(s: State, t: Tid) { Holds(s, t) ==> t in s.modes && s.modes[t].Entering? }

  /** While a thread waits to upgrade no thread gets its first share, whatever is called. */
  lemma NoOvertaking(run: seq<State>, j: nat, k: nat, t: Tid)
    requires Run(run) && j <= k < |run| && Outside(run[j], t)
    requires forall i | j <= i < k :: Upgraders(run[i].modes) != {}
    ensures Outside(run[k], t)
  {
    forall i | j <= i < k ensures KeptOut(run, i, t) { NextKeepsOut(run, i, t); }
    KeptOutOn(run, j, k, t);
  }

  ghost predicate KeptOut(run: seq<State>, i: int, t: Tid)
    requires 0 <= i < |run| - 1
  {
    Outside(run[i], t) ==> Outside(run[i + 1], t)
  }

  lemma {:induction false} KeptOutOn(run: seq<State>, j: nat, k: nat, t: Tid)
    requires j <= k < |run| && Outside(run[j], t) && forall i | j <= i < k :: KeptOut(run, i, t)
    ensures Outside(run[k], t)
  {
    if j < k {
      KeptOutOn(run, j, k - 1, t);
      assert KeptOut(run, k - 1, t);
    }
  }

  lemma NextKeepsOut(run: seq<State>, k: nat, t: Tid)
    requires Run(run) && k < |run| - 1 && Upgraders(run[k].modes) != {}
    ensures KeptOut(run, k, t)
  {
    RunKeeps(run, k);
    PendingExactly(run[k]);
    if Outside(run[k], t) { StepKeepsOut(run[k], run[k + 1], t); }
  }

  lemma StepKeepsOut(s: State, s': State, t: Tid)
    requires Inv(s) && Next(s, s') && Outside(s, t) && s.pending > 0
    ensures Outside(s', t)
  {
    var e :| Legal(s, e) && Asserted(s, e) && Step(s, e, s');
    if e.t == t { OwnStepOutside(s, e, s'); } else { OtherStepOutside(s, e, s', t); }
  }

  lemma OwnStepOutside(s: State, e: Event, s': State)
    requires Inv(s) && Legal(s, e) && Asserted(s, e) && Step(s, e, s') && Outside(s, e.t) && s.pending > 0
    ensures Outside(s', e.t)
  {
    if e.Access? { SlotForExactly(s.contexts, e.t); }
  }

  lemma OtherStepOutside(s: State, e: Event, s': State, t: Tid)
    requires Inv(s) && Legal(s, e) && Asserted(s, e) && Step(s, e, s') && Outside(s, t) && e.t != t
    ensures Outside(s', t)
  {
    if t in s.modes {
      OtherModes(s, e, s', t);
    } else if Holds(s', t) {
      OtherSlots(s, e, s', t);
      assert false;
    }
  }

  lemma OtherModes(s: State, e: Event, s': State, t: Tid)
    requires Legal(s, e) && Asserted(s, e) && Step(s, e, s') && e.t != t && t in s.modes && s.modes[t].Entering?
    ensures t in s'.modes && s'.modes[t].Entering?
  {
  }

  lemma OtherSlots(s: State, e: Event, s': State, t: Tid)
    requires Legal(s, e) && Asserted(s, e) && Step(s, e, s') && e.t != t && Holds(s', t)
    ensures Holds(s, t)
  {
    var i := SlotOf(s', t);
    assert s'.contexts[i].key == t;
    assert i < |s.contexts| && s.contexts[i] == s'.contexts[i];
  }

  // ---------------------------------------------------------------- somebody can always go on

  /** A thread that can take a step by itself: awake, exclusive, or in shared mode. */
  ghost predicate CanGoOn(s: State, t: Tid) {
    Holds(s, t) && (t in s.modes ==> s.modes[t].Owning? || s.modes[t].awake)
  }

  /** The lock never deadlocks: while any thread is inside an operation, some thread can go on. */
  lemma NoDeadlock(run: seq<State>, k: nat) returns (t: Tid)
    requires Run(run) && k < |run| && run[k].modes != map[]
    ensures CanGoOn(run[k], t)
  {
    RunKeeps(run, k);
    var s := run[k];
    if s.owner.Some? {
      t := s.owner.value;
    } else if s.sharing > 0 {
      var i := SomePart(s.contexts, s.modes.Keys);
      t := s.contexts[i].key;
    } else if UpgradingAwake(s.modes) {
      t :| In(s.modes, t, Upgrading(true));
    } else {
      t :| t in s.modes;
      NoneUpgrading(s.modes);
      assert t !in Upgraders(s.modes);
      assert s.modes[t].Entering? && !s.modes[t].awake ==> EnteringBlocked(s.modes);
    }
  }

  lemma NoneUpgrading(m: Modes)
    requires !UpgradingBlocked(m) && !UpgradingAwake(m)
    ensures Upgraders(m) == {}
  {
    forall t | t in Upgraders(m) ensures false {
      assert In(m, t, Upgrading(m[t].awake));
    }
  }

  lemma {:induction false} SomePart(ctx: seq<Context>, out: set<Tid>) returns (i: nat)
    requires Total(ctx, out) > 0
    ensures i < |ctx| && ctx[i].count > 0 && ctx[i].key !in out
    decreases |ctx|
  {
    if Part(ctx[|ctx| - 1], out) > 0 { return |ctx| - 1; }
    i := SomePart(ctx[..|ctx| - 1], out);
  }
}
