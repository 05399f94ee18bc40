/** The address-keyed mutex table of corelib/thread.cpp: `Mutex::protect` and `Mutex::release(ptr)`.

    Each bucket is a list of entries, a counted slot per address in use plus a mutex.  `protect` finds
    or makes the entry under the bucket's own lock (one step) and then locks the entry's mutex (another
    step, which may have to wait); `release` does its work under the bucket's lock. */
module MutexTable {
  import opened AddressHash
  import opened Slots
  import opened Options
  import opened Waiting

  // ---------------------------------------------------------------- the step system

  /** `locked[i]` is the thread that holds the mutex of entry `i`. */
  datatype Bucket = Bucket(slots: seq<Slot<Address>>, locked: seq<Option<Tid>>)

  /** Where a thread inside `protect` waits: for `addr`, on entry `at` of its bucket. */
  datatype Place = Place(addr: Address, at: nat)

  /** `waits` are the threads between the two steps of `protect`; `owns` says to which threads
      `protect` has returned without a `release` since. */
  datatype State = State(indexing: nat, home: Address -> nat, table: seq<Bucket>,
    waits: map<Tid, Place>, owns: set<(Tid, Address)>)

  ghost function Home(s: State, p: Address): nat { s.home(p) }

  /** Every address is at home in its bucket. */
  ghost predicate Hashed(s: State) {
    forall p: Address {:trigger Hash(p, s.indexing)} :: s.home(p) == Hash(p, s.indexing)
  }

  ghost predicate Init(s: State) {
    && Hashed(s) && |s.table| == Buckets(s.indexing)
    && (forall b | 0 <= b < |s.table| :: s.table[b] == Bucket([], []))
    && s.waits == map[] && s.owns == {}
  }

  ghost predicate Shaped(s: State) {
    && |s.table| == Buckets(s.indexing) && (forall p: Address :: s.home(p) < |s.table|)
    && (forall b | 0 <= b < |s.table| :: |s.table[b].slots| == |s.table[b].locked|)
    && (forall t | t in s.waits :: s.waits[t].at < |s.table[Home(s, s.waits[t].addr)].slots|)
  }

  datatype Event = Enter(t: Tid, p: Address) | Acquire(t: Tid) | Release(t: Tid, p: Address)

  function Entered(k: Bucket, p: Address): (Bucket, nat)
    requires |k.slots| == |k.locked|
  {
    var (sl, i) := SlotFor(k.slots, p);
    (Bucket(sl[i := Slot(p, sl[i].count + 1)], if |sl| > |k.slots| then k.locked + [None] else k.locked), i)
  }

  /** A release is made only by a thread that `protect` has returned to for that address. */
  ghost predicate Step(s: State, e: Event, s': State)
    requires Shaped(s)
  {
    match e
    case Enter(t, p) =>
      && t !in s.waits && p != NULL
      && var b := Home(s, p);
         var (k, i) := Entered(s.table[b], p);
         s' == s.(table := s.table[b := k], waits := s.waits[t := Place(p, i)])
    case Acquire(t) =>
      && t in s.waits
      && var p := s.waits[t].addr; var i := s.waits[t].at;
         var b := Home(s, p); var k := s.table[b];
         && k.locked[i].None?
         && s' == s.(table := s.table[b := k.(locked := k.locked[i := Some(t)])],
                     waits := s.waits - {t}, owns := s.owns + {(t, p)})
    case Release(t, p) =>
      && t !in s.waits && (t, p) in s.owns
      && var b := Home(s, p); var k := s.table[b];
         var a := Active(k.slots, p, |k.slots|);
         if a.None? then s' == s
         else
           var i := a.value;
           s' == s.(table := s.table[b := Bucket(k.slots[i := Slot(p, k.slots[i].count - 1)], k.locked[i := None])],
                    owns := s.owns - {(t, p)})
  }

  ghost predicate Next(s: State, s': State) { Shaped(s) && exists e :: Step(s, e, s') }

  ghost predicate Run(run: seq<State>) {
    && run != [] && Init(run[0])
    && forall i | 0 <= i < |run| - 1 :: Next(run[i], run[i + 1])
  }

  // ---------------------------------------------------------------- what every step keeps

  ghost predicate WaitsAt(s: State, t: Tid, b: nat, i: nat) {
    t in s.waits && Home(s, s.waits[t].addr) == b && s.waits[t].at == i
  }

  ghost function WaitersAt(s: State, b: nat, i: nat): set<Tid> { set t | t in s.waits && WaitsAt(s, t, b, i) }

  /** An entry's count is its waiters plus its holder; all of them came for its address; the holder is
      the thread `protect` returned to. */
  ghost predicate EntryOk(s: State, b: nat, i: nat)
    requires Shaped(s) && b < |s.table| && i < |s.table[b].slots|
  {
    var e, l := s.table[b].slots[i], s.table[b].locked[i];
    && e.count == |WaitersAt(s, b, i)| + (if l.Some? then 1 else 0)
    && (e.count > 0 ==> Home(s, e.key) == b)
    && (forall t | t in WaitersAt(s, b, i) :: s.waits[t].addr == e.key)
    && (l.Some? ==> (l.value, e.key) in s.owns)
  }

  ghost predicate OwnerOk(s: State, t: Tid, p: Address)
    requires Shaped(s)
  {
    var k := s.table[Home(s, p)];
    var a := Active(k.slots, p, |k.slots|);
    a.Some? && k.locked[a.value] == Some(t)
  }

  ghost predicate Inv(s: State) {
    && Shaped(s)
    && (forall b | 0 <= b < |s.table| :: OneSlotEach(s.table[b].slots))
    && (forall b, i | 0 <= b < |s.table| && 0 <= i < |s.table[b].slots| :: EntryOk(s, b, i))
    && (forall t, p | (t, p) in s.owns :: OwnerOk(s, t, p))
  }

  ghost predicate SameWaiting(s: State, s': State, u: Tid) {
    && (u in s'.waits <==> u in s.waits)
    && (u in s.waits ==> s'.waits[u] == s.waits[u] && Home(s', s'.waits[u].addr) == Home(s, s.waits[u].addr))
  }

  /** A step touches only entry `i` of bucket `b` and the waiting thread `t`. */
  ghost predicate Local(s: State, s': State, b: nat, i: nat, t: Tid) {
    && Shaped(s) && Shaped(s') && s'.indexing == s.indexing && s'.home == s.home
    && b < |s.table| && i < |s'.table[b].slots|
    && |s.table[b].slots| <= |s'.table[b].slots|
    && (forall c | 0 <= c < |s.table| && c != b :: s'.table[c] == s.table[c])
    && (forall j | 0 <= j < |s'.table[b].slots| && j != i ::
          && j < |s.table[b].slots| && s'.table[b].slots[j] == s.table[b].slots[j]
          && s'.table[b].locked[j] == s.table[b].locked[j])
    && (forall u: Tid | u != t :: SameWaiting(s, s', u))
    && (t in s.waits ==> WaitsAt(s, t, b, i))
    && (t in s'.waits ==> WaitsAt(s', t, b, i))
  }

  lemma OtherEntries(s: State, s': State, b: nat, i: nat, t: Tid, c: nat, j: nat)
    requires Local(s, s', b, i, t) && c < |s.table| && j < |s'.table[c].slots| && (c != b || j != i)
    requires j < |s.table[c].slots| && EntryOk(s, c, j)
    requires s.table[c].locked[j].Some? ==> (s.table[c].locked[j].value, s.table[c].slots[j].key) in s'.owns
    ensures EntryOk(s', c, j)
  {
    SameWaiters(s, s', b, i, t, c, j);
    forall u | u in WaitersAt(s', c, j) ensures s'.waits[u].addr == s'.table[c].slots[j].key {
      SameWait(s, s', b, i, t, u, c, j);
      assert u in WaitersAt(s, c, j);
    }
    assert Home(s', s.table[c].slots[j].key) == Home(s, s.table[c].slots[j].key);
  }

  lemma SameWaiters(s: State, s': State, b: nat, i: nat, t: Tid, c: nat, j: nat)
    requires Local(s, s', b, i, t) && (c != b || j != i)
    ensures WaitersAt(s', c, j) == WaitersAt(s, c, j)
  {
    forall u ensures WaitsAt(s', u, c, j) <==> WaitsAt(s, u, c, j) {
      SameWait(s, s', b, i, t, u, c, j);
    }
  }

  /** Who waits at another entry waits there as before. */
  lemma SameWait(s: State, s': State, b: nat, i: nat, t: Tid, u: Tid, c: nat, j: nat)
    requires Local(s, s', b, i, t) && (c != b || j != i)
    ensures WaitsAt(s', u, c, j) <==> WaitsAt(s, u, c, j)
    ensures WaitsAt(s, u, c, j) ==> s'.waits[u] == s.waits[u]
  {
    if u != t {
      assert SameWaiting(s, s', u);
      if u in s.waits { assert Home(s', s'.waits[u].addr) == Home(s, s.waits[u].addr); }
    } else {
      assert t in s'.waits ==> WaitsAt(s', t, b, i);
      assert t in s.waits ==> WaitsAt(s, t, b, i);
    }
  }

  /** An owner of another address than the touched entry's keeps its entry. */
  lemma OtherOwners(s: State, s': State, b: nat, i: nat, t: Tid, u: Tid, q: Address)
    requires Local(s, s', b, i, t) && OneSlotEach(s'.table[b].slots) && OwnerOk(s, u, q)
    requires Home(s, q) == b ==> Active(s.table[b].slots, q, |s.table[b].slots|).value != i
    ensures OwnerOk(s', u, q)
  {
    if Home(s, q) == b {
      OthersKeep(s.table[b].slots, s'.table[b].slots, i, q);
    }
  }

  lemma EnterKeeps(s: State, t: Tid, p: Address, s': State)
    requires Inv(s) && Step(s, Enter(t, p), s')
    ensures Inv(s')
  {
    var b := Home(s, p);
    var k := s.table[b];
    var (sl, i) := SlotFor(k.slots, p);
    BumpOneSlot(k.slots, sl, p, i);
    EnterLocal(s, t, p, s', b, i, sl);
    EnteredEntry(s, t, p, s', b, i, sl);
    forall c, j | 0 <= c < |s'.table| && 0 <= j < |s'.table[c].slots| ensures EntryOk(s', c, j) {
      if c != b || j != i { OtherEntries(s, s', b, i, t, c, j); }
    }
    forall u, q | (u, q) in s'.owns ensures OwnerOk(s', u, q) {
      EnteredOwner(s, t, p, s', b, i, sl, u, q);
    }
  }

  lemma EnterLocal(s: State, t: Tid, p: Address, s': State, b: nat, i: nat, sl: seq<Slot<Address>>)
    requires Shaped(s) && Step(s, Enter(t, p), s') && b == Home(s, p) && (sl, i) == SlotFor(s.table[b].slots, p)
    ensures Local(s, s', b, i, t)
  {
    assert Shaped(s');
  }

  lemma EnteredEntry(s: State, t: Tid, p: Address, s': State, b: nat, i: nat, sl: seq<Slot<Address>>)
    requires Inv(s) && Step(s, Enter(t, p), s') && b == Home(s, p) && (sl, i) == SlotFor(s.table[b].slots, p)
    requires Local(s, s', b, i, t)
    ensures EntryOk(s', b, i)
  {
    EnteredWaiters(s, t, p, s', b, i, sl);
    if i < |s.table[b].slots| {
      assert EntryOk(s, b, i);
    } else {
      assert WaitersAt(s, b, i) == {};
    }
  }

  lemma EnteredWaiters(s: State, t: Tid, p: Address, s': State, b: nat, i: nat, sl: seq<Slot<Address>>)
    requires Shaped(s) && Step(s, Enter(t, p), s') && b == Home(s, p) && (sl, i) == SlotFor(s.table[b].slots, p)
    ensures WaitersAt(s', b, i) == WaitersAt(s, b, i) + {t} && t !in WaitersAt(s, b, i)
  {
  }

  lemma EnteredOwner(s: State, t: Tid, p: Address, s': State, b: nat, i: nat, sl: seq<Slot<Address>>,
                     u: Tid, q: Address)
    requires Inv(s) && Step(s, Enter(t, p), s') && b == Home(s, p) && (sl, i) == SlotFor(s.table[b].slots, p)
    requires Local(s, s', b, i, t) && OneSlotEach(s'.table[b].slots) && (u, q) in s.owns
    ensures OwnerOk(s', u, q)
  {
    assert OwnerOk(s, u, q);
    if q == p {
      SlotUnique(s'.table[b].slots, p, i);
      assert sl == s.table[b].slots;
      SlotUnique(sl, p, i);
    } else {
      OtherOwners(s, s', b, i, t, u, q);
    }
  }

  lemma AcquireKeeps(s: State, t: Tid, s': State)
    requires Inv(s) && Step(s, Acquire(t), s')
    ensures Inv(s')
  {
    var p, i := s.waits[t].addr, s.waits[t].at;
    var b := Home(s, p);
    AcquireLocal(s, t, s', b, i);
    AcquiredEntry(s, t, s', b, i);
    forall c, j | 0 <= c < |s'.table| && 0 <= j < |s'.table[c].slots| ensures EntryOk(s', c, j) {
      if c != b || j != i { OtherEntries(s, s', b, i, t, c, j); }
    }
    forall u, q | (u, q) in s'.owns ensures OwnerOk(s', u, q) {
      if (u, q) in s.owns {
        assert OwnerOk(s, u, q);
        OtherOwners(s, s', b, i, t, u, q);
      }
    }
  }

  lemma AcquireLocal(s: State, t: Tid, s': State, b: nat, i: nat)
    requires Shaped(s) && Step(s, Acquire(t), s') && b == Home(s, s.waits[t].addr) && i == s.waits[t].at
    ensures Local(s, s', b, i, t)
  {
    assert Shaped(s');
  }

  lemma AcquiredEntry(s: State, t: Tid, s': State, b: nat, i: nat)
    requires Inv(s) && Step(s, Acquire(t), s') && b == Home(s, s.waits[t].addr) && i == s.waits[t].at
    requires Local(s, s', b, i, t)
    ensures EntryOk(s', b, i) && OneSlotEach(s'.table[b].slots)
    ensures OwnerOk(s', t, s.waits[t].addr)
    ensures forall u, q | (u, q) in s.owns && Home(s, q) == b ::
      Active(s.table[b].slots, q, |s.table[b].slots|) != Some(i)
  {
    assert EntryOk(s, b, i) && t in WaitersAt(s, b, i);
    assert WaitersAt(s', b, i) == WaitersAt(s, b, i) - {t};
    SlotUnique(s.table[b].slots, s.waits[t].addr, i);
    forall u, q | (u, q) in s.owns && Home(s, q) == b
      ensures Active(s.table[b].slots, q, |s.table[b].slots|) != Some(i)
    {
      assert OwnerOk(s, u, q);
    }
  }

  lemma ReleaseKeeps(s: State, t: Tid, p: Address, s': State)
    requires Inv(s) && Step(s, Release(t, p), s')
    ensures Inv(s')
  {
    var b := Home(s, p);
    var i := ReleaseLocal(s, t, p, s', b);
    forall c, j | 0 <= c < |s'.table| && 0 <= j < |s'.table[c].slots| ensures EntryOk(s', c, j) {
      ReleasedEntry(s, t, p, s', b, i, c, j);
    }
    forall u, q | (u, q) in s'.owns ensures OwnerOk(s', u, q) {
      assert OwnerOk(s, u, q);
      OtherOwners(s, s', b, i, t, u, q);
    }
  }

  lemma ReleaseLocal(s: State, t: Tid, p: Address, s': State, b: nat) returns (i: nat)
    requires Inv(s) && Step(s, Release(t, p), s') && b == Home(s, p)
    ensures Active(s.table[b].slots, p, |s.table[b].slots|) == Some(i) && Local(s, s', b, i, t)
    ensures s'.owns == s.owns - {(t, p)} && s'.waits == s.waits
    ensures s'.table[b].slots[i] == Slot(p, s.table[b].slots[i].count - 1)
    ensures s'.table[b].locked[i].None? && s.table[b].locked[i].Some?
    ensures forall c | 0 <= c < |s'.table| :: OneSlotEach(s'.table[c].slots)
  {
    assert OwnerOk(s, t, p);
    var k := s.table[b];
    i := Active(k.slots, p, |k.slots|).value;
    assert OneSlotEach(k.slots);
  }

  lemma ReleasedEntry(s: State, t: Tid, p: Address, s': State, b: nat, i: nat, c: nat, j: nat)
    requires Inv(s) && b == Home(s, p) && Active(s.table[b].slots, p, |s.table[b].slots|) == Some(i)
    requires Local(s, s', b, i, t) && s'.owns == s.owns - {(t, p)} && s'.waits == s.waits
    requires s'.table[b].slots[i] == Slot(p, s.table[b].slots[i].count - 1)
    requires s'.table[b].locked[i].None? && s.table[b].locked[i].Some?
    requires c < |s'.table| && j < |s'.table[c].slots|
    ensures EntryOk(s', c, j)
  {
    if c != b || j != i {
      assert j < |s.table[c].slots| && EntryOk(s, c, j);
      if s.table[c].locked[j].Some? { ReleasedOthers(s, t, p, b, i, c, j); }
      OtherEntries(s, s', b, i, t, c, j);
    } else {
      assert EntryOk(s, b, i);
      SameWaits(s, s', b, i);
    }
  }

  lemma SameWaits(s: State, s': State, b: nat, i: nat)
    requires s'.waits == s.waits && s'.home == s.home
    ensures WaitersAt(s', b, i) == WaitersAt(s, b, i)
  {
    forall t ensures WaitsAt(s', t, b, i) <==> WaitsAt(s, t, b, i) {}
  }

  /** No other entry is held under the address being released. */
  lemma ReleasedOthers(s: State, t: Tid, p: Address, b: nat, i: nat, c: nat, j: nat)
    requires Inv(s) && b == Home(s, p) && Active(s.table[b].slots, p, |s.table[b].slots|) == Some(i)
    requires c < |s.table| && j < |s.table[c].slots| && (c != b || j != i) && s.table[c].locked[j].Some?
    ensures s.table[c].slots[j].key != p
  {
    assert EntryOk(s, c, j);
    assert OneSlotEach(s.table[b].slots);
  }

  lemma NextKeeps(s: State, s': State)
    requires Inv(s) && Next(s, s')
    ensures Inv(s')
  {
    var e :| Step(s, e, s');
    match e
    case Enter(t, p) => EnterKeeps(s, t, p, s');
    case Acquire(t) => AcquireKeeps(s, t, s');
    case Release(t, p) => ReleaseKeeps(s, t, p, s');
  }

  lemma {:induction false} RunKeeps(run: seq<State>, k: nat)
    requires Run(run) && k < |run|
    ensures Inv(run[k])
  {
    if k == 0 {
      var s := run[0];
      forall p: Address ensures s.home(p) < |s.table| { assert s.home(p) == Hash(p, s.indexing); }
    } else {
      RunKeeps(run, k - 1);
      NextKeeps(run[k - 1], run[k]);
    }
  }

  // ---------------------------------------------------------------- one mutex per address

  /** The specification: an independent mutex for every address. */
  ghost predicate SpecLock(a: set<(Tid, Address)>, t: Tid, p: Address, a': set<(Tid, Address)>) {
    (forall u: Tid :: (u, p) !in a) && a' == a + {(t, p)}
  }

  ghost predicate SpecUnlock(a: set<(Tid, Address)>, t: Tid, p: Address, a': set<(Tid, Address)>) {
    (t, p) in a && a' == a - {(t, p)}
  }

  /** In every run at most one thread holds `protect(p)`. */
  lemma MutualExclusion(run: seq<State>, k: nat, t: Tid, u: Tid, p: Address)
    requires Run(run) && k < |run| && (t, p) in run[k].owns && (u, p) in run[k].owns
    ensures t == u
  {
    RunKeeps(run, k);
    assert OwnerOk(run[k], t, p) && OwnerOk(run[k], u, p);
  }

  /** Every step of the table is a step of the independent mutexes, or invisible to them; a release
      always finds its entry. */
  lemma Refines(run: seq<State>, k: nat, e: Event, s': State)
    requires Run(run) && k < |run| && Shaped(run[k]) && Step(run[k], e, s')
    ensures match e
      case Enter(t, p) => s'.owns == run[k].owns
      case Acquire(t) => SpecLock(run[k].owns, t, run[k].waits[t].addr, s'.owns)
      case Release(t, p) => SpecUnlock(run[k].owns, t, p, s'.owns)
  {
    RunKeeps(run, k);
    var s := run[k];
    match e
    case Enter(t, p) =>
    case Acquire(t) =>
      var p, i := s.waits[t].addr, s.waits[t].at;
      var b := Home(s, p);
      assert EntryOk(s, b, i) && t in WaitersAt(s, b, i);
      SlotUnique(s.table[b].slots, p, i);
      assert forall u: Tid | (u, p) in s.owns :: OwnerOk(s, u, p);
    case Release(t, p) =>
      assert OwnerOk(s, t, p);
  }

  /** A waiter is held up only by an owner of its own address: the entry it waits on is that address's
      one live entry, and it is locked exactly when some thread owns the address. */
  lemma WaitsOnlyForOwner(run: seq<State>, k: nat, t: Tid)
    requires Run(run) && k < |run| && t in run[k].waits && Shaped(run[k])
    ensures var s, w := run[k], run[k].waits[t];
      var b := s.table[Home(s, w.addr)];
      && Active(b.slots, w.addr, |b.slots|) == Some(w.at)
      && (b.locked[w.at].Some? <==> exists u: Tid :: (u, w.addr) in s.owns)
  {
    RunKeeps(run, k);
    var s, w := run[k], run[k].waits[t];
    var b := Home(s, w.addr);
    assert EntryOk(s, b, w.at) && t in WaitersAt(s, b, w.at);
    SlotUnique(s.table[b].slots, w.addr, w.at);
    forall u: Tid | (u, w.addr) in s.owns ensures s.table[b].locked[w.at] == Some(u) {
      assert OwnerOk(s, u, w.addr);
    }
  }

  /** A waiter can go on exactly when no thread owns its address, and then owns it. */
  lemma AcquireExactly(run: seq<State>, k: nat, t: Tid) returns (s': State)
    requires Run(run) && k < |run| && t in run[k].waits && Shaped(run[k])
    ensures Step(run[k], Acquire(t), s') <==> forall u: Tid :: (u, run[k].waits[t].addr) !in run[k].owns
    ensures s'.owns == run[k].owns + {(t, run[k].waits[t].addr)} && s'.waits == run[k].waits - {t}
  {
    WaitsOnlyForOwner(run, k, t);
    var s, w := run[k], run[k].waits[t];
    var b := Home(s, w.addr);
    var e := s.table[b];
    s' := s.(table := s.table[b := e.(locked := e.locked[w.at := Some(t)])],
             waits := s.waits - {t}, owns := s.owns + {(t, w.addr)});
  }

  /** A call of `protect` always gets to wait for its address, and an owner that does not wait itself can always
      release, after which nobody owns the address. */
  lemma CallsExactly(run: seq<State>, k: nat, t: Tid, p: Address, s': State)
    requires Run(run) && k < |run| && Shaped(run[k])
    ensures Step(run[k], Enter(t, p), s') ==>
      s'.waits.Keys == run[k].waits.Keys + {t} && s'.waits[t].addr == p && s'.owns == run[k].owns
    ensures Step(run[k], Release(t, p), s') ==>
      s'.waits == run[k].waits && (t, p) in run[k].owns && forall u: Tid :: (u, p) !in s'.owns
  {
    if Step(run[k], Release(t, p), s') {
      Refines(run, k, Release(t, p), s');
      forall u: Tid ensures (u, p) !in s'.owns {
        if (u, p) in run[k].owns { MutualExclusion(run, k, t, u, p); }
      }
    }
  }

  lemma ReleasePossible(run: seq<State>, k: nat, t: Tid, p: Address) returns (s': State)
    requires Run(run) && k < |run| && Shaped(run[k]) && (t, p) in run[k].owns && t !in run[k].waits
    ensures Step(run[k], Release(t, p), s')
  {
    RunKeeps(run, k);
    var s, b := run[k], Home(run[k], p);
    assert OwnerOk(s, t, p);
    var e := s.table[b];
    var i := Active(e.slots, p, |e.slots|).value;
    s' := s.(table := s.table[b := Bucket(e.slots[i := Slot(p, e.slots[i].count - 1)], e.locked[i := None])],
             owns := s.owns - {(t, p)});
  }

  /** An entry is reused for another address only when its mutex is free and nobody waits on it. */
  lemma RecycledWhenIdle(run: seq<State>, k: nat, s': State, b: nat, i: nat)
    requires Run(run) && k < |run| && Next(run[k], s')
    requires b < |run[k].table| && i < |run[k].table[b].slots| && b < |s'.table| && i < |s'.table[b].slots|
    requires s'.table[b].slots[i].key != run[k].table[b].slots[i].key
    ensures run[k].table[b].locked[i].None? && WaitersAt(run[k], b, i) == {}
  {
    RunKeeps(run, k);
    assert EntryOk(run[k], b, i);
    var e :| Step(run[k], e, s');
    KeyChange(run[k], e, s', b, i);
  }

  lemma KeyChange(s: State, e: Event, s': State, b: nat, i: nat)
    requires Shaped(s) && Step(s, e, s') && b < |s.table| && i < |s.table[b].slots|
    ensures b < |s'.table| && i < |s'.table[b].slots|
    ensures s'.table[b].slots[i].key != s.table[b].slots[i].key ==> s.table[b].slots[i].count == 0
  {
    match e
    case Enter(t, p) =>
    case Acquire(t) =>
    case Release(t, p) =>
  }

  // ---------------------------------------------------------------- how long a bucket gets

  ghost function ActiveAddresses(k: Bucket): set<Address> {
    set i | 0 <= i < |k.slots| && k.slots[i].count > 0 :: k.slots[i].key
  }

  lemma {:induction false} AllActiveCount(slots: seq<Slot<Address>>)
    requires OneSlotEach(slots) && forall i | 0 <= i < |slots| :: slots[i].count > 0
    ensures |ActiveAddresses(Bucket(slots, []))| == |slots|
    decreases |slots|
  {
    if slots != [] {
      var n := |slots| - 1;
      AllActiveCount(slots[..n]);
      AddressesCons(slots);
      assert slots[n].key !in ActiveAddresses(Bucket(slots[..n], []));
    }
  }

  lemma AddressesCons(slots: seq<Slot<Address>>)
    requires slots != [] && slots[|slots| - 1].count > 0
    ensures ActiveAddresses(Bucket(slots, []))
         == ActiveAddresses(Bucket(slots[..|slots| - 1], [])) + {slots[|slots| - 1].key}
  {
    var n := |slots| - 1;
    var all, rest := ActiveAddresses(Bucket(slots, [])), ActiveAddresses(Bucket(slots[..n], []));
    forall i | 0 <= i < n && slots[i].count > 0 ensures slots[i].key in rest {
      assert slots[..n][i] == slots[i];
    }
    assert all <= rest + {slots[n].key};
    forall i | 0 <= i < n && slots[..n][i].count > 0 ensures slots[..n][i].key in all {
      assert slots[..n][i] == slots[i];
    }
  }

  /** A bucket never has more entries than its peak of addresses in use at one time: at some earlier
      state of the run it had exactly as many addresses in use. */
  lemma {:induction false} BucketPeak(run: seq<State>, k: nat, b: nat) returns (j: nat)
    requires Run(run) && k < |run| && b < Buckets(run[k].indexing)
    ensures j <= k && run[j].indexing == run[k].indexing && b < |run[j].table| && b < |run[k].table|
    ensures |ActiveAddresses(run[j].table[b])| == |run[k].table[b].slots|
  {
    RunKeeps(run, k);
    if k == 0 {
      j := 0;
      assert ActiveAddresses(run[0].table[b]) == {};
    } else {
      RunKeeps(run, k - 1);
      var s, s' := run[k - 1], run[k];
      var e :| Step(s, e, s');
      if |s'.table[b].slots| == |s.table[b].slots| {
        j := BucketPeak(run, k - 1, b);
      } else {
        j := k;
        Grown(s, e, s', b);
        AllActiveCount(s'.table[b].slots);
        assert ActiveAddresses(s'.table[b]) == ActiveAddresses(Bucket(s'.table[b].slots, []));
      }
    }
  }

  lemma Grown(s: State, e: Event, s': State, b: nat)
    requires Shaped(s) && Step(s, e, s') && b < |s.table| && |s'.table[b].slots| != |s.table[b].slots|
    ensures forall i | 0 <= i < |s'.table[b].slots| :: s'.table[b].slots[i].count > 0
  {
  }
}
