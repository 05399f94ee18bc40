/** The blocking queue and stack `ArrayRef` of corelib/arrayref.cpp: a ring of reference-counted
    objects (class Ring) and the waiting protocol around it (the step system below). */
module ArrayRing {
  import opened Waiting

  // ---------------------------------------------------------------- the ring

  /** A pointer to a counted object; zero is the null pointer. */
  type Ref = nat
  const NULL: Ref := 0

  datatype Kind = QueueKind | StackKind

  /** What remains, and what comes out, when one item is taken: the oldest, or the newest. */
  function Taken(kind: Kind, items: seq<Ref>): (r: (Ref, seq<Ref>))
    requires items != []
    ensures |r.1| == |items| - 1
  {
    match kind
    case QueueKind => (items[0], items[1..])
    case StackKind => (items[|items| - 1], items[..|items| - 1])
  }

  lemma RefsTaken(kind: Kind, items: seq<Ref>)
    requires items != []
    ensures multiset(items) == multiset{Taken(kind, items).0} + multiset(Taken(kind, items).1)
    ensures multiset(items) - multiset{Taken(kind, items).0} == multiset(Taken(kind, items).1)
  {
    var n := |items| - 1;
    assert items == [items[0]] + items[1..] && items == items[..n] + [items[n]];
  }

  /** A stack gives back what was put in last, a queue what was put in first. */
  lemma TakenExactly(x: Ref, items: seq<Ref>)
    ensures Taken(StackKind, items + [x]) == (x, items)
    ensures Taken(QueueKind, [x] + items) == (x, items)
  {
    assert (items + [x])[..|items|] == items && ([x] + items)[1..] == items;
  }

  /** Position `j` lies in the live range from `head` up to `tail`, around the end if need be. */
  predicate Live(head: nat, tail: nat, j: nat) {
    if head <= tail then head <= j < tail else j < tail || head <= j
  }

  /** Slots in the live range hold objects, all others are empty. */
  ghost predicate Laid(cells: seq<Ref>, head: nat, tail: nat) {
    && head < |cells| && tail < |cells|
    && forall j | 0 <= j < |cells| :: cells[j] != NULL <==> Live(head, tail, j)
  }

  function Window(cells: seq<Ref>, head: nat, tail: nat): seq<Ref>
    requires head < |cells| && tail < |cells|
  {
    if head <= tail then cells[head..tail] else cells[head..] + cells[..tail]
  }

  function Up(size: nat, i: nat): nat { if i + 1 >= size then 0 else i + 1 }

  function Down(size: nat, i: nat): nat
    requires size > 0
  {
    if i == 0 then size - 1 else i - 1
  }

  lemma WindowPush(cells: seq<Ref>, head: nat, tail: nat, x: Ref)
    requires Laid(cells, head, tail) && x != NULL && |Window(cells, head, tail)| < |cells| - 1
    ensures Laid(cells[tail := x], head, Up(|cells|, tail))
    ensures Window(cells[tail := x], head, Up(|cells|, tail)) == Window(cells, head, tail) + [x]
  {
    var t := Up(|cells|, tail);
    var w, w' := Window(cells, head, tail), Window(cells[tail := x], head, t);
    assert |w'| == |w| + 1;
    forall k | 0 <= k < |w'| ensures w'[k] == (w + [x])[k] { }
  }

  lemma WindowFirst(cells: seq<Ref>, head: nat, tail: nat)
    requires Laid(cells, head, tail) && head != tail
    ensures Window(cells, head, tail) != [] && Window(cells, head, tail)[0] == cells[head] != NULL
    ensures Laid(cells[head := NULL], Up(|cells|, head), tail)
    ensures Window(cells[head := NULL], Up(|cells|, head), tail) == Window(cells, head, tail)[1..]
  {
    var h := Up(|cells|, head);
    var w, w' := Window(cells, head, tail), Window(cells[head := NULL], h, tail);
    assert |w'| == |w| - 1;
    forall k | 0 <= k < |w'| ensures w'[k] == w[1..][k] { }
  }

  lemma WindowLast(cells: seq<Ref>, head: nat, tail: nat)
    requires Laid(cells, head, tail) && head != tail
    ensures var w, t := Window(cells, head, tail), Down(|cells|, tail);
      && w != [] && w[|w| - 1] == cells[t] != NULL
      && Laid(cells[t := NULL], head, t)
      && Window(cells[t := NULL], head, t) == w[..|w| - 1]
  {
    var t := Down(|cells|, tail);
    var w, w' := Window(cells, head, tail), Window(cells[t := NULL], head, t);
    assert |w'| == |w| - 1;
    forall k | 0 <= k < |w'| ensures w'[k] == w[..|w| - 1][k] { }
  }

  /** Taking out the newest, or the oldest: what is left, laid out, and the references it holds. */
  lemma TakeNewest(cells: seq<Ref>, head: nat, tail: nat, t: nat)
    requires Laid(cells, head, tail) && head != tail && t == Down(|cells|, tail)
    ensures t < |cells| && cells[t] != NULL && Laid(cells[t := NULL], head, t)
    ensures var w := Window(cells, head, tail); var w' := Window(cells[t := NULL], head, t);
      w != [] && Taken(StackKind, w) == (cells[t], w') && multiset(w) - multiset{cells[t]} == multiset(w')
  {
    WindowLast(cells, head, tail);
    RefsTaken(StackKind, Window(cells, head, tail));
  }

  lemma TakeOldest(cells: seq<Ref>, head: nat, tail: nat, h: nat)
    requires Laid(cells, head, tail) && head != tail && h == Up(|cells|, head)
    ensures h < |cells| && cells[head] != NULL && Laid(cells[head := NULL], h, tail)
    ensures var w := Window(cells, head, tail); var w' := Window(cells[head := NULL], h, tail);
      w != [] && Taken(QueueKind, w) == (cells[head], w') && multiset(w) - multiset{cells[head]} == multiset(w')
  {
    WindowFirst(cells, head, tail);
    RefsTaken(QueueKind, Window(cells, head, tail));
  }

  class Ring {
    const kind: Kind
    const size: nat
    const slots: array<Ref>
    var head: nat
    var tail: nat
    /** The references the ring has retained and neither released nor handed over. */
    var held: multiset<Ref>

    ghost predicate Valid()
      reads this, slots
    {
      && slots.Length == size >= 2
      && Laid(slots[..], head, tail)
      && held == multiset(Contents())
    }

    ghost function Contents(): seq<Ref>
      requires slots.Length == size && head < size && tail < size
      reads this, slots
    {
      Window(slots[..], head, tail)
    }

    constructor (kind: Kind, size: nat)
      requires size >= 2
      ensures Valid() && this.kind == kind && this.size == size && Contents() == [] && fresh(slots)
    {
      this.kind, this.size := kind, size;
      slots := new Ref[size](_ => NULL);
      head, tail, held := 0, 0, multiset{};
    }

    method Count() returns (n: nat)
      requires Valid()
      ensures n == |Contents()| < size
    {
      if head <= tail { return tail - head; }
      return tail + size - head;
    }

    /** Retains the new object, releases the one it replaces. */
    method Assign(index: nat, obj: Ref)
      requires slots.Length == size
      modifies slots, this`held
      ensures index >= size ==> held == old(held) && slots[..] == old(slots[..])
      ensures index < size ==> slots[..] == old(slots[..])[index := obj]
      ensures index < size ==>
        held == old(held) + (if obj != NULL then multiset{obj} else multiset{})
                - (if old(slots[index]) != NULL then multiset{old(slots[index])} else multiset{})
    {
      if index >= size { return; }
      if obj != NULL { held := held + multiset{obj}; }
      if slots[index] != NULL { held := held - multiset{slots[index]}; }
      slots[index] := obj;
    }

    /** Hands the reference over to the caller. */
    method Remove(index: nat) returns (obj: Ref)
      requires slots.Length == size
      modifies slots, this`held
      ensures index >= size ==> obj == NULL && held == old(held) && slots[..] == old(slots[..])
      ensures index < size ==> obj == old(slots[index]) && slots[..] == old(slots[..])[index := NULL]
      ensures index < size ==> held == old(held) - multiset{obj}
    {
      if index >= size { return NULL; }
      obj := slots[index];
      held := held - multiset{obj};
      slots[index] := NULL;
    }

    /** `push` once there is room. */
    method Push(obj: Ref)
      requires Valid() && obj != NULL && |Contents()| < size - 1
      modifies this, slots
      ensures Valid() && Contents() == old(Contents()) + [obj]
    {
      WindowPush(slots[..], head, tail, obj);
      Assign(tail, obj);
      tail := tail + 1;
      if tail >= size { tail := 0; }
    }

    /** `pull` once there is an item. */
    method Pull() returns (obj: Ref)
      requires Valid() && Contents() != []
      modifies this, slots
      ensures Valid() && obj != NULL && (obj, Contents()) == Taken(kind, old(Contents()))
    {
      match kind {
        case StackKind => obj := PullNewest();
        case QueueKind => obj := PullOldest();
      }
    }

    method PullNewest() returns (obj: Ref)
      requires Valid() && Contents() != []
      modifies this, slots
      ensures Valid() && obj != NULL && (obj, Contents()) == Taken(StackKind, old(Contents()))
    {
      ghost var cells, t := slots[..], Down(size, tail);
      TakeNewest(cells, head, tail, t);
      if tail == 0 { tail := size; }
      tail := tail - 1;
      obj := Remove(tail);
      assert slots[..] == cells[t := NULL] && tail == t;
      assert Laid(slots[..], head, tail) && Contents() == Window(cells[t := NULL], head, t);
    }

    method PullOldest() returns (obj: Ref)
      requires Valid() && Contents() != []
      modifies this, slots
      ensures Valid() && obj != NULL && (obj, Contents()) == Taken(QueueKind, old(Contents()))
    {
      ghost var cells, was, h := slots[..], head, Up(size, head);
      TakeOldest(cells, head, tail, h);
      obj := Remove(head);
      head := head + 1;
      if head == size { head := 0; }
      assert slots[..] == cells[was := NULL] && head == h;
      assert Laid(slots[..], head, tail) && Contents() == Window(cells[was := NULL], h, tail);
    }

    /** `pop` drops the item `pull` would have returned, if there is one. */
    method Pop() returns (popped: bool)
      requires Valid()
      modifies this, slots
      ensures Valid() && popped == (old(Contents()) != [])
      ensures Contents() == if popped then Taken(kind, old(Contents())).1 else old(Contents())
    {
      if head == tail { return false; }
      match kind {
        case StackKind => PopNewest();
        case QueueKind => PopOldest();
      }
      return true;
    }

    /** Assigning the null object releases what was there. */
    method Drop(index: nat)
      requires slots.Length == size && index < size && slots[index] != NULL
      modifies slots, this`held
      ensures slots[..] == old(slots[..])[index := NULL] && held == old(held) - multiset{old(slots[index])}
    {
      ghost var was := held;
      Assign(index, NULL);
      assert was + multiset{} == was;
    }

    method PopNewest()
      requires Valid() && Contents() != []
      modifies this, slots
      ensures Valid() && Contents() == Taken(StackKind, old(Contents())).1
    {
      ghost var cells, t := slots[..], Down(size, tail);
      TakeNewest(cells, head, tail, t);
      if tail == 0 { tail := size; }
      tail := tail - 1;
      Drop(tail);
      assert slots[..] == cells[t := NULL] && tail == t;
      assert Laid(slots[..], head, tail) && Contents() == Window(cells[t := NULL], head, t);
    }

    method PopOldest()
      requires Valid() && Contents() != []
      modifies this, slots
      ensures Valid() && Contents() == Taken(QueueKind, old(Contents())).1
    {
      ghost var cells, was, h := slots[..], head, Up(size, head);
      TakeOldest(cells, head, tail, h);
      Drop(head);
      head := head + 1;
      if head >= size { head := 0; }
      assert slots[..] == cells[was := NULL] && head == h;
      assert Laid(slots[..], head, tail) && Contents() == Window(cells[was := NULL], h, tail);
    }
  }

  // ---------------------------------------------------------------- the waiting protocol

  /** The ring's contents, the threads waiting in `push` (with what they offer) and in `pull`, the
      threads whose wait may expire, and a record of everything put in and taken out: what `push` was
      called with, by each thread last and by all together, what entered, and what was given back. */
  datatype State = State(
    kind: Kind, size: nat, items: seq<Ref>,
    push: Queue, pull: Queue, offer: map<Tid, Ref>, timed: set<Tid>,
    brought: map<Tid, Ref>, offered: multiset<Ref>, refused: multiset<Ref>,
    entered: seq<Ref>, left: seq<Ref>, pulled: multiset<Ref>, dropped: multiset<Ref>)

  ghost predicate Init(s: State) {
    && s.size >= 2
    && s == State(s.kind, s.size, [], IDLE, IDLE, map[], {}, map[], multiset{}, multiset{},
                  [], [], multiset{}, multiset{})
  }

  datatype Event =
    | Push(t: Tid, x: Ref, timed: bool) | RetryPush(t: Tid) | QuitPush(t: Tid)
    | Pull(t: Tid, timed: bool) | RetryPull(t: Tid) | QuitPull(t: Tid)
    | Pop(t: Tid) | Spurious(t: Tid) | Expire(t: Tid)

  predicate Waits(s: State, t: Tid) { t in s.push.All() || t in s.pull.All() }

  function Timed(s: State, t: Tid, timed: bool): State { if timed then s.(timed := s.timed + {t}) else s }

  predicate Full(s: State) { |s.items| + 1 >= s.size }

  /** The loop of `push`: wait while full, else store the item and wake every puller. */
  function TryPush(s: State, t: Tid, x: Ref): State {
    if Full(s) then s.(push := s.push.Block(t), offer := s.offer[t := x])
    else s.(items := s.items + [x], entered := s.entered + [x], pull := s.pull.WakeAll(), offer := s.offer - {t})
  }

  /** A call of `push` by `t` with the object `x`. */
  function Called(s: State, t: Tid, x: Ref, timed: bool): State {
    Timed(s, t, timed).(brought := s.brought[t := x], offered := s.offered + multiset{x})
  }

  /** A pusher whose wait has expired leaves with its object. */
  function GiveBack(s: State, t: Tid): State
    requires t in s.offer
  {
    s.(push := s.push.Leave(t), offer := s.offer - {t}, refused := s.refused + multiset{s.offer[t]})
  }

  /** One item leaves and one waiting pusher is signalled. */
  ghost predicate Departs(s: State, s': State)
    requires s.items != []
  {
    var (x, rest) := Taken(s.kind, s.items);
    && s.push.Signalled(s'.push)
    && s' == s.(items := rest, left := s.left + [x], push := s'.push, pulled := s'.pulled, dropped := s'.dropped)
  }

  /** The loop of `pull`: take an item, or wait while empty. */
  ghost predicate TryPull(s: State, t: Tid, s': State) {
    if s.items == [] then s' == s.(pull := s.pull.Block(t))
    else
      && Departs(s, s')
      && s'.pulled == s.pulled + multiset{Taken(s.kind, s.items).0} && s'.dropped == s.dropped
  }

  ghost predicate Step(s: State, e: Event, s': State) {
    match e
    case Push(t, x, timed) => !Waits(s, t) && x != NULL && s' == TryPush(Called(s, t, x, timed), t, x)
    case RetryPush(t) => t in s.push.awake && t in s.offer && s' == TryPush(s.(push := s.push.Leave(t)), t, s.offer[t])
    case QuitPush(t) => t in s.push.expired && t in s.offer && s' == GiveBack(s, t)
    case Pull(t, timed) => !Waits(s, t) && TryPull(Timed(s, t, timed), t, s')
    case RetryPull(t) => t in s.pull.awake && TryPull(s.(pull := s.pull.Leave(t)), t, s')
    case QuitPull(t) => t in s.pull.expired && s' == s.(pull := s.pull.Leave(t))
    case Pop(t) =>
      && !Waits(s, t)
      && (s.items == [] ==> s' == s)
      && (s.items != [] ==>
            && Departs(s, s')
            && s'.dropped == s.dropped + multiset{Taken(s.kind, s.items).0} && s'.pulled == s.pulled)
    case Spurious(t) =>
      || (t in s.push.blocked && s' == s.(push := s.push.Wake(t)))
      || (t in s.pull.blocked && s' == s.(pull := s.pull.Wake(t)))
    case Expire(t) =>
      && t in s.timed
      && (|| (t in s.push.blocked && s' == s.(push := s.push.Expire(t)))
          || (t in s.pull.blocked && s' == s.(pull := s.pull.Expire(t))))
  }

  ghost predicate Next(s: State, s': State) { exists e :: Step(s, e, s') }

  ghost predicate Run(run: seq<State>) {
    && run != [] && Init(run[0])
    && forall i | 0 <= i < |run| - 1 :: Next(run[i], run[i + 1])
  }

  // ---------------------------------------------------------------- what every step keeps

  ghost predicate Conserved(s: State) {
    && s.size >= 2 && |s.items| <= s.size - 1
    && multiset(s.entered) == multiset(s.items) + (s.pulled + s.dropped)
    && (s.kind.QueueKind? ==> s.entered == s.left + s.items)
  }

  /** A blocked puller faces an empty ring; a blocked pusher has fewer free places than awakened
      pushers ahead of it, or as many. */
  ghost predicate Woken(s: State) {
    && s.push.Valid() && s.pull.Valid()
    && (s.pull.blocked != {} ==> s.items == [])
    && (s.push.blocked != {} ==> s.size - 1 - |s.items| <= |s.push.awake|)
  }

  /** The objects of all pushers waiting. */
  ghost function Held(offer: map<Tid, Ref>): multiset<Ref> {
    if offer == map[] then multiset{} else var t :| t in offer; multiset{offer[t]} + Held(offer - {t})
  }

  lemma {:induction false} HeldWithout(offer: map<Tid, Ref>, t: Tid)
    requires t in offer
    ensures Held(offer) == multiset{offer[t]} + Held(offer - {t})
  {
    var u :| u in offer && Held(offer) == multiset{offer[u]} + Held(offer - {u});
    if u != t {
      var rest := offer - {u} - {t};
      assert offer - {t} - {u} == rest;
      HeldWithout(offer - {u}, t);
      HeldWithout(offer - {t}, u);
      Exchange(offer[t], offer[u], Held(rest), Held(offer - {u}), Held(offer - {t}));
    }
  }

  lemma Exchange(x: Ref, y: Ref, rest: multiset<Ref>, m: multiset<Ref>, n: multiset<Ref>)
    requires m == multiset{x} + rest && n == multiset{y} + rest
    ensures multiset{y} + m == multiset{x} + n
  {
  }

  lemma HeldWith(offer: map<Tid, Ref>, t: Tid, x: Ref)
    requires t !in offer
    ensures Held(offer[t := x]) == multiset{x} + Held(offer)
  {
    HeldWithout(offer[t := x], t);
    assert offer[t := x] - {t} == offer;
  }

  /** Every object `push` was called with has entered once, is held by its pusher, who waits, or was given
      back; and each pusher waiting holds what it brought. */
  ghost predicate Accounted(s: State) {
    && s.offer.Keys == s.push.All()
    && (forall t | t in s.offer :: t in s.brought && s.offer[t] == s.brought[t])
    && Balanced(s.offered, multiset(s.entered), Held(s.offer), s.refused)
  }

  predicate Balanced(offered: multiset<Ref>, entered: multiset<Ref>, held: multiset<Ref>, refused: multiset<Ref>) {
    offered == entered + held + refused
  }

  ghost predicate Inv(s: State) { Conserved(s) && Woken(s) && Accounted(s) }

  lemma PushAccounted(s: State, t: Tid, x: Ref, timed: bool)
    requires Accounted(s) && s.push.Valid() && t !in s.push.All()
    ensures Accounted(TryPush(Called(s, t, x, timed), t, x))
  {
    if Full(s) { PushWaits(s, t, x, timed); } else { PushEntersAccounted(s, t, x, timed); }
  }

  lemma PushWaits(s: State, t: Tid, x: Ref, timed: bool)
    requires Accounted(s) && s.push.Valid() && t !in s.push.All() && Full(s)
    ensures Accounted(TryPush(Called(s, t, x, timed), t, x))
  {
    BalancedIn(s.offered, multiset(s.entered), Held(s.offer), s.refused, x);
    HeldWith(s.offer, t, x);
    KeysWith(s.offer, t, x);
    QueueBlock(s.push, t);
  }

  lemma KeysWith(offer: map<Tid, Ref>, t: Tid, x: Ref)
    ensures offer[t := x].Keys == offer.Keys + {t}
    ensures t in offer ==> (offer.Keys - {t}) + {t} == offer.Keys
  {
  }

  lemma PushEntersAccounted(s: State, t: Tid, x: Ref, timed: bool)
    requires Accounted(s) && s.push.Valid() && t !in s.push.All() && !Full(s)
    ensures Accounted(TryPush(Called(s, t, x, timed), t, x))
  {
    BalancedIn(s.offered, multiset(s.entered), Held(s.offer), s.refused, x);
    NotThere(s.offer, t);
    OneMore(s.entered, x);
  }

  lemma NotThere(offer: map<Tid, Ref>, t: Tid)
    ensures t !in offer ==> offer - {t} == offer
    ensures t in offer ==> offer[t := offer[t]] == offer
  {
  }

  lemma OneMore(entered: seq<Ref>, x: Ref)
    ensures multiset(entered + [x]) == multiset(entered) + multiset{x}
  {
  }

  lemma BalancedIn(o: multiset<Ref>, e: multiset<Ref>, h: multiset<Ref>, r: multiset<Ref>, x: Ref)
    requires Balanced(o, e, h, r)
    ensures Balanced(o + multiset{x}, e + multiset{x}, h, r) && Balanced(o + multiset{x}, e, multiset{x} + h, r)
  {
  }

  lemma BalancedOut(o: multiset<Ref>, e: multiset<Ref>, h: multiset<Ref>, r: multiset<Ref>, x: Ref, rest: multiset<Ref>)
    requires Balanced(o, e, h, r) && h == multiset{x} + rest
    ensures Balanced(o, e + multiset{x}, rest, r) && Balanced(o, e, rest, r + multiset{x})
  {
  }

  lemma RetryPushAccounted(s: State, t: Tid)
    requires Accounted(s) && s.push.Valid() && t in s.push.awake
    ensures t in s.offer && Accounted(TryPush(s.(push := s.push.Leave(t)), t, s.offer[t]))
  {
    if Full(s) { RetryWaits(s, t); } else { RetryEnters(s, t); }
  }

  lemma RetryWaits(s: State, t: Tid)
    requires Accounted(s) && s.push.Valid() && t in s.offer && Full(s)
    ensures Accounted(TryPush(s.(push := s.push.Leave(t)), t, s.offer[t]))
  {
    QueueLeave(s.push, t);
    QueueBlock(s.push.Leave(t), t);
    NotThere(s.offer, t);
    KeysWith(s.offer, t, s.offer[t]);
  }

  lemma RetryEnters(s: State, t: Tid)
    requires Accounted(s) && s.push.Valid() && t in s.offer && !Full(s)
    ensures Accounted(TryPush(s.(push := s.push.Leave(t)), t, s.offer[t]))
  {
    LeavesAccounted(s, t);
    OneMore(s.entered, s.offer[t]);
  }

  /** A pusher leaves the queue, into the ring or not. */
  lemma LeavesAccounted(s: State, t: Tid)
    requires Accounted(s) && s.push.Valid() && t in s.offer
    ensures var x, offer := s.offer[t], s.offer - {t};
      && offer.Keys == s.push.Leave(t).All()
      && Balanced(s.offered, multiset(s.entered) + multiset{x}, Held(offer), s.refused)
      && Balanced(s.offered, multiset(s.entered), Held(offer), s.refused + multiset{x})
  {
    QueueLeave(s.push, t);
    HeldWithout(s.offer, t);
    BalancedOut(s.offered, multiset(s.entered), Held(s.offer), s.refused, s.offer[t], Held(s.offer - {t}));
  }

  lemma GiveBackAccounted(s: State, t: Tid)
    requires Accounted(s) && s.push.Valid() && t in s.push.expired
    ensures t in s.offer && Accounted(GiveBack(s, t))
  {
    LeavesAccounted(s, t);
  }

  /** All other steps leave the pushers in the queue and their objects alone. */
  lemma OthersAccounted(s: State, e: Event, s': State)
    requires Accounted(s) && s.push.Valid() && Step(s, e, s') && !e.Push? && !e.RetryPush? && !e.QuitPush?
    ensures Accounted(s')
  {
    SamePushers(s, e, s');
  }

  lemma SamePushers(s: State, e: Event, s': State)
    requires s.push.Valid() && Step(s, e, s') && !e.Push? && !e.RetryPush? && !e.QuitPush?
    ensures s'.push.All() == s.push.All() && s'.offer == s.offer && s'.brought == s.brought
    ensures s'.entered == s.entered && s'.offered == s.offered && s'.refused == s.refused
  {
    if s.push.Signalled(s'.push) { QueueWoken(s.push, s'.push); }
    if e.t in s.push.blocked { QueueMove(s.push, e.t); }
  }

  lemma StepAccounted(s: State, e: Event, s': State)
    requires Accounted(s) && s.push.Valid() && Step(s, e, s')
    ensures Accounted(s')
  {
    match e
    case Push(t, x, timed) => PushAccounted(s, t, x, timed);
    case RetryPush(t) => RetryPushAccounted(s, t);
    case QuitPush(t) => GiveBackAccounted(s, t);
    case _ => OthersAccounted(s, e, s');
  }

  lemma TryPushConserved(s: State, t: Tid, x: Ref)
    requires Conserved(s)
    ensures Conserved(TryPush(s, t, x))
  {
    MoveIn(multiset(s.entered), multiset(s.items), s.pulled + s.dropped, x);
    if s.kind.QueueKind? {
      assert s.left + s.items + [x] == s.left + (s.items + [x]);
    }
  }

  lemma MoveIn(e: multiset<Ref>, i: multiset<Ref>, o: multiset<Ref>, x: Ref)
    requires e == i + o
    ensures e + multiset{x} == i + multiset{x} + o
  {
  }

  lemma MoveOut(e: multiset<Ref>, i: multiset<Ref>, o: multiset<Ref>, x: Ref, o': multiset<Ref>)
    requires e == multiset{x} + i + o && o' == o + multiset{x}
    ensures e == i + o'
  {
  }

  lemma OneMoreOut(p: multiset<Ref>, d: multiset<Ref>, x: Ref, p': multiset<Ref>, d': multiset<Ref>)
    requires (p' == p + multiset{x} && d' == d) || (d' == d + multiset{x} && p' == p)
    ensures p' + d' == p + d + multiset{x}
  {
  }

  lemma DepartsConserved(s: State, s': State)
    requires Conserved(s) && s.items != [] && Departs(s, s')
    requires var x := Taken(s.kind, s.items).0;
      || (s'.pulled == s.pulled + multiset{x} && s'.dropped == s.dropped)
      || (s'.dropped == s.dropped + multiset{x} && s'.pulled == s.pulled)
    ensures Conserved(s')
  {
    var (x, rest) := Taken(s.kind, s.items);
    RefsTaken(s.kind, s.items);
    OneMoreOut(s.pulled, s.dropped, x, s'.pulled, s'.dropped);
    MoveOut(multiset(s.entered), multiset(rest), s.pulled + s.dropped, x, s'.pulled + s'.dropped);
    assert multiset(s'.entered) == multiset(s'.items) + (s'.pulled + s'.dropped);
    if s.kind.QueueKind? { FirstMoves(s.left, s.items); }
  }

  lemma FirstMoves(left: seq<Ref>, items: seq<Ref>)
    requires items != []
    ensures left + items == (left + [items[0]]) + items[1..]
  {
  }

  lemma TryPullConserved(s: State, t: Tid, s': State)
    requires Conserved(s) && TryPull(s, t, s')
    ensures Conserved(s')
  {
    if s.items != [] { DepartsConserved(s, s'); }
  }

  lemma StepConserved(s: State, e: Event, s': State)
    requires Conserved(s) && Step(s, e, s')
    ensures Conserved(s')
  {
    match e
    case Push(t, x, timed) => TryPushConserved(Called(s, t, x, timed), t, x);
    case RetryPush(t) => TryPushConserved(s.(push := s.push.Leave(t)), t, s.offer[t]);
    case QuitPush(t) =>
    case Pull(t, timed) => TryPullConserved(Timed(s, t, timed), t, s');
    case RetryPull(t) => TryPullConserved(s.(pull := s.pull.Leave(t)), t, s');
    case QuitPull(t) =>
    case Pop(t) => if s.items != [] { DepartsConserved(s, s'); }
    case Spurious(t) =>
    case Expire(t) =>
  }

  lemma TryPushWoken(s: State, t: Tid, x: Ref)
    requires Woken(s) && t !in s.push.All() && s.size >= 2
    ensures Woken(TryPush(s, t, x))
  {
    QueueBlock(s.push, t);
    QueueWoken(s.pull, s.pull.WakeAll());
  }

  lemma RetryPushWoken(s: State, t: Tid, x: Ref)
    requires Woken(s) && t in s.push.awake && s.size >= 2
    ensures Woken(TryPush(s.(push := s.push.Leave(t)), t, x))
  {
    if Full(s) { PushBlocksAgain(s, t, x); } else { PushEnters(s, t, x); }
  }

  lemma PushBlocksAgain(s: State, t: Tid, x: Ref)
    requires Woken(s) && t in s.push.awake && s.size >= 2 && Full(s)
    ensures Woken(TryPush(s.(push := s.push.Leave(t)), t, x))
  {
    QueueLeave(s.push, t);
    QueueBlock(s.push.Leave(t), t);
  }

  lemma PushEnters(s: State, t: Tid, x: Ref)
    requires Woken(s) && t in s.push.awake && s.size >= 2 && !Full(s)
    ensures Woken(TryPush(s.(push := s.push.Leave(t)), t, x))
  {
    QueueLeave(s.push, t);
    AwakeLeaves(s.push, t);
    QueueWoken(s.pull, s.pull.WakeAll());
  }

  lemma AwakeLeaves(q: Queue, t: Tid)
    requires q.Valid() && t in q.awake
    ensures q.Leave(t).blocked == q.blocked && |q.Leave(t).awake| == |q.awake| - 1
  {
    assert q.Leave(t).awake == q.awake - {t};
  }

  lemma DepartsWoken(s: State, s': State)
    requires Woken(s) && s.items != [] && Departs(s, s')
    ensures Woken(s')
  {
    QueueWoken(s.push, s'.push);
    if s.push.blocked != {} {
      var t :| t in s.push.blocked && s'.push == s.push.Wake(t);
      assert |s'.push.awake| == |s.push.awake| + 1;
    }
  }

  lemma TryPullWoken(s: State, t: Tid, s': State)
    requires Woken(s) && t !in s.pull.All() && TryPull(s, t, s')
    ensures Woken(s')
  {
    if s.items == [] { QueueBlock(s.pull, t); } else { DepartsWoken(s, s'); }
  }

  lemma MoveWoken(s: State, e: Event, s': State)
    requires Woken(s) && (e.Spurious? || e.Expire?) && Step(s, e, s')
    ensures Woken(s')
  {
    if e.t in s.push.blocked && s' != s.(pull := s'.pull) {
      QueueMove(s.push, e.t);
      assert |s.push.Wake(e.t).awake| == |s.push.awake| + 1;
    } else {
      QueueMove(s.pull, e.t);
    }
  }

  lemma StepWoken(s: State, e: Event, s': State)
    requires Inv(s) && Step(s, e, s')
    ensures Woken(s')
  {
    match e
    case Push(t, x, timed) => TryPushWoken(Called(s, t, x, timed), t, x);
    case RetryPush(t) => RetryPushWoken(s, t, s.offer[t]);
    case QuitPush(t) => QueueLeave(s.push, t); QuitKeeps(s.push, t);
    case Pull(t, timed) => TryPullWoken(Timed(s, t, timed), t, s');
    case RetryPull(t) =>
      QueueLeave(s.pull, t);
      TryPullWoken(s.(pull := s.pull.Leave(t)), t, s');
    case QuitPull(t) => QueueLeave(s.pull, t); QuitKeeps(s.pull, t);
    case Pop(t) => if s.items != [] { DepartsWoken(s, s'); }
    case Spurious(t) => MoveWoken(s, e, s');
    case Expire(t) => MoveWoken(s, e, s');
  }

  lemma QuitKeeps(q: Queue, t: Tid)
    requires q.Valid() && t in q.expired
    ensures q.Leave(t).blocked == q.blocked && q.Leave(t).awake == q.awake
  {
  }

  lemma NextKeeps(s: State, s': State)
    requires Inv(s) && Next(s, s')
    ensures Inv(s')
  {
    var e :| Step(s, e, s');
    StepConserved(s, e, s');
    StepWoken(s, e, s');
    StepAccounted(s, e, s');
  }

  lemma {:induction false} RunKeeps(run: seq<State>, k: nat)
    requires Run(run) && k < |run|
    ensures Inv(run[k])
  {
    if k > 0 {
      RunKeeps(run, k - 1);
      NextKeeps(run[k - 1], run[k]);
    }
  }

  // ---------------------------------------------------------------- the promises

  /** In every run each reference `push` was called with has entered, is held by a pusher still waiting, or was
      given back; each one entered is still there, was handed to one puller, or was dropped by `pop`, never
      twice; a queue gives items out in exactly the order they went in. */
  lemma NothingLostOrDoubled(run: seq<State>, k: nat)
    requires Run(run) && k < |run|
    ensures run[k].offered == multiset(run[k].entered) + Held(run[k].offer) + run[k].refused
    ensures run[k].offer.Keys == run[k].push.All()
    ensures multiset(run[k].entered) == multiset(run[k].items) + (run[k].pulled + run[k].dropped)
    ensures run[k].kind.QueueKind? ==> run[k].left <= run[k].entered && run[k].items == run[k].entered[|run[k].left|..]
    ensures |run[k].items| <= run[k].size - 1
  {
    RunKeeps(run, k);
  }

  /** What the threads may do next: a thread that does not wait may call, one that is awake tries again, and one
      whose wait has expired gives up. */
  ghost predicate Due(s: State, e: Event) {
    var waits := e.t in s.push.blocked + s.push.awake + s.push.expired + s.pull.blocked + s.pull.awake + s.pull.expired;
    match e
    case Push(t, x, timed) => !waits && x != NULL
    case RetryPush(t) => t in s.push.awake
    case QuitPush(t) => t in s.push.expired
    case Pull(t, timed) => !waits
    case RetryPull(t) => t in s.pull.awake
    case QuitPull(t) => t in s.pull.expired
    case Pop(t) => !waits
    case Spurious(t) => t in s.push.blocked + s.pull.blocked
    case Expire(t) => t in s.timed && t in s.push.blocked + s.pull.blocked
  }

  /** In every run a step is possible exactly when it is due. */
  lemma StepsExactly(run: seq<State>, k: nat, e: Event)
    requires Run(run) && k < |run|
    ensures (exists s' :: Step(run[k], e, s')) <==> Due(run[k], e)
  {
    RunKeeps(run, k);
    if Due(run[k], e) { var s' := SomeStep(run[k], e); }
  }

  lemma SomeStep(s: State, e: Event) returns (s': State)
    requires Accounted(s) && Due(s, e)
    ensures Step(s, e, s')
  {
    match e
    case Push(t, x, timed) => s' := TryPush(Called(s, t, x, timed), t, x);
    case RetryPush(t) => s' := TryPush(s.(push := s.push.Leave(t)), t, s.offer[t]);
    case QuitPush(t) => s' := GiveBack(s, t);
    case Pull(t, timed) => s' := SomePull(Timed(s, t, timed), t);
    case RetryPull(t) => s' := SomePull(s.(pull := s.pull.Leave(t)), t);
    case QuitPull(t) => s' := s.(pull := s.pull.Leave(t));
    case Pop(t) =>
      s' := s;
      if s.items != [] {
        s' := SomeDeparture(s, s.pulled, s.dropped + multiset{Taken(s.kind, s.items).0});
      }
    case Spurious(t) => s' := if t in s.push.blocked then s.(push := s.push.Wake(t)) else s.(pull := s.pull.Wake(t));
    case Expire(t) => s' := if t in s.push.blocked then s.(push := s.push.Expire(t)) else s.(pull := s.pull.Expire(t));
  }

  lemma SomePull(s: State, t: Tid) returns (s': State)
    ensures TryPull(s, t, s')
  {
    s' := s.(pull := s.pull.Block(t));
    if s.items != [] {
      s' := SomeDeparture(s, s.pulled + multiset{Taken(s.kind, s.items).0}, s.dropped);
    }
  }

  lemma SomeDeparture(s: State, pulled: multiset<Ref>, dropped: multiset<Ref>) returns (s': State)
    requires s.items != []
    ensures Departs(s, s') && s'.pulled == pulled && s'.dropped == dropped
  {
    var (x, rest) := Taken(s.kind, s.items);
    s' := s.(items := rest, left := s.left + [x], pulled := pulled, dropped := dropped);
    if s.push.blocked != {} {
      var t :| t in s.push.blocked;
      s' := s'.(push := s.push.Wake(t));
    }
  }

  /** A pusher, calling or trying again, stores the object that its own call brought, or waits, exactly when the
      ring has no place; one that gives up gets that object back. */
  lemma PushExactly(run: seq<State>, k: nat, e: Event, s': State)
    requires Run(run) && k < |run| && Step(run[k], e, s') && (e.Push? || e.RetryPush? || e.QuitPush?)
    ensures e.t in s'.brought && s'.brought == if e.Push? then run[k].brought[e.t := e.x] else run[k].brought
    ensures s'.offered == if e.Push? then run[k].offered + multiset{e.x} else run[k].offered
    ensures e.QuitPush? ==> s'.items == run[k].items && s'.refused == run[k].refused + multiset{s'.brought[e.t]}
    ensures !e.QuitPush? && |run[k].items| < run[k].size - 1 ==>
      s'.items == run[k].items + [s'.brought[e.t]] && s'.entered == run[k].entered + [s'.brought[e.t]]
    ensures !e.QuitPush? ==> s'.pull == if |run[k].items| < run[k].size - 1 then run[k].pull.WakeAll() else run[k].pull
    ensures !e.QuitPush? && |run[k].items| == run[k].size - 1 ==>
      s'.items == run[k].items && s'.entered == run[k].entered && e.t in s'.push.blocked
  {
    RunKeeps(run, k);
    StepAccounted(run[k], e, s');
  }

  /** Nothing else enters; what leaves is the oldest or the newest, and a puller waits exactly when the ring is
      empty. */
  lemma PullExactly(run: seq<State>, k: nat, e: Event, s': State)
    requires Run(run) && k < |run| && Step(run[k], e, s') && !e.Push? && !e.RetryPush? && !e.QuitPush?
    ensures s'.entered == run[k].entered && s'.offered == run[k].offered && s'.brought == run[k].brought
    ensures e.QuitPull? || e.Spurious? || e.Expire? || run[k].items == [] ==> s'.items == run[k].items
    ensures (e.Pull? || e.RetryPull?) && run[k].items == [] ==> e.t in s'.pull.blocked
    ensures (e.Pull? || e.RetryPull? || e.Pop?) && run[k].items != [] ==>
      var (x, rest) := Taken(run[k].kind, run[k].items);
      && s'.left == run[k].left + [x] && s'.items == rest
      && s'.pulled == run[k].pulled + (if e.Pop? then multiset{} else multiset{x})
      && s'.dropped == run[k].dropped + (if e.Pop? then multiset{x} else multiset{})
      && run[k].push.Signalled(s'.push)
  {
    RunKeeps(run, k);
    SamePushers(run[k], e, s');
  }

  /** No lost wakeup in any run, finite timeouts included: pullers are blocked only while the ring is
      empty, pushers only while awakened pushers can fill the free places, so they are never blocked
      together with nobody awake. */
  lemma NoLostWakeup(run: seq<State>, k: nat)
    requires Run(run) && k < |run|
    ensures run[k].pull.blocked != {} ==> run[k].items == []
    ensures run[k].push.blocked != {} ==> run[k].size - 1 - |run[k].items| <= |run[k].push.awake|
    ensures run[k].push.blocked != {} && run[k].push.awake == {} ==> Full(run[k]) && run[k].pull.blocked == {}
  {
    RunKeeps(run, k);
  }
}
