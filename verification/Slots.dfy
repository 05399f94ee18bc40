/** Reusable counted slots, as kept by `ConditionalLock::getContext` in corelib/condition.cpp and by the
    address-keyed lock tables of corelib/thread.cpp.

    A slot with a positive count is in use for its key; the others are free for reuse.  Slots are
    listed here oldest first, while the source links new ones at the head of its list. */
module Slots {
  import opened Options

  datatype Slot<K> = Slot(key: K, count: nat)

  /** The slot in use for `k` among the first `n`, newest first. */
  function Active<K(==)>(s: seq<Slot<K>>, k: K, n: nat): (r: Option<nat>)
    requires n <= |s|
    ensures r.Some? ==> r.value < n && s[r.value].count > 0 && s[r.value].key == k
    ensures r.None? ==> forall i | 0 <= i < n :: s[i].count == 0 || s[i].key != k
  {
    if n == 0 then None
    else if s[n - 1].count > 0 && s[n - 1].key == k then Some(n - 1)
    else Active(s, k, n - 1)
  }

  /** The oldest free slot from `i` on. */
  function Vacant<K>(s: seq<Slot<K>>, i: nat): (r: Option<nat>)
    requires i <= |s|
    ensures r.Some? ==> i <= r.value < |s| && s[r.value].count == 0
    ensures forall j | i <= j < (if r.Some? then r.value else |s|) :: s[j].count > 0
    decreases |s| - i
  {
    if i == |s| then None else if s[i].count == 0 then Some(i) else Vacant(s, i + 1)
  }

  /** The slots after making one available for `k`, and which one it is: the one in use, else the
      oldest free one, else a new one. */
  function SlotFor<K(==)>(s: seq<Slot<K>>, k: K): (r: (seq<Slot<K>>, nat))
    ensures |s| <= |r.0| && r.1 < |r.0| && r.0[r.1].key == k
    ensures forall i | 0 <= i < |r.0| && i != r.1 :: i < |s| && r.0[i] == s[i]
    ensures r.0[r.1].count > 0 ==> r.1 < |s| && r.0 == s
    ensures r.0[r.1].count == 0 ==> forall i | 0 <= i < |s| :: s[i].count == 0 || s[i].key != k
    ensures r.1 < |s| ==> r.0[r.1].count == s[r.1].count
    ensures |r.0| > |s| ==> |r.0| == |s| + 1 && forall i | 0 <= i < |s| :: s[i].count > 0
  {
    var a := Active(s, k, |s|);
    if a.Some? then (s, a.value)
    else
      var v := Vacant(s, 0);
      if v.Some? then (s[v.value := Slot(k, 0)], v.value) else (s + [Slot(k, 0)], |s|)
  }

  /** The search loop, which goes through the list once. */
  method FindSlot<K(==)>(slots: seq<Slot<K>>, k: K) returns (s: seq<Slot<K>>, at: nat)
    ensures (s, at) == SlotFor(slots, k)
  {
    var free: Option<nat> := None;
    var i := |slots|;
    while i > 0
      invariant 0 <= i <= |slots|
      invariant Active(slots, k, |slots|) == Active(slots, k, i)
      invariant free == Vacant(slots, i)
    {
      i := i - 1;
      if slots[i].count > 0 && slots[i].key == k { return slots, i; }
      if slots[i].count == 0 { free := Some(i); }
    }
    if free.None? {
      return slots + [Slot(k, 0)], |slots|;
    }
    return slots[free.value := Slot(k, 0)], free.value;
  }

  /** No key has two slots in use. */
  ghost predicate OneSlotEach<K(!new)>(s: seq<Slot<K>>) {
    forall i, j | 0 <= i < j < |s| :: s[i].count > 0 && s[j].count > 0 ==> s[i].key != s[j].key
  }

  lemma SlotUnique<K(!new)>(s: seq<Slot<K>>, k: K, i: nat)
    requires OneSlotEach(s) && i < |s| && s[i].count > 0 && s[i].key == k
    ensures Active(s, k, |s|) == Some(i)
  {
    var a := Active(s, k, |s|);
    assert a.Some? && s[a.value].key == s[i].key;
  }

  /** Changing or adding slot `i`, which is not `k`'s, leaves `k` its slot. */
  lemma OthersKeep<K(!new)>(s: seq<Slot<K>>, s': seq<Slot<K>>, i: nat, k: K)
    requires OneSlotEach(s') && |s| <= |s'|
    requires forall j | 0 <= j < |s| && j != i :: s'[j] == s[j]
    requires Active(s, k, |s|).Some? && Active(s, k, |s|).value != i
    ensures Active(s', k, |s'|) == Active(s, k, |s|)
  {
    SlotUnique(s', k, Active(s, k, |s|).value);
  }

  lemma BumpOneSlot<K(!new)>(s: seq<Slot<K>>, c: seq<Slot<K>>, k: K, i: nat)
    requires OneSlotEach(s) && (c, i) == SlotFor(s, k)
    ensures OneSlotEach(c[i := Slot(k, c[i].count + 1)])
  {
    var d := c[i := Slot(k, c[i].count + 1)];
    forall j, m | 0 <= j < m < |d| && d[j].count > 0 && d[m].count > 0 ensures d[j].key != d[m].key {
      if j == i { assert d[m] == s[m]; }
      if m == i { assert d[j] == s[j]; }
    }
  }
}
