/** The chained hash table keyed by name: commoncpp/map.cpp. */
module MapTables {
  import opened Bytes
  import opened BitStrings

  type Id = seq<Byte>

  // ---------------------------------------------------------------- names and buckets

  function Lower(c: Byte): Byte { if 65 <= c <= 90 then c + 32 else c }

  /** `stricmp(a, b) == 0`. */
  predicate SameId(a: Id, b: Id) {
    |a| == |b| && forall i :: 0 <= i < |a| ==> Lower(a[i]) == Lower(b[i])
  }

  /** One character: the 32-bit key shifted left, the character's low five bits added. */
  function KeyStep(key: seq<Bit>, c: Byte): (k: seq<Bit>)
    requires |key| == 32
    ensures |k| == 32
  {
    Xor(Shl(key, 1), Zeros(27) + Bits(c, 5))
  }

  function KeyFrom(key: seq<Bit>, id: Id): (k: seq<Bit>)
    requires |key| == 32
    ensures |k| == 32
    decreases |id|
  {
    if id == [] then key else KeyFrom(KeyStep(key, id[0]), id[1..])
  }

  function Index(id: Id, range: nat): (i: nat)
    requires range > 0
    ensures i < range
  {
    Remainder(FromBits(KeyFrom(Zeros(32), id)), range)
  }

  function Remainder(n: nat, d: nat): (r: nat)
    requires d > 0
    ensures r < d
  {
    if n < d then n else Remainder(n - d, d)
  }

  lemma {:induction false} RemainderIs(n: nat, d: nat)
    requires d > 0
    ensures Remainder(n, d) == n % d
    decreases n
  {
    if n >= d {
      RemainderIs(n - d, d);
      var q, r := (n - d) / d, (n - d) % d;
      assert n == (q + 1) * d + r;
      OneQuotient(n / d, n % d, q + 1, r, d);
    } else {
      OneQuotient(n / d, n % d, 0, n, d);
    }
  }

  lemma OneQuotient(q: int, r: nat, p: int, t: nat, d: nat)
    requires q * d + r == p * d + t && r < d && t < d
    ensures r == t
  {
    AtLeastOnce(p - q, d);
    AtLeastOnce(q - p, d);
    assert (p - q) * d == r - t && (q - p) * d == t - r;
  }

  lemma AtLeastOnce(k: int, d: nat)
    ensures k >= 1 ==> k * d >= d
    ensures k == 0 ==> k * d == 0
  {
    if k >= 1 { assert k * d == (k - 1) * d + d; }
  }

  lemma LowFive(c: Byte)
    ensures Bits(Lower(c), 5) == Bits(c, 5)
  {
    assert Pow2(5) == 32;
    HighIgnored(c, 1, 5);
  }

  lemma {:induction false} KeyIgnoresCase(key: seq<Bit>, a: Id, b: Id)
    requires |key| == 32 && SameId(a, b)
    ensures KeyFrom(key, a) == KeyFrom(key, b)
    decreases |a|
  {
    if a != [] {
      LowFive(a[0]);
      LowFive(b[0]);
      KeyIgnoresCase(KeyStep(key, a[0]), a[1..], b[1..]);
    }
  }

  /** Names equal but for case share a bucket. */
  lemma SameBucket(a: Id, b: Id, range: nat)
    requires range > 0 && SameId(a, b)
    ensures Index(a, range) == Index(b, range)
  {
    KeyIgnoresCase(Zeros(32), a, b);
  }

  /** The same letter of the ASCII alphabet, once as a capital. */
  predicate TwoCases(c: Byte, d: Byte) { (65 <= c <= 90 && d == c + 32) || (65 <= d <= 90 && c == d + 32) }

  /** Names are the same exactly when they differ in nothing but the case of letters. */
  lemma SameIdExactly(a: Id, b: Id)
    ensures SameId(a, b) <==> |a| == |b| && forall i | 0 <= i < |a| :: a[i] == b[i] || TwoCases(a[i], b[i])
  {
    if |a| == |b| {
      forall i | 0 <= i < |a| ensures Lower(a[i]) == Lower(b[i]) <==> a[i] == b[i] || TwoCases(a[i], b[i]) {}
    }
  }

  /** A word shifted as often as characters follow; after 32 shifts nothing is left. */
  function Moved(w: seq<Bit>, n: nat): (m: seq<Bit>)
    requires |w| == 32
    ensures |m| == 32
  {
    Shl(w, if n < 32 then n else 32)
  }

  /** The low five bits of each character, shifted by its distance from the last and added up. */
  function KeySum(id: Id): (k: seq<Bit>)
    ensures |k| == 32
  {
    if id == [] then Zeros(32) else Xor(Moved(Zeros(27) + Bits(id[0], 5), |id| - 1), KeySum(id[1..]))
  }

  lemma {:induction false} KeyIsSum(key: seq<Bit>, id: Id)
    requires |key| == 32
    ensures KeyFrom(key, id) == Xor(Moved(key, |id|), KeySum(id))
    decreases |id|
  {
    if id == [] {
      assert Moved(key, 0) == key == Xor(key, Zeros(32));
    } else {
      KeyIsSum(KeyStep(key, id[0]), id[1..]);
      MovedOnce(key, Zeros(27) + Bits(id[0], 5), |id| - 1, KeySum(id[1..]));
    }
  }

  lemma MovedOnce(key: seq<Bit>, c: seq<Bit>, n: nat, rest: seq<Bit>)
    requires |key| == |c| == |rest| == 32
    ensures Xor(Moved(Xor(Shl(key, 1), c), n), rest) == Xor(Moved(key, n + 1), Xor(Moved(c, n), rest))
  {
  }

  /** The bucket of a name. */
  lemma IndexIsSum(id: Id, range: nat)
    requires range > 0
    ensures Index(id, range) == FromBits(KeySum(id)) % range
  {
    KeyIsSum(Zeros(32), id);
    assert Moved(Zeros(32), |id|) == Zeros(32) && Xor(Zeros(32), KeySum(id)) == KeySum(id);
    RemainderIs(FromBits(KeySum(id)), range);
  }

  /** `MapTable::getIndex`. */
  method GetIndex(id: Id, range: nat) returns (i: nat)
    requires range > 0
    ensures i == Index(id, range)
  {
    var key, n := Zeros(32), 0;
    while n < |id|
      invariant n <= |id| && |key| == 32 && KeyFrom(key, id[n..]) == KeyFrom(Zeros(32), id)
    {
      assert id[n..][1..] == id[n + 1..];
      key := Xor(Shl(key, 1), Zeros(27) + Bits(id[n], 5));
      n := n + 1;
    }
    i := FromBits(key) % range;
    RemainderIs(FromBits(key), range);
  }

  // ---------------------------------------------------------------- lists of objects

  class MapObject {
    const idObject: Id
    var nextObject: MapObject?
    var table: MapTable?
    ghost var chain: nat  // the chain it is on, if any

    constructor (id: Id)
      ensures idObject == id && table == null
    {
      idObject, table, nextObject, chain := id, null, null, 0;
    }

    /** In no table, or in the list of a table in order. */
    ghost predicate InOrder()
      reads this, table, MapTable.Footprint(table)
    {
      table != null ==> table.Valid() && this in table.stored
    }

    /** `MapObject::detach`: out of its table, if it is in one. */
    method Detach()
      requires InOrder()
      modifies this, MapTable.Footprint(table)
      ensures table == null
      ensures old(table) == null ==> nextObject == old(nextObject) && chain == old(chain)
      ensures old(table) != null ==> old(table).Valid() && old(table).stored == Without(old(table.stored), this)
      ensures old(table) != null ==>
        old(table).Free() == old(table.Free()) && old(table).nodes == old(table.nodes) - {this}
    {
      if table == null { return; }
      table.Unlink(this);
    }
  }

  /** A place in a walk through a table: class `MapIndex`. */
  class MapIndex {
    var thisObject: MapObject?

    constructor (obj: MapObject?)
      ensures thisObject == obj
    {
      thisObject := obj;
    }

    /** `MapIndex::operator++`: on to the next object in the order of buckets, or to none. An object in no
        table is left by its old link, if it has one. */
    method Advance()
      requires thisObject != null ==> thisObject.InOrder()
      modifies this
      ensures old(thisObject) == null ==> thisObject == null
      ensures old(thisObject) != null && old(thisObject).table == null ==>
        thisObject == if old(thisObject).nextObject != null then old(thisObject).nextObject else old(thisObject)
      ensures old(thisObject) != null && old(thisObject).table != null ==>
        var all := Rest(old(thisObject).table.chains, 0, old(thisObject).table.range);
        && old(thisObject) in all
        && forall p :: 0 <= p < |all| && all[p] == old(thisObject) ==> thisObject == At(all, p + 1)
    {
      if thisObject == null { return; }
      var obj, t := thisObject, thisObject.table;
      if t != null {
        thisObject := t.Next(obj);
      } else if obj.nextObject != null {
        thisObject := obj.nextObject;
      }
    }
  }

  function At(s: seq<MapObject>, k: nat): MapObject? { if k < |s| then s[k] else null }

  ghost predicate Distinct(s: seq<MapObject>) { forall i, j :: 0 <= i < j < |s| ==> s[i] != s[j] }

  /** `nextObject` links lead from `head` through `s`, all of which are on chain `i` and no other. */
  ghost predicate Linked(head: MapObject?, s: seq<MapObject>, i: nat)
    reads s
  {
    && head == At(s, 0) && Distinct(s)
    && forall k :: 0 <= k < |s| ==> s[k].chain == i && s[k].nextObject == At(s, k + 1)
  }

  type Hash = Id -> nat

  /** The objects of `s` whose bucket is `i`, in order. */
  ghost function Bucket(s: seq<MapObject>, i: nat, h: Hash): seq<MapObject> {
    if s == [] then [] else (if h(s[0].idObject) == i then [s[0]] else []) + Bucket(s[1..], i, h)
  }

  ghost function Without(s: seq<MapObject>, o: MapObject): seq<MapObject> {
    if s == [] then [] else if s[0] == o then Without(s[1..], o) else [s[0]] + Without(s[1..], o)
  }

  /** The newest object with this name, ignoring case: the plain list search. */
  ghost function Search(s: seq<MapObject>, id: Id): MapObject? {
    if s == [] then null else if SameId(s[0].idObject, id) then s[0] else Search(s[1..], id)
  }

  /** Chains `i` to `n - 1` one after another. */
  ghost function Rest(chains: seq<seq<MapObject>>, i: nat, n: nat): seq<MapObject>
    requires n <= |chains|
    decreases n - i
  {
    if i >= n then [] else chains[i] + Rest(chains, i + 1, n)
  }

  // ---------------------------------------------------------------- the table

  /** The table: one chain for each bucket, and the free list as one more chain. */
  class MapTable {
    const range: nat
    const heads: array<MapObject?>
    var count: nat
    ghost const home: Hash
    ghost var chains: seq<seq<MapObject>>
    ghost var nodes: set<MapObject>
    ghost var stored: seq<MapObject>  // newest first

    ghost predicate Shape()
      reads this, heads, nodes
    {
      |chains| == heads.Length && forall i :: 0 <= i < |chains| ==> OnChain(i)
    }

    ghost predicate OnChain(i: nat)
      requires i < |chains| == heads.Length
      reads this, heads, nodes
    {
      (forall k :: 0 <= k < |chains[i]| ==> chains[i][k] in nodes) && Linked(heads[i], chains[i], i)
    }

    method PushAt(i: nat, obj: MapObject)
      requires Shape() && i < heads.Length && obj !in nodes
      modifies this`chains, this`nodes, heads, obj`nextObject, obj`chain
      ensures Shape() && chains == old(chains)[i := [obj] + old(chains[i])] && nodes == old(nodes) + {obj}
    {
      assert OnChain(i);
      obj.nextObject := heads[i];
      obj.chain := i;
      heads[i] := obj;
      chains := chains[i := [obj] + chains[i]];
      nodes := nodes + {obj};
      assert OnChain(i);
      forall j | 0 <= j < |chains| && j != i ensures OnChain(j) {
        assert old(OnChain(j)) && chains[j] == old(chains[j]);
      }
    }

    /** The search in `detach`: the node before `obj`. */
    method Before(i: nat, obj: MapObject) returns (prev: MapObject?, ghost k: nat)
      requires Shape() && i < heads.Length && obj in chains[i]
      ensures k < |chains[i]| && chains[i][k] == obj
      ensures prev == if k == 0 then null else chains[i][k - 1]
    {
      ghost var c := chains[i];
      var node := heads[i];
      assert OnChain(i);
      prev, k := null, 0;
      while node != obj
        invariant 0 <= k <= |c| && node == At(c, k) && obj in c[k..]
        invariant prev == if k == 0 then null else c[k - 1]
        decreases |c| - k
      {
        prev := node;
        node := prev.nextObject;
        k := k + 1;
      }
    }

    /** Take the first node off chain `i`. */
    method CutHead(i: nat, obj: MapObject)
      requires Shape() && i < heads.Length && chains[i] != [] && chains[i][0] == obj
      modifies this`chains, this`nodes, heads
      ensures Shape() && nodes == old(nodes) - {obj} && chains == old(chains)[i := old(chains[i])[1..]]
    {
      assert OnChain(i);
      heads[i] := obj.nextObject;
      chains := chains[i := chains[i][1..]];
      nodes := nodes - {obj};
      assert OnChain(i);
      forall j | 0 <= j < |chains| && j != i ensures OnChain(j) {
        assert old(OnChain(j)) && chains[j] == old(chains[j]);
      }
    }

    /** Take the `k`th node out of chain `i`, `prev` being the one before. */
    method CutAfter(i: nat, prev: MapObject, obj: MapObject, ghost k: nat)
      requires Shape() && i < heads.Length && 0 < k < |chains[i]| && chains[i][k] == obj && chains[i][k - 1] == prev
      modifies this`chains, this`nodes, nodes`nextObject
      ensures Shape() && nodes == old(nodes) - {obj}
      ensures chains == old(chains)[i := old(chains[i])[..k] + old(chains[i])[k + 1..]]
    {
      assert OnChain(i);
      prev.nextObject := obj.nextObject;
      ghost var c := chains[i];
      ghost var d := c[..k] + c[k + 1..];
      chains := chains[i := d];
      nodes := nodes - {obj};
      forall m | 0 <= m < |d| ensures d[m].nextObject == At(d, m + 1) && d[m] in nodes && d[m].chain == i {
        CutPlace(c, k, d, m);
      }
      assert OnChain(i);
      forall j | 0 <= j < |chains| && j != i ensures OnChain(j) {
        assert old(OnChain(j)) && chains[j] == old(chains[j]);
      }
    }

    /** `home` is the bucket index. */
    ghost predicate Hashed() {
      range > 0 && forall id {:trigger Index(id, range)} :: home(id) == Index(id, range)
    }

    ghost predicate Valid()
      reads this, heads, nodes
    {
      && Shape() && heads.Length == range + 1 && Hashed() && Placed(chains, stored, range, home)
      && count == |stored|
      && (forall o :: o in nodes ==> if o in stored then o.table == this else o.table == null && o in chains[range])
      && (forall o :: o in stored ==> o in nodes)
      && (forall k :: 0 <= k < |chains[range]| ==> chains[range][k] !in stored)
    }

    constructor (size: nat)
      requires size > 0
      ensures Valid() && range == size && stored == [] && chains[range] == [] && fresh(heads) && nodes == {}
    {
      range := size;
      heads := new MapObject?[size + 1](_ => null);
      home := (id: Id) => Index(id, size);
      count, stored, nodes, chains := 0, [], {}, seq(size + 1, _ => []);
    }

    method HomeOf(id: Id) returns (idx: nat)
      requires Hashed()
      ensures idx == home(id) && idx < range
    {
      idx := GetIndex(id, range);
    }

    /** `MapTable::getObject` finds what the list search finds. */
    method GetObject(id: Id) returns (obj: MapObject?)
      requires Valid()
      ensures obj == Search(stored, id)
    {
      var idx := HomeOf(id);
      HomeIgnoresCase();
      SearchBucket(stored, id, home);
      obj := SearchChain(idx, id);
    }

    lemma HomeIgnoresCase()
      requires Hashed()
      ensures IgnoresCase(home)
    {
      forall a, b | SameId(a, b) ensures home(a) == home(b) { SameBucket(a, b, range); }
    }

    method SearchChain(i: nat, id: Id) returns (obj: MapObject?)
      requires Shape() && i < heads.Length
      ensures obj == Search(chains[i], id)
    {
      ghost var c, k := chains[i], 0;
      obj := heads[i];
      assert OnChain(i) && c[0..] == c;
      while obj != null
        invariant 0 <= k <= |c| && obj == At(c, k) && Search(c[k..], id) == Search(c, id)
        decreases |c| - k
      {
        if SameId(obj.idObject, id) { return; }
        assert c[k..][1..] == c[k + 1..];
        obj := obj.nextObject;
        k := k + 1;
      }
    }

    /** The free list. */
    ghost function Free(): seq<MapObject>
      requires |chains| == range + 1
      reads this
    {
      chains[range]
    }

    /** `MapObject::detach`, for an object of this table. */
    method Unlink(obj: MapObject)
      requires Valid() && obj in stored
      modifies this, heads, nodes
      ensures Valid() && stored == Without(old(stored), obj) && chains[range] == old(chains[range])
      ensures obj.table == null && nodes == old(nodes) - {obj}
    {
      var idx := HomeOf(obj.idObject);
      BucketMembers(stored, idx, home, obj);
      var prev;
      ghost var k;
      prev, k := Before(idx, obj);
      PlacedCut(chains, stored, range, home, obj, idx, k);
      LeftOver(stored, obj);
      if prev == null { CutHead(idx, obj); } else { CutAfter(idx, prev, obj, k); }
      Record(obj, null, count - 1, Without(stored, obj));
    }

    /** `MapTable::addObject`, once the object is in no table. */
    method Attach(obj: MapObject)
      requires Valid() && obj.table == null && obj !in nodes
      modifies this, heads, obj
      ensures Valid() && stored == [obj] + old(stored) && chains[range] == old(chains[range])
      ensures nodes == old(nodes) + {obj}
    {
      var idx := HomeOf(obj.idObject);
      PlacedPush(chains, stored, range, home, obj, idx);
      assert OnChain(range);
      PushAt(idx, obj);
      Record(obj, this, count + 1, [obj] + stored);
    }

    /** The bookkeeping beside the links. */
    method Record(obj: MapObject, t: MapTable?, n: nat, ghost list: seq<MapObject>)
      requires Shape()
      modifies obj`table, this`count, this`stored
      ensures Shape() && obj.table == t && count == n && stored == list
    {
      obj.table := t;
      count := n;
      stored := list;
      forall j | 0 <= j < |chains| ensures OnChain(j) { assert old(OnChain(j)); }
    }

    /** What a call may change of the table an object is in. */
    static ghost function Footprint(t: MapTable?): set<object>
      reads t
    {
      if t == null then {} else {t, t.heads} + t.nodes
    }

    /** `obj` is in no table, or in a table of its own or this one. */
    ghost predicate MayTake(obj: MapObject)
      reads this, obj, obj.table, if obj.table == null then {} else {obj.table.heads} + obj.table.nodes
    {
      && |chains| == range + 1 && obj !in chains[range]
      && obj.InOrder()
      && (obj.table != null && obj.table != this ==> obj.table.heads != heads && obj.table.nodes !! nodes)
    }

    /** `MapTable::addObject`: an object of this table stays where it is; any other leaves its table first. */
    method AddObject(obj: MapObject)
      requires Valid() && MayTake(obj)
      modifies this, heads, obj, Footprint(obj.table)
      ensures Valid() && chains[range] == old(chains[range]) && obj.table == this
      ensures stored == if old(obj.table) == this then old(stored) else [obj] + old(stored)
      ensures var t := old(obj.table);
        t != null && t != this ==> t.Valid() && t.stored == Without(old(t.stored), obj)
    {
      if obj.table == this { return; }
      obj.Detach();
      Attach(obj);
    }

    /** `MapTable::addFree`: out of its table and onto the free list. */
    method AddFree(obj: MapObject)
      requires Valid() && MayTake(obj)
      modifies this, heads, obj, Footprint(obj.table)
      ensures Valid() && chains[range] == [obj] + old(chains[range]) && obj.table == null
      ensures stored == if old(obj.table) == this then Without(old(stored), obj) else old(stored)
      ensures var t := old(obj.table);
        t != null && t != this ==> t.Valid() && t.stored == Without(old(t.stored), obj)
    {
      obj.Detach();
      PushAt(range, obj);
    }

    /** `MapTable::getFree`: the object freed last. */
    method GetFree() returns (obj: MapObject?)
      requires Valid()
      modifies this, heads
      ensures Valid() && stored == old(stored) && obj == old(At(chains[range], 0))
      ensures obj != null ==> chains[range] == old(chains[range])[1..] && obj !in nodes && obj.table == null
      ensures obj == null ==> chains[range] == old(chains[range])
    {
      assert OnChain(range);
      obj := heads[range];
      if obj != null { CutHead(range, obj); }
    }

    /** The first object on chains `i` to `range - 1`. */
    method FirstFrom(i: nat) returns (obj: MapObject?)
      requires Shape() && heads.Length == range + 1 && i <= range
      ensures obj == At(Rest(chains, i, range), 0)
    {
      obj := null;
      var j := i;
      while obj == null && j < range
        invariant i <= j <= range
        invariant obj == null ==> Rest(chains, i, range) == Rest(chains, j, range)
        invariant obj != null ==> obj == At(Rest(chains, i, range), 0)
      {
        assert OnChain(j);
        obj := heads[j];
        assert Rest(chains, j, range) == chains[j] + Rest(chains, j + 1, range);
        j := j + 1;
      }
    }

    /** `MapTable::getFirst`. */
    method GetFirst() returns (obj: MapObject?)
      requires Valid()
      ensures obj == At(Rest(chains, 0, range), 0)
    {
      obj := heads[0];
      assert OnChain(0) && Rest(chains, 0, range) == chains[0] + Rest(chains, 1, range);
      if obj == null { obj := FirstFrom(0); }
    }

    /** The object after `obj`: next on its chain, or first of the chains after it. */
    method Next(obj: MapObject) returns (next: MapObject?)
      requires Valid() && obj in stored
      ensures var all := Rest(chains, 0, range);
        obj in all && forall p :: 0 <= p < |all| && all[p] == obj ==> next == At(all, p + 1)
    {
      WalkMeetsAll();
      ghost var all := Rest(chains, 0, range);
      ghost var p :| 0 <= p < |all| && all[p] == obj;
      ghost var i, k := Locate(chains, 0, range, p);
      BucketMembers(stored, i, home, obj);
      next := After(obj, i, k);
      assert forall q :: 0 <= q < |all| && all[q] == obj ==> q == p;
    }

    method After(obj: MapObject, ghost i: nat, ghost k: nat) returns (next: MapObject?)
      requires Shape() && Hashed() && heads.Length == range + 1 && i < range && home(obj.idObject) == i
      requires k < |chains[i]| && chains[i][k] == obj
      ensures next == if k + 1 < |chains[i]| then chains[i][k + 1] else At(Rest(chains, i + 1, range), 0)
    {
      assert OnChain(i);
      next := obj.nextObject;
      if next == null {
        var idx := HomeOf(obj.idObject);
        next := FirstFrom(idx + 1);
      }
    }

    /** A walk from `getFirst` with `++` meets every stored object exactly once, and stops. */
    method Walk() returns (seen: seq<MapObject>)
      requires Valid()
      ensures Distinct(seen) && (forall o :: o in seen <==> o in stored)
    {
      ghost var all := Rest(chains, 0, range);
      WalkMeetsAll();
      seen := [];
      var first := GetFirst();
      var index := new MapIndex(first);
      while index.thisObject != null
        invariant |seen| <= |all| && seen == all[..|seen|] && index.thisObject == At(all, |seen|)
        decreases |all| - |seen|
      {
        seen := seen + [index.thisObject];
        Onward(index, |seen| - 1);
      }
      assert all[..|seen|] == all;
      WalkMeetsAll();
    }

    /** One turn of a walk, from the `p`th object of the table. */
    method Onward(index: MapIndex, ghost p: nat)
      requires Valid() && p < |Rest(chains, 0, range)| && index.thisObject == Rest(chains, 0, range)[p]
      modifies index
      ensures index.thisObject == At(Rest(chains, 0, range), p + 1)
    {
      WalkMeetsAll();
      assert index.thisObject in Rest(chains, 0, range);
      index.Advance();
    }

    lemma WalkMeetsAll()
      requires Valid()
      ensures Distinct(Rest(chains, 0, range)) && (forall o :: o in Rest(chains, 0, range) <==> o in stored)
    {
      RestMembers(chains, stored, 0, range, home);
      forall o | o in stored ensures home(o.idObject) < range { assert home(o.idObject) == Index(o.idObject, range); }
    }
  }

  /** The chain and place of the `p`th object on chains `i` to `n - 1`. */
  lemma {:induction false} Locate(chains: seq<seq<MapObject>>, i: nat, n: nat, p: nat) returns (j: nat, k: nat)
    requires n <= |chains| && p < |Rest(chains, i, n)|
    ensures i <= j < n && k < |chains[j]| && chains[j][k] == Rest(chains, i, n)[p]
    ensures At(Rest(chains, i, n), p + 1) ==
      if k + 1 < |chains[j]| then chains[j][k + 1] else At(Rest(chains, j + 1, n), 0)
    decreases n - i
  {
    if p < |chains[i]| {
      j, k := i, p;
    } else {
      j, k := Locate(chains, i + 1, n, p - |chains[i]|);
    }
  }

  lemma {:induction false} RestMembers(chains: seq<seq<MapObject>>, stored: seq<MapObject>, i: nat, n: nat, h: Hash)
    requires n <= |chains| && Distinct(stored)
    requires forall j :: 0 <= j < n ==> chains[j] == Bucket(stored, j, h)
    ensures Distinct(Rest(chains, i, n))
    ensures forall o :: o in Rest(chains, i, n) <==> o in stored && i <= h(o.idObject) < n
    decreases n - i
  {
    if i < n {
      RestMembers(chains, stored, i + 1, n, h);
      BucketDistinct(stored, i, h);
      forall o: MapObject ensures o in chains[i] <==> o in stored && h(o.idObject) == i {
        BucketMembers(stored, i, h, o);
      }
      var rest := Rest(chains, i + 1, n);
      forall j, k | 0 <= j < |chains[i]| && 0 <= k < |rest| ensures chains[i][j] != rest[k] {
        assert chains[i][j] in chains[i] && rest[k] in rest;
      }
      DistinctConcat(chains[i], rest);
    }
  }

  lemma DistinctConcat(a: seq<MapObject>, b: seq<MapObject>)
    requires Distinct(a) && Distinct(b)
    requires forall j, k :: 0 <= j < |a| && 0 <= k < |b| ==> a[j] != b[k]
    ensures Distinct(a + b)
  {
  }

  ghost predicate IgnoresCase(h: Hash) { forall a, b :: SameId(a, b) ==> h(a) == h(b) }

  // ---------------------------------------------------------------- buckets and the list

  /** Every bucket chains its part of the list, in the list's order. */
  ghost predicate Placed(chains: seq<seq<MapObject>>, stored: seq<MapObject>, range: nat, h: Hash) {
    && |chains| == range + 1 && Distinct(stored)
    && forall i :: 0 <= i < range ==> chains[i] == Bucket(stored, i, h)
  }

  lemma PlacedPush(chains: seq<seq<MapObject>>, stored: seq<MapObject>, range: nat, h: Hash, obj: MapObject, idx: nat)
    requires Placed(chains, stored, range, h) && obj !in stored && idx == h(obj.idObject) && idx < range
    ensures Placed(chains[idx := [obj] + chains[idx]], [obj] + stored, range, h)
  {
    var s := [obj] + stored;
    assert s[1..] == stored;
    forall i | 0 <= i < range ensures Bucket(s, i, h) == if i == idx then [obj] + chains[i] else chains[i] {
      assert Bucket(s, i, h) == (if idx == i then [obj] else []) + Bucket(stored, i, h);
    }
  }

  lemma {:induction false} BucketMembers(s: seq<MapObject>, i: nat, h: Hash, o: MapObject)
    ensures o in Bucket(s, i, h) <==> o in s && h(o.idObject) == i
  {
    if s != [] {
      BucketMembers(s[1..], i, h, o);
      assert o in s <==> o == s[0] || o in s[1..];
    }
  }

  lemma {:induction false} BucketDistinct(s: seq<MapObject>, i: nat, h: Hash)
    requires Distinct(s)
    ensures Distinct(Bucket(s, i, h))
  {
    if s != [] {
      BucketDistinct(s[1..], i, h);
      BucketMembers(s[1..], i, h, s[0]);
    }
  }

  lemma {:induction false} BucketWithout(s: seq<MapObject>, o: MapObject, i: nat, h: Hash)
    ensures Bucket(Without(s, o), i, h) == Without(Bucket(s, i, h), o)
  {
    if s != [] {
      BucketWithout(s[1..], o, i, h);
      var b, c := Bucket(s, i, h), Bucket(s[1..], i, h);
      if h(s[0].idObject) == i { assert b[0] == s[0] && b[1..] == c; } else { assert b == c; }
      if s[0] != o { assert Without(s, o)[1..] == Without(s[1..], o); }
    }
  }

  lemma {:induction false} WithoutAt(s: seq<MapObject>, o: MapObject, k: nat)
    requires Distinct(s) && (k < |s| ==> s[k] == o) && (k >= |s| ==> o !in s)
    ensures Without(s, o) == if k < |s| then s[..k] + s[k + 1..] else s
  {
    if s != [] {
      assert Distinct(s[1..]);
      if k == 0 {
        WithoutAt(s[1..], o, |s|);
      } else {
        WithoutAt(s[1..], o, k - 1);
        assert k < |s| ==> s[..k] == [s[0]] + s[1..][..k - 1];
      }
    }
  }

  lemma PlacedCut(chains: seq<seq<MapObject>>, stored: seq<MapObject>, range: nat, h: Hash,
                  obj: MapObject, idx: nat, k: nat)
    requires Placed(chains, stored, range, h) && obj in stored && idx == h(obj.idObject) && idx < range
    requires k < |chains[idx]| && chains[idx][k] == obj
    ensures Placed(chains[idx := chains[idx][..k] + chains[idx][k + 1..]], Without(stored, obj), range, h)
  {
    LeftOver(stored, obj);
    forall i | 0 <= i < range
      ensures Bucket(Without(stored, obj), i, h) ==
        if i == idx then chains[i][..k] + chains[i][k + 1..] else chains[i]
    {
      BucketWithout(stored, obj, i, h);
      BucketMembers(stored, i, h, obj);
      BucketDistinct(stored, i, h);
      WithoutAt(chains[i], obj, if i == idx then k else |chains[i]|);
    }
  }

  lemma LeftOver(stored: seq<MapObject>, obj: MapObject)
    requires obj in stored && Distinct(stored)
    ensures var left := Without(stored, obj);
      && |left| == |stored| - 1 && Distinct(left)
      && (forall j :: 0 <= j < |left| ==> left[j] in stored && left[j] != obj)
      && (forall j :: 0 <= j < |stored| ==> stored[j] == obj || stored[j] in left)
  {
    var p :| 0 <= p < |stored| && stored[p] == obj;
    WithoutAt(stored, obj, p);
    CutOut(stored, p, stored[..p] + stored[p + 1..]);
  }

  /** What is left when the object at `p` is taken out. */
  lemma CutOut(stored: seq<MapObject>, p: nat, left: seq<MapObject>)
    requires p < |stored| && Distinct(stored) && left == stored[..p] + stored[p + 1..]
    ensures |left| == |stored| - 1 && Distinct(left)
    ensures forall j :: 0 <= j < |left| ==> left[j] in stored && left[j] != stored[p]
    ensures forall j :: 0 <= j < |stored| ==> stored[j] == stored[p] || stored[j] in left
  {
    forall j | 0 <= j < |left| ensures left[j] == stored[if j < p then j else j + 1] {}
    forall j | 0 <= j < |stored| && j != p ensures stored[j] in left {
      assert left[if j < p then j else j - 1] == stored[j];
    }
  }

  lemma CutPlace(c: seq<MapObject>, k: nat, d: seq<MapObject>, m: nat)
    requires k < |c| && d == c[..k] + c[k + 1..] && m < |d| && Distinct(c)
    ensures d[m] != c[k] && d[m] == if m < k then c[m] else c[m + 1]
    ensures At(d, m + 1) == if m + 1 < k then c[m + 1] else At(c, m + 2)
  {
  }

  /** A name finds what any other spelling of it finds, whatever the case of its letters. */
  lemma {:induction false} FoundAlike(s: seq<MapObject>, a: Id, b: Id)
    requires SameId(a, b)
    ensures Search(s, a) == Search(s, b)
  {
    if s != [] {
      assert SameId(s[0].idObject, a) <==> SameId(s[0].idObject, b);
      FoundAlike(s[1..], a, b);
    }
  }

  lemma {:induction false} SearchBucket(s: seq<MapObject>, id: Id, h: Hash)
    requires IgnoresCase(h)
    ensures Search(Bucket(s, h(id), h), id) == Search(s, id)
  {
    if s != [] {
      SearchBucket(s[1..], id, h);
      var i := h(id);
      var b, c := Bucket(s, i, h), Bucket(s[1..], i, h);
      if h(s[0].idObject) == i { assert b[0] == s[0] && b[1..] == c; } else { assert b == c; }
    }
  }
}
