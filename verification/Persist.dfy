/** Persistent object graphs: the archive engine of commoncpp/persist.cpp.

    An object is a class name and a list of fields in the order its own `write` and `read`
    methods use.  The stream is a sequence of tokens, one per engine-level write.  Object and
    class numbers are unsigned 32-bit values, and the largest one marks the null pointer. */
module Persist {
  import opened Options
  import opened Sequences

  // ---------------------------------------------------------------- data model

  type Value = int
  type Ref = nat

  datatype Kind = Data | Link
  datatype Field = Prim(v: Value) | Ptr(to: Option<Ref>)
  datatype Node = Node(cls: string, fields: seq<Field>)

  /** What each registered class reads and writes, field by field. */
  type Schema = map<string, seq<Kind>>
  type Graph = map<Ref, Node>

  datatype Token = Num(n: nat) | Text(s: string) | Datum(v: Value)

  const NULL_OBJECT: nat := 0xffff_ffff
  const WORD: nat := 0x1_0000_0000
  const START := "OBST"
  const FINISH := "OBEN"

  predicate Fits(schema: Schema, n: Node) {
    && n.cls in schema
    && |n.fields| == |schema[n.cls]|
    && forall i | 0 <= i < |n.fields| :: n.fields[i].Prim? <==> schema[n.cls][i].Data?
  }

  predicate FieldsWithin(fs: seq<Field>, dom: set<Ref>) {
    forall i | 0 <= i < |fs| :: fs[i].Ptr? && fs[i].to.Some? ==> fs[i].to.value in dom
  }

  /** Every object is of a registered class, and no pointer dangles. */
  ghost predicate WellFormed(schema: Schema, g: Graph) {
    forall x | x in g :: Fits(schema, g[x]) && FieldsWithin(g[x].fields, g.Keys)
  }

  // ---------------------------------------------------------------- the writer

  datatype Tables = Tables(archive: map<Ref, nat>, classes: map<string, nat>)
  datatype Written = Written(toks: seq<Token>, t: Tables)

  ghost predicate Extends(a: Tables, b: Tables) {
    && (forall x | x in a.archive :: x in b.archive && a.archive[x] == b.archive[x])
    && (forall c | c in a.classes :: c in b.classes && a.classes[c] == b.classes[c])
  }

  /** The class number, followed by the class name the first time the class is met. */
  function WriteClass(t: Tables, cls: string): Written {
    if cls in t.classes then Written([Num(t.classes[cls])], t)
    else
      var id := |t.classes| % WORD;
      Written([Num(id), Text(cls)], t.(classes := t.classes[cls := id]))
  }

  /** A new object takes the number of objects met so far, as an unsigned 32-bit value. */
  function Register(t: Tables, x: Ref): Tables { t.(archive := t.archive[x := |t.archive| % WORD]) }

  ghost function Unseen(g: Graph, t: Tables): nat { |g.Keys - t.archive.Keys| }

  lemma UnseenShrinks(g: Graph, t: Tables, u: Tables)
    requires t.archive.Keys <= u.archive.Keys
    ensures Unseen(g, u) <= Unseen(g, t)
    ensures forall x :: x in g && x !in t.archive && x in u.archive ==> Unseen(g, u) < Unseen(g, t)
  {
    var a, b := g.Keys - u.archive.Keys, g.Keys - t.archive.Keys;
    SubsetSize(a, b);
    forall x | x in g && x !in t.archive && x in u.archive ensures |a| < |b| {
      SubsetSize(a, b - {x});
    }
  }

  lemma {:induction false} SubsetSize<T>(a: set<T>, b: set<T>)
    requires a <= b
    ensures |a| <= |b|
  {
    assert b == a + (b - a);
  }

  function WritePtr(g: Graph, t: Tables, p: Option<Ref>): (w: Written)
    requires forall x | x in g :: FieldsWithin(g[x].fields, g.Keys)
    requires p.Some? ==> p.value in g
    ensures Extends(t, w.t) && (p.Some? ==> p.value in w.t.archive)
    decreases Unseen(g, t), 0
  {
    if p.None? then Written([Num(NULL_OBJECT)], t)
    else if p.value in t.archive then Written([Num(t.archive[p.value])], t)
    else
      var t1 := Register(t, p.value);
      UnseenShrinks(g, t, t1);
      var c := WriteClass(t1, g[p.value].cls);
      var b := WriteFields(g, c.t, g[p.value].fields);
      Written([Num(|t.archive| % WORD)] + c.toks + [Text(START)] + b.toks + [Text(FINISH)], b.t)
  }

  function WriteFields(g: Graph, t: Tables, fs: seq<Field>): (w: Written)
    requires forall x | x in g :: FieldsWithin(g[x].fields, g.Keys)
    requires FieldsWithin(fs, g.Keys)
    ensures Extends(t, w.t) && FieldsWithin(fs, w.t.archive.Keys)
    decreases Unseen(g, t), 1 + |fs|
  {
    if fs == [] then Written([], t)
    else
      var a := match fs[0]
        case Prim(v) => Written([Datum(v)], t)
        case Ptr(q) => WritePtr(g, t, q);
      UnseenShrinks(g, t, a.t);
      var b := WriteFields(g, a.t, fs[1..]);
      assert fs == [fs[0]] + fs[1..];
      Written(a.toks + b.toks, b.t)
  }

  // ---------------------------------------------------------------- the reader

  datatype Error = Malformed | Unregistered | MissingStart | MissingFinish

  datatype Outcome<T> = Ok(value: T) | Fail(error: Error) {
    predicate IsFailure() { Fail? }
    function PropagateFailure<U>(): Outcome<U> requires Fail? { Fail(error) }
    function Extract(): T requires Ok? { value }
  }

  /** `heap` holds the objects allocated so far, `vec` and `names` are the reader's two tables. */
  datatype Reader = Reader(input: seq<Token>, vec: seq<Ref>, names: seq<string>, heap: seq<Node>)

  predicate NodeOk(schema: Schema, n: Node, size: nat) {
    && Fits(schema, n)
    && forall i | 0 <= i < |n.fields| :: n.fields[i].Ptr? && n.fields[i].to.Some? ==> n.fields[i].to.value < size
  }

  ghost predicate ReaderOk(schema: Schema, r: Reader) {
    && (forall i | 0 <= i < |r.vec| :: r.vec[i] < |r.heap|)
    && (forall o | 0 <= o < |r.heap| :: NodeOk(schema, r.heap[o], |r.heap|))
  }

  /** Reading only consumes input and only adds objects; it never changes an object's class. */
  ghost predicate Follows(schema: Schema, r: Reader, s: Reader) {
    && ReaderOk(schema, s)
    && |r.heap| <= |s.heap|
    && forall o | 0 <= o < |r.heap| :: s.heap[o].cls == r.heap[o].cls
  }

  function Blank(schema: Schema, cls: string): (n: Node)
    requires cls in schema
    ensures forall size: nat :: NodeOk(schema, n, size)
  {
    Node(cls, seq(|schema[cls]|, i requires 0 <= i < |schema[cls]| =>
      if schema[cls][i].Data? then Prim(0) else Ptr(None)))
  }

  function TakeNum(r: Reader): Outcome<(Reader, nat)> {
    if r.input == [] || !r.input[0].Num? then Fail(Malformed)
    else Ok((r.(input := r.input[1..]), r.input[0].n))
  }

  function TakeText(r: Reader): Outcome<(Reader, string)> {
    if r.input == [] || !r.input[0].Text? then Fail(Malformed)
    else Ok((r.(input := r.input[1..]), r.input[0].s))
  }

  function ReadClass(r: Reader): Outcome<(Reader, string)> {
    var (r1, id) :- TakeNum(r);
    if id < |r1.names| then Ok((r1, r1.names[id]))
    else
      var (r2, name) :- TakeText(r1);
      Ok((r2.(names := r2.names + [name]), name))
  }

  /** Reads through a pointer variable that currently holds `p`. */
  function ReadPtr(schema: Schema, r: Reader, p: Option<Ref>): (res: Outcome<(Reader, Option<Ref>)>)
    requires ReaderOk(schema, r)
    requires p.Some? ==> p.value < |r.heap|
    ensures res.Ok? ==> Follows(schema, r, res.value.0) && |res.value.0.input| < |r.input|
    ensures res.Ok? && res.value.1.Some? ==> res.value.1.value < |res.value.0.heap|
    decreases |r.input|, 0
  {
    var (r1, id) :- TakeNum(r);
    if id == NULL_OBJECT then Ok((r1, None))
    else if id < |r1.vec| then Ok((r1, Some(r1.vec[id])))
    else
      var (r2, cls) :- ReadClass(r1);
      if p.Some? then
        var r3 :- ReadObject(schema, r2, p.value);
        Ok((r3, p))
      else if cls !in schema then Fail(Unregistered)
      else
        var r3 :- ReadObject(schema, r2.(heap := r2.heap + [Blank(schema, cls)]), |r2.heap|);
        Ok((r3, Some(|r2.heap|)))
  }

  function ReadObject(schema: Schema, r: Reader, o: Ref): (res: Outcome<Reader>)
    requires ReaderOk(schema, r) && o < |r.heap|
    ensures res.Ok? ==> Follows(schema, r, res.value) && |res.value.input| < |r.input|
    decreases |r.input|, 2
  {
    var (r1, mark) :- TakeText(r.(vec := r.vec + [o]));
    if mark != START then Fail(MissingStart)
    else
      var r2 :- ReadFields(schema, r1, o, 0);
      var (r3, mark2) :- TakeText(r2);
      if mark2 != FINISH then Fail(MissingFinish) else Ok(r3)
  }

  /** The object's own `read`: fields i, i+1, ... in class order, each into the field's current value. */
  function ReadFields(schema: Schema, r: Reader, o: Ref, i: nat): (res: Outcome<Reader>)
    requires ReaderOk(schema, r) && o < |r.heap| && i <= |r.heap[o].fields|
    ensures res.Ok? ==> Follows(schema, r, res.value) && |res.value.input| <= |r.input|
    decreases |r.input|, 1
  {
    if i == |r.heap[o].fields| then Ok(r)
    else match r.heap[o].fields[i]
      case Prim(_) =>
        if r.input == [] || !r.input[0].Datum? then Fail(Malformed)
        else
          var r1 := r.(input := r.input[1..]);
          ReadFields(schema, SetField(r1, o, i, Prim(r.input[0].v)), o, i + 1)
      case Ptr(q) =>
        var (r1, q') :- ReadPtr(schema, r, q);
        ReadFields(schema, SetField(r1, o, i, Ptr(q')), o, i + 1)
  }

  function SetField(r: Reader, o: Ref, i: nat, f: Field): Reader
    requires o < |r.heap| && i < |r.heap[o].fields|
  {
    r.(heap := r.heap[o := r.heap[o].(fields := r.heap[o].fields[i := f])])
  }

  // ---------------------------------------------------------------- copies

  function CopyPtr(p: Option<Ref>, a: map<Ref, nat>): Option<Ref>
    requires p.Some? ==> p.value in a
  {
    if p.None? then None else Some(a[p.value])
  }

  function CopyField(f: Field, a: map<Ref, nat>): Field
    requires f.Ptr? && f.to.Some? ==> f.to.value in a
  {
    if f.Prim? then f else Ptr(CopyPtr(f.to, a))
  }

  /** The same class and data, with every pointer renamed by `a`. */
  function CopyOf(n: Node, a: map<Ref, nat>): Node
    requires FieldsWithin(n.fields, a.Keys)
  {
    Node(n.cls, seq(|n.fields|, i requires 0 <= i < |n.fields| => CopyField(n.fields[i], a)))
  }

  // ---------------------------------------------------------------- objects the caller already has

  /** Objects on the heap before the first read, which of them stand for objects of the graph, and whether
      they are a whole structure, in which every pointer that will be read holds an object. */
  datatype Existing = Existing(heap: seq<Node>, place: map<Ref, Ref>, whole: bool)

  /** A pointer that holds an object, and is to point to one, holds the one that stands for it. */
  predicate Agrees(e: Existing, held: Option<Ref>, to: Option<Ref>) {
    to.Some? ==> if held.Some? then to.value in e.place && held.value == e.place[to.value] else !e.whole
  }

  ghost predicate FieldsAgree(e: Existing, held: seq<Field>, fs: seq<Field>, i: nat) {
    forall k | i <= k < |held| && k < |fs| && held[k].Ptr? && fs[k].Ptr? :: Agrees(e, held[k].to, fs[k].to)
  }

  /** Different objects are stood for by different ones, of the same class, whose pointers agree. */
  ghost predicate Suits(g: Graph, e: Existing) {
    && (forall x | x in e.place ::
          && x in g && e.place[x] < |e.heap| && e.heap[e.place[x]].cls == g[x].cls
          && FieldsAgree(e, e.heap[e.place[x]].fields, g[x].fields, 0))
    && forall x, y | x in e.place && y in e.place && x != y :: e.place[x] != e.place[y]
  }

  const NOTHING := Existing([], map[], false)

  // ---------------------------------------------------------------- writer and reader in lock step

  ghost predicate Numbered(t: Tables, n: nat) { forall x | x in t.archive :: t.archive[x] < n }

  /** Where the reader has put each archived object. */
  ghost function Places(t: Tables, vec: seq<Ref>): (a: map<Ref, Ref>)
    requires Numbered(t, |vec|)
    ensures a.Keys == t.archive.Keys
  {
    map x | x in t.archive :: vec[t.archive[x]]
  }

  /** Every object numbered in `u` but not in `t` has its finished copy on the heap. */
  ghost predicate Copied(g: Graph, t: Tables, u: Tables, s: Reader)
    requires Numbered(u, |s.vec|)
  {
    forall x | x in u.archive && x !in t.archive ::
      && x in g && FieldsWithin(g[x].fields, u.archive.Keys)
      && |t.archive| <= u.archive[x] && s.vec[u.archive[x]] < |s.heap|
      && s.heap[s.vec[u.archive[x]]] == CopyOf(g[x], Places(u, s.vec))
  }

  /** No object has two numbers, and new objects are numbered in the order of their allocation. */
  ghost predicate Distinct(n: nat, vec: seq<Ref>) {
    forall i, j | 0 <= i < j < |vec| :: vec[i] != vec[j] && (n <= vec[i] && n <= vec[j] ==> vec[i] < vec[j])
  }

  /** Existing objects not met yet are as they were, and every other object not existing before has a number;
      over a whole structure there is none. */
  ghost predicate HeapLaid(e: Existing, vec: seq<Ref>, heap: seq<Node>) {
    && |e.heap| <= |heap| && (e.whole ==> |e.heap| == |heap|)
    && (forall o | |e.heap| <= o < |heap| :: o in vec)
    && (forall o | 0 <= o < |e.heap| && o !in vec :: heap[o] == e.heap[o])
  }

  /** Objects are new or where they belong, and what stands for an object to come has no number. */
  ghost predicate PlacesLaid(e: Existing, t: Tables, vec: seq<Ref>)
    requires Numbered(t, |vec|)
  {
    && (forall x | x in t.archive ::
          |e.heap| <= vec[t.archive[x]] || (x in e.place && vec[t.archive[x]] == e.place[x]))
    && (forall x | x in e.place && x !in t.archive :: e.place[x] !in vec)
  }

  /** Both sides have met the same objects and classes and gave them the same numbers. */
  ghost predicate InStep(schema: Schema, e: Existing, t: Tables, r: Reader) {
    && ReaderOk(schema, r)
    && |r.vec| == |t.archive| && Numbered(t, |r.vec|)
    && Distinct(|e.heap|, r.vec) && HeapLaid(e, r.vec, r.heap) && PlacesLaid(e, t, r.vec)
    && |r.names| == |t.classes| <= |t.archive|
    && (forall c | c in t.classes :: t.classes[c] < |r.names| && r.names[t.classes[c]] == c)
  }

  lemma ArchiveGrows(t: Tables, u: Tables)
    requires Extends(t, u)
    ensures |t.archive| <= |u.archive|
  {
    SubsetSize(t.archive.Keys, u.archive.Keys);
    assert |t.archive.Keys| == |t.archive| && |u.archive.Keys| == |u.archive|;
  }

  lemma PlacesStable(t: Tables, u: Tables, v: seq<Ref>, w: seq<Ref>)
    requires Extends(t, u) && v <= w && Numbered(t, |v|) && Numbered(u, |w|)
    ensures forall x | x in t.archive :: x in u.archive && Places(t, v)[x] == Places(u, w)[x]
  {
  }

  lemma CopyStable(n: Node, a: map<Ref, Ref>, b: map<Ref, Ref>)
    requires FieldsWithin(n.fields, a.Keys) && forall x | x in a :: x in b && a[x] == b[x]
    ensures FieldsWithin(n.fields, b.Keys) && CopyOf(n, a) == CopyOf(n, b)
  {
  }

  /** Reading on leaves finished copies alone. */
  lemma CopiedTrans(g: Graph, t: Tables, u: Tables, v: Tables, s: Reader, f: Reader)
    requires Numbered(u, |s.vec|) && Numbered(v, |f.vec|) && s.vec <= f.vec
    requires Copied(g, t, u, s) && Copied(g, u, v, f) && |t.archive| <= |u.archive| && Extends(u, v)
    requires |s.heap| <= |f.heap|
    requires forall i | |t.archive| <= i < |s.vec| && s.vec[i] < |s.heap| :: f.heap[s.vec[i]] == s.heap[s.vec[i]]
    ensures Copied(g, t, v, f)
  {
    PlacesStable(u, v, s.vec, f.vec);
    forall x | x in v.archive && x !in t.archive
      ensures x in g && FieldsWithin(g[x].fields, v.archive.Keys)
      ensures |t.archive| <= v.archive[x] && f.vec[v.archive[x]] < |f.heap|
      ensures f.heap[f.vec[v.archive[x]]] == CopyOf(g[x], Places(v, f.vec))
    {
      if x in u.archive {
        CopyStable(g[x], Places(u, s.vec), Places(v, f.vec));
      }
    }
  }

  lemma ClassInStep(schema: Schema, t: Tables, r: Reader, cls: string, rest: seq<Token>)
    requires |r.names| == |t.classes| < WORD
    requires forall c | c in t.classes :: t.classes[c] < |r.names| && r.names[t.classes[c]] == c
    requires r.input == WriteClass(t, cls).toks + rest
    ensures ReadClass(r).Ok?
    ensures var s := ReadClass(r).value.0; var u := WriteClass(t, cls).t;
      && ReadClass(r).value.1 == cls
      && s == r.(input := rest, names := s.names)
      && |s.names| == |u.classes| <= |t.classes| + 1 && u.archive == t.archive
      && forall c | c in u.classes :: u.classes[c] < |s.names| && s.names[u.classes[c]] == c
  {
    if cls in t.classes {
      assert r.input[1..] == rest;
    } else {
      assert r.input[1..][1..] == rest;
    }
  }

  /** What one pointer's worth of reading must achieve on the tokens the writer produced for it: the objects
      met before are left alone, those met now are copied. */
  ghost predicate Tracks(schema: Schema, g: Graph, e: Existing, t: Tables, u: Tables, r: Reader, s: Reader) {
    && InStep(schema, e, u, s)
    && r.vec <= s.vec && |r.heap| <= |s.heap|
    && (forall i | 0 <= i < |r.vec| && r.vec[i] < |r.heap| :: s.heap[r.vec[i]] == r.heap[r.vec[i]])
    && Copied(g, t, u, s)
  }

  /** Where a new object goes: into the object held, if there is one. */
  function Target(r: Reader, held: Option<Ref>): Ref { if held.Some? then held.value else |r.heap| }

  /** The reader after the header of a new object, which is entered in the tables. */
  function Opened(schema: Schema, r: Reader, cls: string, held: Option<Ref>): Reader
    requires cls in schema && r.input != []
  {
    r.(heap := if held.Some? then r.heap else r.heap + [Blank(schema, cls)],
       vec := r.vec + [Target(r, held)], input := r.input[1..])
  }

  /** The header of a new object, up to its start marker. */
  lemma HeaderRead(schema: Schema, t: Tables, r: Reader, x: Ref, cls: string, c: Written, body: seq<Token>)
    returns (q: Reader)
    requires |r.names| == |t.classes| < WORD && x !in t.archive
    requires forall n | n in t.classes :: t.classes[n] < |r.names| && r.names[t.classes[n]] == n
    requires c == WriteClass(Register(t, x), cls)
    requires r.input == [Num(|t.archive|)] + c.toks + [Text(START)] + body
    ensures ReadClass(r.(input := r.input[1..])) == Ok((q, cls))
    ensures q == r.(input := [Text(START)] + body, names := q.names)
    ensures |q.names| == |c.t.classes| <= |t.classes| + 1 && c.t.archive == Register(t, x).archive
    ensures forall n | n in c.t.classes :: c.t.classes[n] < |q.names| && q.names[c.t.classes[n]] == n
  {
    var r1 := r.(input := r.input[1..]);
    assert r1.input == c.toks + ([Text(START)] + body) by {
      assert r.input == [Num(|t.archive|)] + (c.toks + ([Text(START)] + body));
    }
    ClassInStep(schema, Register(t, x), r1, cls, [Text(START)] + body);
    q := ReadClass(r1).value.0;
  }

  lemma OpenedInStep(schema: Schema, g: Graph, e: Existing, t: Tables, x: Ref, c: Tables,
                     q: Reader, cls: string, held: Option<Ref>)
    requires ReaderOk(schema, q) && |q.vec| == |t.archive| && Numbered(t, |q.vec|) && cls in schema
    requires Distinct(|e.heap|, q.vec) && HeapLaid(e, q.vec, q.heap) && PlacesLaid(e, t, q.vec)
    requires |q.names| == |c.classes| <= |t.archive| + 1
    requires forall n | n in c.classes :: c.classes[n] < |q.names| && q.names[c.classes[n]] == n
    requires Suits(g, e) && Agrees(e, held, Some(x)) && q.input != []
    requires x !in t.archive && |t.archive| < NULL_OBJECT && c.archive == Register(t, x).archive
    ensures InStep(schema, e, c, Opened(schema, q, cls, held))
  {
    RegisteredBelow(t, x);
    OpenedOk(schema, q, cls, held);
    OpenedLaid(schema, g, e, t, x, c, q, cls, held);
  }

  lemma RegisteredBelow(t: Tables, x: Ref)
    requires x !in t.archive && |t.archive| < NULL_OBJECT
    requires Numbered(t, |t.archive|)
    ensures var u := Register(t, x); |u.archive| == |t.archive| + 1 && Numbered(u, |u.archive|)
  {
    assert Register(t, x).archive.Keys == t.archive.Keys + {x};
  }

  lemma OpenedOk(schema: Schema, q: Reader, cls: string, held: Option<Ref>)
    requires ReaderOk(schema, q) && cls in schema && q.input != [] && (held.Some? ==> held.value < |q.heap|)
    ensures ReaderOk(schema, Opened(schema, q, cls, held))
  {
    var o := Opened(schema, q, cls, held);
    forall k | 0 <= k < |o.heap| ensures NodeOk(schema, o.heap[k], |o.heap|) {
      if k < |q.heap| { assert o.heap[k] == q.heap[k] && NodeOk(schema, q.heap[k], |q.heap|); }
    }
  }

  lemma OpenedLaid(schema: Schema, g: Graph, e: Existing, t: Tables, x: Ref, c: Tables,
                   q: Reader, cls: string, held: Option<Ref>)
    requires cls in schema && q.input != [] && Suits(g, e) && Agrees(e, held, Some(x))
    requires x !in t.archive && |q.vec| == |t.archive| < NULL_OBJECT && c.archive == Register(t, x).archive
    requires Numbered(t, |q.vec|) && Distinct(|e.heap|, q.vec) && HeapLaid(e, q.vec, q.heap) && PlacesLaid(e, t, q.vec)
    requires forall i | 0 <= i < |q.vec| :: q.vec[i] < |q.heap|
    requires Numbered(c, |q.vec| + 1)
    ensures var o := Opened(schema, q, cls, held);
      Distinct(|e.heap|, o.vec) && HeapLaid(e, o.vec, o.heap) && PlacesLaid(e, c, o.vec)
  {
    var o, target := Opened(schema, q, cls, held), Target(q, held);
    DistinctPush(|e.heap|, q.vec, target);
    PushedIn(q.vec, target);
    PlacesPush(g, e, t, x, c, q.vec, target);
  }

  lemma DistinctPush(n: nat, vec: seq<Ref>, o: Ref)
    requires Distinct(n, vec) && o !in vec && (n <= o ==> forall i | 0 <= i < |vec| :: vec[i] < o)
    ensures Distinct(n, vec + [o])
  {
  }

  lemma PushedIn(vec: seq<Ref>, o: Ref)
    ensures forall k :: k in vec + [o] <==> k in vec || k == o
  {
  }

  lemma PlacesPush(g: Graph, e: Existing, t: Tables, x: Ref, c: Tables, vec: seq<Ref>, o: Ref)
    requires Suits(g, e) && Numbered(t, |vec|) && PlacesLaid(e, t, vec)
    requires x !in t.archive && |vec| == |t.archive| < NULL_OBJECT && c.archive == Register(t, x).archive
    requires |e.heap| <= o || (x in e.place && o == e.place[x])
    requires Numbered(c, |vec| + 1)
    ensures PlacesLaid(e, c, vec + [o])
  {
    PushedIn(vec, o);
    forall y | y in e.place && y !in c.archive ensures e.place[y] !in vec + [o] {
      assert y != x && e.place[y] !in vec;
    }
  }

  lemma ReadsNew(schema: Schema, r: Reader, held: Option<Ref>, q: Reader, cls: string, f: Reader, rest: seq<Token>)
    requires ReaderOk(schema, r) && cls in schema && (held.Some? ==> held.value < |r.heap|)
    requires r.input != [] && r.input[0].Num? && |r.vec| <= r.input[0].n < NULL_OBJECT
    requires ReadClass(r.(input := r.input[1..])) == Ok((q, cls))
    requires q.input != [] && q.input[0] == Text(START) && q.heap == r.heap && q.vec == r.vec
    requires ReaderOk(schema, Opened(schema, q, cls, held))
    requires ReadFields(schema, Opened(schema, q, cls, held), Target(r, held), 0) == Ok(f)
    requires f.input == [Text(FINISH)] + rest
    ensures ReadPtr(schema, r, held) == Ok((f.(input := rest), Some(Target(r, held))))
  {
    assert f.input[1..] == rest;
    var b := if held.Some? then q else q.(heap := q.heap + [Blank(schema, cls)]);
    assert b.(vec := b.vec + [Target(r, held)], input := q.input[1..]) == Opened(schema, q, cls, held);
    assert ReadObject(schema, b, Target(r, held)) == Ok(f.(input := rest));
  }

  lemma FitsWord(n: nat)
    requires n < WORD
    ensures n % WORD == n
  {
  }

  lemma Bracket<T>(pre: seq<T>, body: seq<T>, end: seq<T>, rest: seq<T>)
    ensures pre + body + end + rest == pre + (body + (end + rest))
  {
  }

  lemma NewWritten(g: Graph, t: Tables, x: Ref, c: Written, b: Written)
    requires forall x | x in g :: FieldsWithin(g[x].fields, g.Keys)
    requires x in g && x !in t.archive
    requires c == WriteClass(Register(t, x), g[x].cls) && b == WriteFields(g, c.t, g[x].fields)
    ensures WritePtr(g, t, Some(x))
         == Written([Num(|t.archive| % WORD)] + c.toks + [Text(START)] + b.toks + [Text(FINISH)], b.t)
  {
  }

  lemma ReadsKnown(schema: Schema, g: Graph, t: Tables, r: Reader, held: Option<Ref>, p: Option<Ref>, rest: seq<Token>)
    requires ReaderOk(schema, r) && Numbered(t, |r.vec|) && |r.vec| <= NULL_OBJECT
    requires (held.Some? ==> held.value < |r.heap|) && (p.Some? ==> p.value in t.archive)
    requires r.input == [Num(if p.Some? then t.archive[p.value] else NULL_OBJECT)] + rest
    ensures ReadPtr(schema, r, held) == Ok((r.(input := rest), CopyPtr(p, Places(t, r.vec))))
  {
    assert r.input[1..] == rest;
  }

  lemma SameInStep(schema: Schema, g: Graph, e: Existing, t: Tables, r: Reader, rest: seq<Token>)
    requires InStep(schema, e, t, r)
    ensures Tracks(schema, g, e, t, t, r, r.(input := rest))
  {
  }

  /** What was written for `p`, read through a pointer that is null or holds the object that stands for `p`. */
  lemma {:induction false} PtrInStep(schema: Schema, g: Graph, e: Existing, t: Tables, r: Reader,
                                     held: Option<Ref>, p: Option<Ref>, rest: seq<Token>)
    returns (s: Reader)
    requires WellFormed(schema, g) && Suits(g, e) && InStep(schema, e, t, r)
    requires (p.Some? ==> p.value in g) && (held.Some? ==> held.value < |r.heap|)
    requires p.Some? && p.value !in t.archive ==> Agrees(e, held, p)
    requires |WritePtr(g, t, p).t.archive| <= NULL_OBJECT
    requires r.input == WritePtr(g, t, p).toks + rest
    ensures s.input == rest && Tracks(schema, g, e, t, WritePtr(g, t, p).t, r, s)
    ensures ReadPtr(schema, r, held) == Ok((s, CopyPtr(p, Places(WritePtr(g, t, p).t, s.vec))))
    ensures held.Some? && p.Some? && p.value !in t.archive ==> Places(WritePtr(g, t, p).t, s.vec)[p.value] == held.value
    decreases Unseen(g, t), 1
  {
    if p.None? || p.value in t.archive {
      s := r.(input := rest);
      ReadsKnown(schema, g, t, r, held, p, rest);
      SameInStep(schema, g, e, t, r, rest);
    } else {
      s := NewInStep(schema, g, e, t, r, held, p.value, rest);
    }
  }

  /** An object met for the first time is read into the object held, or into a new one. */
  lemma {:induction false} NewInStep(schema: Schema, g: Graph, e: Existing, t: Tables, r: Reader,
                                     held: Option<Ref>, x: Ref, rest: seq<Token>)
    returns (s: Reader)
    requires WellFormed(schema, g) && Suits(g, e) && InStep(schema, e, t, r)
    requires x in g && x !in t.archive && Agrees(e, held, Some(x))
    requires |WritePtr(g, t, Some(x)).t.archive| <= NULL_OBJECT
    requires r.input == WritePtr(g, t, Some(x)).toks + rest
    ensures s.input == rest && Tracks(schema, g, e, t, WritePtr(g, t, Some(x)).t, r, s)
    ensures Places(WritePtr(g, t, Some(x)).t, s.vec)[x] == Target(r, held) < |s.heap|
    ensures ReadPtr(schema, r, held) == Ok((s, Some(Target(r, held))))
    decreases Unseen(g, t), 0
  {
    var w := WritePtr(g, t, Some(x));
    RegisterGrows(g, t, x, w.t);
    var c := WriteClass(Register(t, x), g[x].cls);
    var b := WriteFields(g, c.t, g[x].fields);
    NewWritten(g, t, x, c, b);
    FitsWord(|t.archive|);
    Bracket([Num(|t.archive|)] + c.toks + [Text(START)], b.toks, [Text(FINISH)], rest);
    s := BodyInStep(schema, g, e, t, r, held, x, c, b, rest);
  }

  lemma {:induction false} BodyInStep(schema: Schema, g: Graph, e: Existing, t: Tables, r: Reader, held: Option<Ref>,
                                      x: Ref, c: Written, b: Written, rest: seq<Token>)
    returns (s: Reader)
    requires WellFormed(schema, g) && Suits(g, e) && InStep(schema, e, t, r)
    requires x in g && x !in t.archive && |t.archive| < NULL_OBJECT && |b.t.archive| <= NULL_OBJECT
    requires Agrees(e, held, Some(x))
    requires |Register(t, x).archive| == |t.archive| + 1 && Unseen(g, Register(t, x)) < Unseen(g, t)
    requires c == WriteClass(Register(t, x), g[x].cls) && b == WriteFields(g, c.t, g[x].fields)
    requires r.input == [Num(|t.archive|)] + c.toks + [Text(START)] + (b.toks + ([Text(FINISH)] + rest))
    ensures s.input == rest && Tracks(schema, g, e, t, b.t, r, s)
    ensures x in b.t.archive && Places(b.t, s.vec)[x] == Target(r, held) < |s.heap|
    ensures ReadPtr(schema, r, held) == Ok((s, Some(Target(r, held))))
    decreases Unseen(g, Register(t, x)), 4 + |g[x].fields| + 1
  {
    var close := [Text(FINISH)] + rest;
    var q, o := OpensNew(schema, g, e, t, r, held, x, c, b.toks + close);
    assert g[x].fields[0..] == g[x].fields;
    var f := FieldsInStep(schema, g, e, c.t, o, x, |r.vec|, 0, b, close);
    ReadsNew(schema, r, held, q, g[x].cls, f, rest);
    NewTracks(schema, g, e, t, c.t, b.t, x, r, o, f, rest);
    s := f.(input := rest);
  }

  lemma OpensNew(schema: Schema, g: Graph, e: Existing, t: Tables, r: Reader, held: Option<Ref>,
                 x: Ref, c: Written, body: seq<Token>)
    returns (q: Reader, o: Reader)
    requires WellFormed(schema, g) && Suits(g, e) && InStep(schema, e, t, r)
    requires x in g && x !in t.archive && |t.archive| < NULL_OBJECT && Agrees(e, held, Some(x))
    requires c == WriteClass(Register(t, x), g[x].cls)
    requires r.input == [Num(|t.archive|)] + c.toks + [Text(START)] + body
    ensures ReadClass(r.(input := r.input[1..])) == Ok((q, g[x].cls))
    ensures q == r.(input := [Text(START)] + body, names := q.names) && o == Opened(schema, q, g[x].cls, held)
    ensures o.vec == r.vec + [Target(r, held)] && o.input == body && r.heap <= o.heap
    ensures InStep(schema, e, c.t, o) && Target(r, held) < |o.heap|
    ensures PartCopy(e, o.heap[Target(r, held)], g[x], 0, Places(c.t, o.vec))
  {
    q := HeaderRead(schema, t, r, x, g[x].cls, c, body);
    o := Opened(schema, q, g[x].cls, held);
    OpenedInStep(schema, g, e, t, x, c.t, q, g[x].cls, held);
    OpenedPart(schema, g, e, t, x, r, q, held, Places(c.t, o.vec));
  }

  /** The object about to be read has x's class, and its pointers are null or agree with x's. */
  lemma OpenedPart(schema: Schema, g: Graph, e: Existing, t: Tables, x: Ref, r: Reader, q: Reader, held: Option<Ref>,
                   a: map<Ref, Ref>)
    requires WellFormed(schema, g) && Suits(g, e) && InStep(schema, e, t, r)
    requires x in g && x !in t.archive && Agrees(e, held, Some(x))
    requires q.input != [] && q.heap == r.heap && q.vec == r.vec
    ensures PartCopy(e, Opened(schema, q, g[x].cls, held).heap[Target(r, held)], g[x], 0, a)
  {
    if held.Some? {
      assert held.value == e.place[x] && r.heap[held.value] == e.heap[held.value];
      assert NodeOk(schema, r.heap[held.value], |r.heap|);
    }
  }

  lemma NewTracks(schema: Schema, g: Graph, e: Existing, t: Tables, c: Tables, u: Tables, x: Ref,
                  r: Reader, o: Reader, f: Reader, rest: seq<Token>)
    requires x in g && |t.archive| == |r.vec| < NULL_OBJECT && |c.archive| == |t.archive| + 1
    requires c.archive == Register(t, x).archive && Extends(c, u)
    requires |o.vec| == |r.vec| + 1 && r.vec <= o.vec && Distinct(|e.heap|, o.vec)
    requires |r.heap| <= |o.heap| && r.heap <= o.heap && o.vec[|r.vec|] < |o.heap|
    requires InStep(schema, e, u, f) && Filled(g, c, u, o, f, x, |r.vec|)
    ensures x in u.archive && Places(u, f.vec)[x] == o.vec[|r.vec|] < |f.heap|
    ensures Tracks(schema, g, e, t, u, r, f.(input := rest))
  {
    FitsWord(|t.archive|);
    assert o.vec[|r.vec|] == f.vec[|r.vec|];
    NewCopied(g, t, c, u, x, f, rest);
    OpenedFrame(r, o, f);
    SameInStep(schema, g, e, u, f, rest);
  }

  lemma OpenedFrame(r: Reader, o: Reader, f: Reader)
    requires r.vec <= o.vec && |o.vec| == |r.vec| + 1 && r.heap <= o.heap
    requires |o.heap| <= |f.heap|
    requires forall k | 0 <= k < |o.vec| && k != |r.vec| && o.vec[k] < |o.heap| :: f.heap[o.vec[k]] == o.heap[o.vec[k]]
    ensures forall k | 0 <= k < |r.vec| && r.vec[k] < |r.heap| :: f.heap[r.vec[k]] == r.heap[r.vec[k]]
  {
  }

  lemma NewCopied(g: Graph, t: Tables, c: Tables, u: Tables, x: Ref, f: Reader, rest: seq<Token>)
    requires x in g && x in u.archive && Numbered(u, |f.vec|) && |c.archive| == |t.archive| + 1
    requires c.archive == Register(t, x).archive && u.archive[x] == |t.archive|
    requires Copied(g, c, u, f) && FieldsWithin(g[x].fields, u.archive.Keys) && f.vec[u.archive[x]] < |f.heap|
    requires f.heap[f.vec[u.archive[x]]] == CopyOf(g[x], Places(u, f.vec))
    ensures Copied(g, t, u, f.(input := rest))
  {
  }

  /** Reading through a pointer that holds the object `o` which stands for `x`, when `x` comes for the first time:
      the pointer keeps `o`, `o` becomes x's copy, none is made beside it, and no other object there before
      changes but those that stand for what is first met on the way. For a null or a known object nothing at all
      changes (`ReadsKnown`). */
  lemma InPlace(schema: Schema, g: Graph, e: Existing, t: Tables, r: Reader, x: Ref, o: Ref, rest: seq<Token>)
    returns (s: Reader)
    requires WellFormed(schema, g) && Suits(g, e) && InStep(schema, e, t, r)
    requires x in g && x !in t.archive && x in e.place && o == e.place[x]
    requires |WritePtr(g, t, Some(x)).t.archive| <= NULL_OBJECT
    requires r.input == WritePtr(g, t, Some(x)).toks + rest
    ensures o < |r.heap| <= |s.heap| && o !in r.vec && o in s.vec
    ensures ReadPtr(schema, r, Some(o)) == Ok((s, Some(o))) && s.input == rest
    ensures InStep(schema, e, WritePtr(g, t, Some(x)).t, s)
    ensures var a := Places(WritePtr(g, t, Some(x)).t, s.vec);
      a[x] == o && FieldsWithin(g[x].fields, a.Keys) && s.heap[o] == CopyOf(g[x], a)
    ensures forall k | 0 <= k < |r.heap| && (k in r.vec || k !in s.vec) :: s.heap[k] == r.heap[k]
    ensures forall k | |r.heap| <= k < |s.heap| :: k in s.vec && k != o
  {
    s := NewInStep(schema, g, e, t, r, Some(o), x, rest);
    BesideTheNew(schema, g, e, t, WritePtr(g, t, Some(x)).t, r, s);
  }

  lemma BesideTheNew(schema: Schema, g: Graph, e: Existing, t: Tables, u: Tables, r: Reader, s: Reader)
    requires InStep(schema, e, t, r) && Tracks(schema, g, e, t, u, r, s)
    ensures forall k | 0 <= k < |r.heap| && (k in r.vec || k !in s.vec) :: s.heap[k] == r.heap[k]
  {
    forall k | 0 <= k < |r.heap| && (k in r.vec || k !in s.vec) ensures s.heap[k] == r.heap[k] {
      if k in r.vec {
        var i :| 0 <= i < |r.vec| && r.vec[i] == k;
        assert s.heap[r.vec[i]] == r.heap[r.vec[i]];
      } else if k < |e.heap| {
        assert s.heap[k] == e.heap[k] && r.heap[k] == e.heap[k];
      }
    }
  }

  lemma RegisterGrows(g: Graph, t: Tables, x: Ref, u: Tables)
    requires x in g && x !in t.archive && x in u.archive && Extends(t, u)
    requires |u.archive| <= NULL_OBJECT
    ensures |t.archive| < NULL_OBJECT
    ensures |Register(t, x).archive| == |t.archive| + 1
    ensures Unseen(g, Register(t, x)) < Unseen(g, t)
  {
    var m := Register(t, x).archive;
    assert m.Keys == t.archive.Keys + {x};
    SubsetSize(m.Keys, u.archive.Keys);
    UnseenShrinks(g, t, Register(t, x));
  }

  /** One field: what it adds to the stream is read back as its copy. */
  lemma {:induction false} FieldInStep(schema: Schema, g: Graph, e: Existing, t: Tables, r: Reader,
                                       h: Field, f: Field, a: Written, rest: seq<Token>)
    returns (s: Reader, c: Field)
    requires WellFormed(schema, g) && Suits(g, e) && InStep(schema, e, t, r)
    requires FieldsWithin([f], g.Keys)
    requires (h.Prim? <==> f.Prim?) && (h.Ptr? && h.to.Some? ==> h.to.value < |r.heap|)
    requires h.Ptr? ==> Agrees(e, h.to, f.to)
    requires a == WriteFields(g, t, [f])
    requires |a.t.archive| <= NULL_OBJECT
    requires r.input == a.toks + rest
    ensures s.input == rest && Tracks(schema, g, e, t, a.t, r, s)
    ensures f.Ptr? && f.to.Some? ==> f.to.value in a.t.archive
    ensures c == CopyField(f, Places(a.t, s.vec)) && (c.Ptr? && c.to.Some? ==> c.to.value < |s.heap|)
    ensures if f.Prim? then r.input != [] && r.input[0] == Datum(f.v) && s == r.(input := r.input[1..])
            else ReadPtr(schema, r, h.to) == Ok((s, c.to))
    decreases Unseen(g, t), 2
  {
    if f.Prim? {
      s, c := r.(input := r.input[1..]), f;
    } else {
      var w := WritePtr(g, t, f.to);
      assert a.toks == w.toks;
      s := PtrInStep(schema, g, e, t, r, h.to, f.to, rest);
      c := Ptr(CopyPtr(f.to, Places(w.t, s.vec)));
    }
  }

  lemma FieldsParts(fs: seq<Field>, i: nat, dom: set<Ref>)
    requires i < |fs| && FieldsWithin(fs[i..], dom)
    ensures FieldsWithin([fs[i]], dom) && FieldsWithin(fs[i + 1..], dom) && fs[i..][1..] == fs[i + 1..]
  {
    assert fs[i..][0] == fs[i];
    assert fs[i..][1..] == fs[i + 1..];
  }

  lemma SplitFields(g: Graph, t: Tables, fs: seq<Field>)
    requires forall x | x in g :: FieldsWithin(g[x].fields, g.Keys)
    requires FieldsWithin(fs, g.Keys) && fs != []
    ensures var a := WriteFields(g, t, [fs[0]]); var b := WriteFields(g, a.t, fs[1..]);
      WriteFields(g, t, fs) == Written(a.toks + b.toks, b.t)
  {
    assert [fs[0]][1..] == [];
    var a := if fs[0].Prim? then Written([Datum(fs[0].v)], t) else WritePtr(g, t, fs[0].to);
    assert a.toks + [] == a.toks;
    assert WriteFields(g, t, [fs[0]]) == a;
  }

  /** The copy `n` of `x` holds the copies of fields `..i`; its other pointers are null or agree with x's. */
  ghost predicate PartCopy(e: Existing, n: Node, m: Node, i: nat, a: map<Ref, Ref>) {
    && n.cls == m.cls && i <= |m.fields| == |n.fields|
    && FieldsWithin(m.fields[..i], a.Keys)
    && (forall k | 0 <= k < i :: n.fields[k] == CopyField(m.fields[..i][k], a))
    && FieldsAgree(e, n.fields, m.fields, i)
  }

  lemma WholeCopy(e: Existing, n: Node, m: Node, a: map<Ref, Ref>)
    requires PartCopy(e, n, m, |m.fields|, a)
    ensures FieldsWithin(m.fields, a.Keys) && n == CopyOf(m, a)
  {
    assert m.fields[..|m.fields|] == m.fields;
  }

  lemma PartCopyStep(e: Existing, n: Node, m: Node, i: nat, a: map<Ref, Ref>, b: map<Ref, Ref>, c: Field)
    requires PartCopy(e, n, m, i, a) && (forall x | x in a :: x in b && a[x] == b[x]) && i < |m.fields|
    requires m.fields[i].Ptr? && m.fields[i].to.Some? ==> m.fields[i].to.value in b
    requires c == CopyField(m.fields[i], b)
    ensures PartCopy(e, n.(fields := n.fields[i := c]), m, i + 1, b)
  {
    assert m.fields[..i + 1] == m.fields[..i] + [m.fields[i]];
    forall k | 0 <= k < i ensures CopyField(m.fields[..i][k], a) == CopyField(m.fields[..i + 1][k], b) {
      assert m.fields[..i][k] == m.fields[..i + 1][k];
    }
  }

  lemma SetFieldInStep(schema: Schema, e: Existing, t: Tables, r: Reader, o: Ref, i: nat, c: Field)
    requires InStep(schema, e, t, r) && o in r.vec && i < |r.heap[o].fields|
    requires c.Prim? <==> r.heap[o].fields[i].Prim?
    requires c.Ptr? && c.to.Some? ==> c.to.value < |r.heap|
    ensures InStep(schema, e, t, SetField(r, o, i, c))
  {
    var s := SetField(r, o, i, c);
    forall k | 0 <= k < |s.heap| ensures NodeOk(schema, s.heap[k], |s.heap|) {
      assert NodeOk(schema, r.heap[k], |r.heap|);
    }
  }

  lemma ReadFieldsStep(schema: Schema, r: Reader, s: Reader, o: Ref, i: nat, c: Field)
    requires ReaderOk(schema, r) && o < |r.heap| <= |s.heap| && s.heap[o] == r.heap[o] && i < |r.heap[o].fields|
    requires ReaderOk(schema, SetField(s, o, i, c))
    requires var h := r.heap[o].fields[i];
      if h.Prim? then r.input != [] && r.input[0].Datum? && c == Prim(r.input[0].v) && s == r.(input := r.input[1..])
      else (h.to.Some? ==> h.to.value < |r.heap|) && c.Ptr? && ReadPtr(schema, r, h.to) == Ok((s, c.to))
    ensures ReadFields(schema, r, o, i) == ReadFields(schema, SetField(s, o, i, c), o, i + 1)
  {
  }

  /** Field `i` of `x`, read into its copy, the object with number `n`. */
  lemma {:induction false} NextInStep(schema: Schema, g: Graph, e: Existing, t: Tables, r: Reader,
                                      x: Ref, n: nat, i: nat, a: Written, rest: seq<Token>)
    returns (s: Reader)
    requires x in g && n < |r.vec| && r.vec[n] < |r.heap| && Numbered(t, |r.vec|)
    requires PartCopy(e, r.heap[r.vec[n]], g[x], i, Places(t, r.vec)) && i < |g[x].fields|
    requires WellFormed(schema, g) && Suits(g, e) && InStep(schema, e, t, r)
    requires FieldsWithin([g[x].fields[i]], g.Keys)
    requires a == WriteFields(g, t, [g[x].fields[i]]) && |a.t.archive| <= NULL_OBJECT
    requires r.input == a.toks + rest
    ensures s.input == rest && InStep(schema, e, a.t, s) && r.vec <= s.vec && |r.heap| <= |s.heap|
    ensures PartCopy(e, s.heap[r.vec[n]], g[x], i + 1, Places(a.t, s.vec))
    ensures forall k | 0 <= k < |r.vec| && k != n :: s.heap[r.vec[k]] == r.heap[r.vec[k]]
    ensures Copied(g, t, a.t, s)
    ensures ReadFields(schema, r, r.vec[n], i) == ReadFields(schema, s, r.vec[n], i + 1)
    decreases Unseen(g, t), 3
  {
    var f, o := g[x].fields[i], r.vec[n];
    var h := r.heap[o].fields[i];
    HeldField(schema, g, e, r, x, o, i, Places(t, r.vec));
    var s', c := FieldInStep(schema, g, e, t, r, h, f, a, rest);
    SameObject(r, s', n, o);
    s := SetField(s', o, i, c);
    FieldFilled(schema, g, e, t, a.t, r, s', s, x, n, o, i, c);
    ReadFieldsStep(schema, r, s', o, i, c);
  }

  lemma SameObject(r: Reader, s: Reader, n: nat, o: Ref)
    requires n < |r.vec| && o == r.vec[n] < |r.heap| <= |s.heap|
    requires forall i | 0 <= i < |r.vec| && r.vec[i] < |r.heap| :: s.heap[r.vec[i]] == r.heap[r.vec[i]]
    ensures s.heap[o] == r.heap[o]
  {
  }

  /** What a field to be read holds. */
  lemma HeldField(schema: Schema, g: Graph, e: Existing, r: Reader, x: Ref, o: Ref, i: nat, a: map<Ref, Ref>)
    requires x in g && o < |r.heap| && PartCopy(e, r.heap[o], g[x], i, a) && i < |g[x].fields|
    requires Fits(schema, g[x]) && ReaderOk(schema, r)
    ensures var h, f := r.heap[o].fields[i], g[x].fields[i];
      && (h.Prim? <==> f.Prim?) && (h.Ptr? && h.to.Some? ==> h.to.value < |r.heap|)
      && (h.Ptr? ==> Agrees(e, h.to, f.to))
  {
    assert NodeOk(schema, r.heap[o], |r.heap|);
  }

  /** The copy of one more field is stored. */
  lemma FieldFilled(schema: Schema, g: Graph, e: Existing, t: Tables, u: Tables, r: Reader, s: Reader, f: Reader,
                    x: Ref, n: nat, o: Ref, i: nat, c: Field)
    requires n < |r.vec| && o == r.vec[n] < |r.heap| <= |s.heap|
    requires x in g && i < |g[x].fields| == |s.heap[o].fields|
    requires Numbered(t, |r.vec|) && Numbered(u, |s.vec|)
    requires PartCopy(e, r.heap[o], g[x], i, Places(t, r.vec)) && s.heap[o] == r.heap[o]
    requires g[x].fields[i].Ptr? && g[x].fields[i].to.Some? ==> g[x].fields[i].to.value in u.archive
    requires c == CopyField(g[x].fields[i], Places(u, s.vec))
    requires c.Prim? <==> s.heap[o].fields[i].Prim?
    requires c.Ptr? && c.to.Some? ==> c.to.value < |s.heap|
    requires f == SetField(s, o, i, c)
    requires Extends(t, u) && Tracks(schema, g, e, t, u, r, s) && |r.vec| == |t.archive|
    requires forall k | 0 <= k < |r.vec| :: r.vec[k] < |r.heap|
    ensures InStep(schema, e, u, f) && PartCopy(e, f.heap[o], g[x], i + 1, Places(u, f.vec))
    ensures f.input == s.input && r.vec <= f.vec && |r.heap| <= |f.heap|
    ensures forall k | 0 <= k < |r.vec| && k != n :: f.heap[r.vec[k]] == r.heap[r.vec[k]]
    ensures Copied(g, t, u, f)
  {
    assert o == s.vec[n];
    SetFieldInStep(schema, e, u, s, o, i, c);
    PlacesStable(t, u, r.vec, s.vec);
    PartCopyStep(e, r.heap[o], g[x], i, Places(t, r.vec), Places(u, s.vec), c);
    FilledFrame(r, s, n, i, c);
    CopiedBeside(g, t, u, |e.heap|, s, n, i, c);
  }

  lemma FilledFrame(r: Reader, s: Reader, n: nat, i: nat, c: Field)
    requires n < |r.vec| <= |s.vec| && r.vec <= s.vec && |r.heap| <= |s.heap|
    requires (forall k | 0 <= k < |r.vec| :: r.vec[k] < |r.heap|) && i < |s.heap[r.vec[n]].fields|
    requires forall j, k | 0 <= j < k < |s.vec| :: s.vec[j] != s.vec[k]
    requires forall k | 0 <= k < |r.vec| && r.vec[k] < |r.heap| :: s.heap[r.vec[k]] == r.heap[r.vec[k]]
    ensures var f := SetField(s, r.vec[n], i, c);
      && f.heap[r.vec[n]] == r.heap[r.vec[n]].(fields := r.heap[r.vec[n]].fields[i := c])
      && forall k | 0 <= k < |r.vec| && k != n :: f.heap[r.vec[k]] == r.heap[r.vec[k]]
  {
  }

  /** Filling in the object with an earlier number leaves the new copies alone. */
  lemma CopiedBeside(g: Graph, t: Tables, u: Tables, size: nat, s: Reader, n: nat, i: nat, c: Field)
    requires n < |t.archive| && n < |s.vec| && s.vec[n] < |s.heap| && i < |s.heap[s.vec[n]].fields|
    requires Numbered(u, |s.vec|) && Distinct(size, s.vec) && Copied(g, t, u, s)
    ensures Copied(g, t, u, SetField(s, s.vec[n], i, c))
  {
  }

  /** All of `x` is read into the object with number `n`; nothing else that was met before has changed. */
  ghost predicate Filled(g: Graph, t: Tables, u: Tables, r: Reader, f: Reader, x: Ref, n: nat)
    requires x in g && n < |r.vec|
  {
    && r.vec <= f.vec && |r.heap| <= |f.heap| && Numbered(u, |f.vec|)
    && (forall k | 0 <= k < |r.vec| && k != n && r.vec[k] < |r.heap| :: f.heap[r.vec[k]] == r.heap[r.vec[k]])
    && Copied(g, t, u, f)
    && FieldsWithin(g[x].fields, u.archive.Keys)
    && f.vec[n] < |f.heap| && f.heap[f.vec[n]] == CopyOf(g[x], Places(u, f.vec))
  }

  lemma FilledTrans(g: Graph, t: Tables, a: Tables, u: Tables, r: Reader, s: Reader, f: Reader, x: Ref, n: nat)
    requires x in g && n < |r.vec| == |t.archive| <= |a.archive| && Extends(a, u)
    requires r.vec <= s.vec && |r.heap| <= |s.heap| && Numbered(a, |s.vec|)
    requires forall k | 0 <= k < |r.vec| && k != n && r.vec[k] < |r.heap| :: s.heap[r.vec[k]] == r.heap[r.vec[k]]
    requires forall j, k | 0 <= j < k < |f.vec| :: f.vec[j] != f.vec[k]
    requires Copied(g, t, a, s)
    requires Filled(g, a, u, s, f, x, n)
    ensures Filled(g, t, u, r, f, x, n)
  {
    CopiedTrans(g, t, a, u, s, f);
  }

  lemma {:induction false} FieldsInStep(schema: Schema, g: Graph, e: Existing, t: Tables, r: Reader,
                                        x: Ref, n: nat, i: nat, w: Written, rest: seq<Token>)
    returns (f: Reader)
    requires WellFormed(schema, g) && Suits(g, e) && InStep(schema, e, t, r)
    requires x in g && n < |r.vec| && PartCopy(e, r.heap[r.vec[n]], g[x], i, Places(t, r.vec))
    requires FieldsWithin(g[x].fields[i..], g.Keys)
    requires w == WriteFields(g, t, g[x].fields[i..]) && |w.t.archive| <= NULL_OBJECT
    requires r.input == w.toks + rest
    ensures ReadFields(schema, r, r.vec[n], i) == Ok(f) && f.input == rest
    ensures InStep(schema, e, w.t, f) && Filled(g, t, w.t, r, f, x, n)
    decreases Unseen(g, t), 4 + |g[x].fields| - i, 1
  {
    if i == |g[x].fields| {
      WholeCopy(e, r.heap[r.vec[n]], g[x], Places(t, r.vec));
      f := r;
    } else {
      f := ConsInStep(schema, g, e, t, r, x, n, i, w, rest);
    }
  }

  lemma {:induction false} ConsInStep(schema: Schema, g: Graph, e: Existing, t: Tables, r: Reader,
                                      x: Ref, n: nat, i: nat, w: Written, rest: seq<Token>)
    returns (f: Reader)
    requires WellFormed(schema, g) && Suits(g, e) && InStep(schema, e, t, r)
    requires x in g && n < |r.vec| && i < |g[x].fields|
    requires PartCopy(e, r.heap[r.vec[n]], g[x], i, Places(t, r.vec))
    requires FieldsWithin(g[x].fields[i..], g.Keys)
    requires w == WriteFields(g, t, g[x].fields[i..]) && |w.t.archive| <= NULL_OBJECT
    requires r.input == w.toks + rest
    ensures ReadFields(schema, r, r.vec[n], i) == Ok(f) && f.input == rest
    ensures InStep(schema, e, w.t, f) && Filled(g, t, w.t, r, f, x, n)
    decreases Unseen(g, t), 4 + |g[x].fields| - i, 0
  {
    var fs := g[x].fields;
    FieldsParts(fs, i, g.Keys);
    SplitFields(g, t, fs[i..]);
    var a := WriteFields(g, t, [fs[i]]);
    var b := WriteFields(g, a.t, fs[i + 1..]);
    assert w == Written(a.toks + b.toks, b.t);
    Assoc(a.toks, b.toks, rest);
    ArchiveGrows(t, a.t);
    ArchiveGrows(a.t, b.t);
    UnseenShrinks(g, t, a.t);
    var s := NextInStep(schema, g, e, t, r, x, n, i, a, b.toks + rest);
    f := FieldsInStep(schema, g, e, a.t, s, x, n, i + 1, b, rest);
    FilledTrans(g, t, a.t, b.t, r, s, f, x, n);
  }

  // ---------------------------------------------------------------- first-visit order

  ghost function Unvisited(g: Graph, order: seq<Ref>): nat { |g.Keys - (set x | x in order)| }

  lemma UnvisitedShrinks(g: Graph, a: seq<Ref>, b: seq<Ref>)
    requires a <= b
    ensures Unvisited(g, b) <= Unvisited(g, a)
    ensures forall x :: x in g && x !in a && x in b ==> Unvisited(g, b) < Unvisited(g, a)
  {
    var s, t := g.Keys - (set x | x in b), g.Keys - (set x | x in a);
    SubsetSize(s, t);
    forall x | x in g && x !in a && x in b ensures |s| < |t| {
      SubsetSize(s, t - {x});
    }
  }

  /** Depth-first order of first visits, extending the visits already made. */
  ghost function Visit(g: Graph, order: seq<Ref>, p: Option<Ref>): (o: seq<Ref>)
    requires forall x | x in g :: FieldsWithin(g[x].fields, g.Keys)
    requires p.Some? ==> p.value in g
    ensures order <= o
    decreases Unvisited(g, order), 0
  {
    if p.None? || p.value in order then order
    else
      UnvisitedShrinks(g, order, order + [p.value]);
      VisitFields(g, order + [p.value], g[p.value].fields)
  }

  ghost function VisitFields(g: Graph, order: seq<Ref>, fs: seq<Field>): (o: seq<Ref>)
    requires forall x | x in g :: FieldsWithin(g[x].fields, g.Keys)
    requires FieldsWithin(fs, g.Keys)
    ensures order <= o
    decreases Unvisited(g, order), 1 + |fs|
  {
    if fs == [] then order
    else
      var o := if fs[0].Prim? then order else Visit(g, order, fs[0].to);
      UnvisitedShrinks(g, order, o);
      VisitFields(g, o, fs[1..])
  }

  /** `a` gives each object its place in `order`. */
  ghost predicate Numbers(a: map<Ref, nat>, order: seq<Ref>) {
    && |a| == |order|
    && (forall k | 0 <= k < |order| :: order[k] in a && a[order[k]] == k)
    && (forall x | x in a :: a[x] < |order| && order[a[x]] == x)
  }

  lemma {:induction false} PtrNumbers(g: Graph, t: Tables, order: seq<Ref>, p: Option<Ref>)
    requires forall x | x in g :: FieldsWithin(g[x].fields, g.Keys)
    requires p.Some? ==> p.value in g
    requires Numbers(t.archive, order) && |WritePtr(g, t, p).t.archive| <= NULL_OBJECT
    ensures Numbers(WritePtr(g, t, p).t.archive, Visit(g, order, p))
    decreases Unseen(g, t), 0
  {
    if p.Some? && p.value !in t.archive {
      var x := p.value;
      assert x !in order;
      RegisterGrows(g, t, x, WritePtr(g, t, p).t);
      RegisterNumbers(t, order, x);
      FieldsNumber(g, WriteClass(Register(t, x), g[x].cls).t, order + [x], g[x].fields);
    }
  }

  lemma RegisterNumbers(t: Tables, order: seq<Ref>, x: Ref)
    requires Numbers(t.archive, order) && x !in t.archive && |t.archive| < NULL_OBJECT
    requires |Register(t, x).archive| == |t.archive| + 1
    ensures Numbers(Register(t, x).archive, order + [x])
  {
  }

  lemma {:induction false} FieldsNumber(g: Graph, t: Tables, order: seq<Ref>, fs: seq<Field>)
    requires forall x | x in g :: FieldsWithin(g[x].fields, g.Keys)
    requires FieldsWithin(fs, g.Keys)
    requires Numbers(t.archive, order) && |WriteFields(g, t, fs).t.archive| <= NULL_OBJECT
    ensures Numbers(WriteFields(g, t, fs).t.archive, VisitFields(g, order, fs))
    decreases Unseen(g, t), 1 + |fs|
  {
    if fs != [] {
      var u, o := t, order;
      if fs[0].Ptr? {
        u, o := WritePtr(g, t, fs[0].to).t, Visit(g, order, fs[0].to);
      }
      ArchiveGrows(u, WriteFields(g, u, fs[1..]).t);
      if fs[0].Ptr? {
        PtrNumbers(g, t, order, fs[0].to);
        UnseenShrinks(g, t, u);
      }
      FieldsNumber(g, u, o, fs[1..]);
    }
  }

  // ---------------------------------------------------------------- nothing beyond what is reachable

  ghost predicate Closed(g: Graph, s: set<Ref>) {
    s <= g.Keys && forall x | x in s :: FieldsWithin(g[x].fields, s)
  }

  lemma {:induction false} PtrStaysIn(g: Graph, t: Tables, p: Option<Ref>, s: set<Ref>)
    requires forall x | x in g :: FieldsWithin(g[x].fields, g.Keys)
    requires Closed(g, s) && t.archive.Keys <= s && (p.Some? ==> p.value in s)
    ensures WritePtr(g, t, p).t.archive.Keys <= s
    decreases Unseen(g, t), 0
  {
    if p.Some? && p.value !in t.archive {
      var x := p.value;
      UnseenShrinks(g, t, Register(t, x));
      assert Register(t, x).archive.Keys <= s;
      FieldsStayIn(g, WriteClass(Register(t, x), g[x].cls).t, g[x].fields, s);
    }
  }

  lemma {:induction false} FieldsStayIn(g: Graph, t: Tables, fs: seq<Field>, s: set<Ref>)
    requires forall x | x in g :: FieldsWithin(g[x].fields, g.Keys)
    requires FieldsWithin(fs, g.Keys)
    requires Closed(g, s) && t.archive.Keys <= s && FieldsWithin(fs, s)
    ensures WriteFields(g, t, fs).t.archive.Keys <= s
    decreases Unseen(g, t), 1 + |fs|
  {
    if fs != [] {
      var u := t;
      if fs[0].Ptr? {
        PtrStaysIn(g, t, fs[0].to, s);
        u := WritePtr(g, t, fs[0].to).t;
        UnseenShrinks(g, t, u);
      }
      FieldsStayIn(g, u, fs[1..], s);
    }
  }

  // ---------------------------------------------------------------- how often each text is written

  ghost function Texts(toks: seq<Token>, s: string): nat {
    if toks == [] then 0 else (if toks[0] == Text(s) then 1 else 0) + Texts(toks[1..], s)
  }

  lemma {:induction false} TextsConcat(a: seq<Token>, b: seq<Token>, s: string)
    ensures Texts(a + b, s) == Texts(a, s) + Texts(b, s)
  {
    if a == [] {
      assert a + b == b;
    } else {
      assert (a + b)[1..] == a[1..] + b;
      TextsConcat(a[1..], b, s);
    }
  }

  /** Occurrences of `Text(s)` owed for going from tables `t` to tables `u`: once for a class met
      for the first time, and one start and one end marker for each object met for the first time. */
  ghost function Owed(t: Tables, u: Tables, s: string): int {
    (if s in u.classes && s !in t.classes then 1 else 0)
    + (if s == START then |u.archive| - |t.archive| else 0)
    + (if s == FINISH then |u.archive| - |t.archive| else 0)
  }

  lemma OwedAdd(t: Tables, u: Tables, v: Tables, s: string)
    requires Extends(t, u) && Extends(u, v)
    ensures Owed(t, v, s) == Owed(t, u, s) + Owed(u, v, s)
  {
  }

  lemma ClassTexts(t: Tables, cls: string, s: string)
    ensures var c := WriteClass(t, cls);
      Texts(c.toks, s) == if s in c.t.classes && s !in t.classes then 1 else 0
  {
    var c := WriteClass(t, cls);
    if cls in t.classes {
      assert c.toks[1..] == [];
    } else {
      assert c.toks[1..] == [Text(cls)] && [Text(cls)][1..] == [];
      assert Texts([Text(cls)], s) == if s == cls then 1 else 0;
      assert s in c.t.classes && s !in t.classes <==> s == cls;
    }
  }

  lemma BracketTexts(n: nat, c: seq<Token>, b: seq<Token>, s: string)
    ensures Texts([Num(n)] + c + [Text(START)] + b + [Text(FINISH)], s)
         == Texts(c, s) + Texts(b, s) + (if s == START then 1 else 0) + (if s == FINISH then 1 else 0)
  {
    TextsConcat([Num(n)], c, s);
    TextsConcat([Num(n)] + c, [Text(START)], s);
    TextsConcat([Num(n)] + c + [Text(START)], b, s);
    TextsConcat([Num(n)] + c + [Text(START)] + b, [Text(FINISH)], s);
  }

  lemma {:induction false} PtrTexts(g: Graph, t: Tables, p: Option<Ref>, s: string)
    requires forall x | x in g :: FieldsWithin(g[x].fields, g.Keys)
    requires p.Some? ==> p.value in g
    ensures Texts(WritePtr(g, t, p).toks, s) == Owed(t, WritePtr(g, t, p).t, s)
    decreases Unseen(g, t), 1
  {
    if p.Some? && p.value !in t.archive {
      NewTexts(g, t, p.value, s);
    } else {
      assert WritePtr(g, t, p).toks[1..] == [];
    }
  }

  lemma {:induction false} NewTexts(g: Graph, t: Tables, x: Ref, s: string)
    requires forall x | x in g :: FieldsWithin(g[x].fields, g.Keys)
    requires x in g && x !in t.archive
    ensures Texts(WritePtr(g, t, Some(x)).toks, s) == Owed(t, WritePtr(g, t, Some(x)).t, s)
    decreases Unseen(g, t), 0
  {
    UnseenShrinks(g, t, Register(t, x));
    var c := WriteClass(Register(t, x), g[x].cls);
    var b := WriteFields(g, c.t, g[x].fields);
    FieldsTexts(g, c.t, g[x].fields, s);
    HeaderTexts(t, x, c, g[x].cls, s);
    OwedAdd(t, c.t, b.t, s);
    BracketTexts(|t.archive| % WORD, c.toks, b.toks, s);
    NewWritten(g, t, x, c, b);
  }

  lemma HeaderTexts(t: Tables, x: Ref, c: Written, cls: string, s: string)
    requires x !in t.archive && c == WriteClass(Register(t, x), cls)
    ensures Extends(t, c.t)
    ensures Owed(t, c.t, s) == Texts(c.toks, s) + (if s == START then 1 else 0) + (if s == FINISH then 1 else 0)
  {
    assert Register(t, x).archive.Keys == t.archive.Keys + {x};
    ClassTexts(Register(t, x), cls, s);
  }

  lemma {:induction false} FieldsTexts(g: Graph, t: Tables, fs: seq<Field>, s: string)
    requires forall x | x in g :: FieldsWithin(g[x].fields, g.Keys)
    requires FieldsWithin(fs, g.Keys)
    ensures Texts(WriteFields(g, t, fs).toks, s) == Owed(t, WriteFields(g, t, fs).t, s)
    decreases Unseen(g, t), 2 + |fs|
  {
    if fs != [] {
      var a := Written([Datum(0)], t);
      if fs[0].Ptr? {
        PtrTexts(g, t, fs[0].to, s);
        a := WritePtr(g, t, fs[0].to);
        UnseenShrinks(g, t, a.t);
      } else {
        a := Written([Datum(fs[0].v)], t);
        assert a.toks[1..] == [];
      }
      assert Texts(a.toks, s) == Owed(t, a.t, s);
      FieldsTexts(g, a.t, fs[1..], s);
      TextsAdd(t, a, WriteFields(g, a.t, fs[1..]), s);
    }
  }

  lemma TextsAdd(t: Tables, a: Written, b: Written, s: string)
    requires Extends(t, a.t) && Extends(a.t, b.t)
    requires Texts(a.toks, s) == Owed(t, a.t, s) && Texts(b.toks, s) == Owed(a.t, b.t, s)
    ensures Texts(a.toks + b.toks, s) == Owed(t, b.t, s)
  {
    OwedAdd(t, a.t, b.t, s);
    TextsConcat(a.toks, b.toks, s);
  }

  // ---------------------------------------------------------------- whole sessions

  predicate RootsIn(roots: seq<Option<Ref>>, s: set<Ref>) {
    forall i | 0 <= i < |roots| :: roots[i].Some? ==> roots[i].value in s
  }

  /** Successive calls of `write` on one engine. */
  function WriteAll(g: Graph, t: Tables, roots: seq<Option<Ref>>): (w: Written)
    requires forall x | x in g :: FieldsWithin(g[x].fields, g.Keys)
    requires RootsIn(roots, g.Keys)
    ensures Extends(t, w.t) && RootsIn(roots, w.t.archive.Keys)
    decreases |roots|
  {
    if roots == [] then Written([], t)
    else
      var a := WritePtr(g, t, roots[0]);
      var b := WriteAll(g, a.t, roots[1..]);
      assert roots == [roots[0]] + roots[1..];
      Written(a.toks + b.toks, b.t)
  }

  /** Successive calls of `read` on one engine, each through a pointer that holds what `held` says. */
  function ReadAll(schema: Schema, r: Reader, held: seq<Option<Ref>>): (res: Outcome<(Reader, seq<Option<Ref>>)>)
    requires ReaderOk(schema, r) && HeldIn(held, |r.heap|)
    decreases |held|
  {
    if held == [] then Ok((r, []))
    else
      var (s, p) :- ReadPtr(schema, r, held[0]);
      var (f, ps) :- ReadAll(schema, s, held[1..]);
      Ok((f, [p] + ps))
  }

  predicate HeldIn(held: seq<Option<Ref>>, n: nat) {
    forall i | 0 <= i < |held| :: held[i].Some? ==> held[i].value < n
  }

  /** Pointers that hold nothing. */
  function Nulls(n: nat): (held: seq<Option<Ref>>)
    ensures |held| == n && (forall m :: HeldIn(held, m)) && forall i | 0 <= i < n :: held[i].None?
  {
    seq(n, _ => None)
  }

  ghost function VisitAll(g: Graph, order: seq<Ref>, roots: seq<Option<Ref>>): seq<Ref>
    requires forall x | x in g :: FieldsWithin(g[x].fields, g.Keys)
    requires RootsIn(roots, g.Keys)
    decreases |roots|
  {
    if roots == [] then order else VisitAll(g, Visit(g, order, roots[0]), roots[1..])
  }

  const NO_TABLES := Tables(map[], map[])

  /** A fresh engine, with what the caller has on the heap. */
  function ReaderOver(input: seq<Token>, heap: seq<Node>): Reader { Reader(input, [], [], heap) }

  function FreshReader(input: seq<Token>): Reader { ReaderOver(input, []) }

  ghost predicate RootsAgree(e: Existing, held: seq<Option<Ref>>, roots: seq<Option<Ref>>) {
    |held| == |roots| && forall i | 0 <= i < |roots| :: Agrees(e, held[i], roots[i])
  }

  ghost predicate CopiesOf(copies: seq<Option<Ref>>, roots: seq<Option<Ref>>, a: map<Ref, Ref>) {
    && |copies| == |roots| && RootsIn(roots, a.Keys)
    && forall i | 0 <= i < |roots| :: copies[i] == CopyPtr(roots[i], a)
  }

  lemma CopiesCons(roots: seq<Option<Ref>>, a: map<Ref, Ref>, b: map<Ref, Ref>, ps: seq<Option<Ref>>)
    requires roots != [] && (forall x | x in a :: x in b && a[x] == b[x])
    requires (roots[0].Some? ==> roots[0].value in a) && CopiesOf(ps, roots[1..], b)
    ensures CopiesOf([CopyPtr(roots[0], a)] + ps, roots, b)
  {
    assert forall i | 0 < i < |roots| :: roots[i] == roots[1..][i - 1];
  }

  lemma {:induction false} AllInStep(schema: Schema, g: Graph, e: Existing, t: Tables, r: Reader,
                                     held: seq<Option<Ref>>, roots: seq<Option<Ref>>)
    returns (f: Reader, ps: seq<Option<Ref>>)
    requires WellFormed(schema, g) && Suits(g, e) && InStep(schema, e, t, r)
    requires RootsIn(roots, g.Keys) && HeldIn(held, |r.heap|) && RootsAgree(e, held, roots)
    requires |WriteAll(g, t, roots).t.archive| <= NULL_OBJECT
    requires r.input == WriteAll(g, t, roots).toks
    ensures ReadAll(schema, r, held) == Ok((f, ps)) && f.input == []
    ensures Tracks(schema, g, e, t, WriteAll(g, t, roots).t, r, f)
    ensures CopiesOf(ps, roots, Places(WriteAll(g, t, roots).t, f.vec)) && Kept(g, t, held, roots, ps)
    decreases |roots|, 1
  {
    if roots == [] {
      f, ps := r, [];
    } else {
      var a := WritePtr(g, t, roots[0]);
      f, ps := ConsAllInStep(schema, g, e, t, r, held, roots, a, WriteAll(g, a.t, roots[1..]));
    }
  }

  lemma {:induction false} ConsAllInStep(schema: Schema, g: Graph, e: Existing, t: Tables, r: Reader,
                                         held: seq<Option<Ref>>, roots: seq<Option<Ref>>, a: Written, b: Written)
    returns (f: Reader, ps: seq<Option<Ref>>)
    requires WellFormed(schema, g) && Suits(g, e) && InStep(schema, e, t, r)
    requires roots != [] && RootsIn(roots, g.Keys) && HeldIn(held, |r.heap|) && RootsAgree(e, held, roots)
    requires a == WritePtr(g, t, roots[0]) && b == WriteAll(g, a.t, roots[1..]) && |b.t.archive| <= NULL_OBJECT
    requires r.input == a.toks + b.toks
    ensures ReadAll(schema, r, held) == Ok((f, ps)) && f.input == []
    ensures Tracks(schema, g, e, t, b.t, r, f)
    ensures CopiesOf(ps, roots, Places(b.t, f.vec)) && Kept(g, t, held, roots, ps)
    decreases |roots|, 0
  {
    ArchiveGrows(t, a.t);
    ArchiveGrows(a.t, b.t);
    RootsTail(e, held, roots, g.Keys, |r.heap|);
    var s := PtrInStep(schema, g, e, t, r, held[0], roots[0], b.toks);
    var ps';
    f, ps' := AllInStep(schema, g, e, a.t, s, held[1..], roots[1..]);
    var p := CopyPtr(roots[0], Places(a.t, s.vec));
    ps := [p] + ps';
    ReadAllCons(schema, r, s, p, f, ps', held);
    JoinAll(schema, g, e, t, a.t, b.t, r, s, f, held, roots, p, ps');
  }

  lemma RootsTail(e: Existing, held: seq<Option<Ref>>, roots: seq<Option<Ref>>, dom: set<Ref>, n: nat)
    requires roots != [] && RootsIn(roots, dom) && HeldIn(held, n) && RootsAgree(e, held, roots)
    ensures RootsIn(roots[1..], dom) && RootsAgree(e, held[1..], roots[1..])
    ensures forall m | m >= n :: HeldIn(held[1..], m)
    ensures (roots[0].Some? ==> roots[0].value in dom) && (held[0].Some? ==> held[0].value < n)
    ensures Agrees(e, held[0], roots[0])
  {
  }

  /** The first pointer read, and then the others. */
  lemma JoinAll(schema: Schema, g: Graph, e: Existing, t: Tables, a: Tables, b: Tables, r: Reader, s: Reader,
                f: Reader, held: seq<Option<Ref>>, roots: seq<Option<Ref>>, p: Option<Ref>, ps: seq<Option<Ref>>)
    requires forall x | x in g :: FieldsWithin(g[x].fields, g.Keys)
    requires roots != [] && RootsIn(roots, g.Keys) && |held| == |roots| && a == WritePtr(g, t, roots[0]).t
    requires Tracks(schema, g, e, t, a, r, s) && Tracks(schema, g, e, a, b, s, f)
    requires |t.archive| <= |a.archive| && Extends(a, b)
    requires CopiesOf(ps, roots[1..], Places(b, f.vec)) && Kept(g, a, held[1..], roots[1..], ps)
    requires (roots[0].Some? ==> roots[0].value in a.archive) && p == CopyPtr(roots[0], Places(a, s.vec))
    requires held[0].Some? && roots[0].Some? && roots[0].value !in t.archive ==> p == held[0]
    ensures Tracks(schema, g, e, t, b, r, f)
    ensures CopiesOf([p] + ps, roots, Places(b, f.vec)) && Kept(g, t, held, roots, [p] + ps)
  {
    TracksTrans(schema, g, e, t, a, b, r, s, f);
    PlacesStable(a, b, s.vec, f.vec);
    CopiesCons(roots, Places(a, s.vec), Places(b, f.vec), ps);
    KeptCons(g, t, held, roots, p, ps);
  }

  lemma ReadAllCons(schema: Schema, r: Reader, s: Reader, p: Option<Ref>, f: Reader, ps: seq<Option<Ref>>,
                    held: seq<Option<Ref>>)
    requires ReaderOk(schema, r) && held != [] && HeldIn(held, |r.heap|)
    requires ReadPtr(schema, r, held[0]) == Ok((s, p)) && ReadAll(schema, s, held[1..]) == Ok((f, ps))
    ensures ReadAll(schema, r, held) == Ok((f, [p] + ps))
  {
  }

  /** A pointer that holds an object, and is the first to lead to what it is to point to, still holds it. */
  ghost predicate Kept(g: Graph, t: Tables, held: seq<Option<Ref>>, roots: seq<Option<Ref>>, ps: seq<Option<Ref>>)
    requires forall x | x in g :: FieldsWithin(g[x].fields, g.Keys)
    requires RootsIn(roots, g.Keys)
  {
    |held| == |ps| == |roots| && forall i | 0 <= i < |roots| :: KeptAt(g, t, held[i], roots, i, ps[i])
  }

  ghost predicate KeptAt(g: Graph, t: Tables, held: Option<Ref>, roots: seq<Option<Ref>>, i: nat, p: Option<Ref>)
    requires forall x | x in g :: FieldsWithin(g[x].fields, g.Keys)
    requires RootsIn(roots, g.Keys) && i < |roots|
  {
    held.Some? && roots[i].Some? && roots[i].value !in WriteAll(g, t, roots[..i]).t.archive ==> p == held
  }

  lemma KeptCons(g: Graph, t: Tables, held: seq<Option<Ref>>, roots: seq<Option<Ref>>,
                 p: Option<Ref>, ps: seq<Option<Ref>>)
    requires forall x | x in g :: FieldsWithin(g[x].fields, g.Keys)
    requires RootsIn(roots, g.Keys) && roots != [] && |held| == |roots|
    requires held[0].Some? && roots[0].Some? && roots[0].value !in t.archive ==> p == held[0]
    requires Kept(g, WritePtr(g, t, roots[0]).t, held[1..], roots[1..], ps)
    ensures Kept(g, t, held, roots, [p] + ps)
  {
    forall i | 0 <= i < |roots| ensures KeptAt(g, t, held[i], roots, i, ([p] + ps)[i]) {
      if i > 0 {
        assert KeptAt(g, WritePtr(g, t, roots[0]).t, held[1..][i - 1], roots[1..], i - 1, ps[i - 1]);
        KeptNext(g, t, held[i], roots, i, ps[i - 1]);
      }
    }
  }

  lemma KeptNext(g: Graph, t: Tables, held: Option<Ref>, roots: seq<Option<Ref>>, i: nat, p: Option<Ref>)
    requires forall x | x in g :: FieldsWithin(g[x].fields, g.Keys)
    requires RootsIn(roots, g.Keys) && 0 < i < |roots|
    requires KeptAt(g, WritePtr(g, t, roots[0]).t, held, roots[1..], i - 1, p)
    ensures KeptAt(g, t, held, roots, i, p)
  {
    assert roots[..i][0] == roots[0] && roots[..i][1..] == roots[1..][..i - 1];
  }

  lemma TracksTrans(schema: Schema, g: Graph, e: Existing, t: Tables, a: Tables, b: Tables,
                    r: Reader, s: Reader, f: Reader)
    requires Tracks(schema, g, e, t, a, r, s) && Tracks(schema, g, e, a, b, s, f)
    requires |t.archive| <= |a.archive| && Extends(a, b)
    ensures Tracks(schema, g, e, t, b, r, f)
  {
    CopiedTrans(g, t, a, b, s, f);
  }

  lemma {:induction false} AllNumbers(g: Graph, t: Tables, order: seq<Ref>, roots: seq<Option<Ref>>)
    requires forall x | x in g :: FieldsWithin(g[x].fields, g.Keys)
    requires RootsIn(roots, g.Keys)
    requires Numbers(t.archive, order) && |WriteAll(g, t, roots).t.archive| <= NULL_OBJECT
    ensures Numbers(WriteAll(g, t, roots).t.archive, VisitAll(g, order, roots))
    decreases |roots|
  {
    if roots != [] {
      var u := WritePtr(g, t, roots[0]).t;
      ArchiveGrows(u, WriteAll(g, u, roots[1..]).t);
      PtrNumbers(g, t, order, roots[0]);
      AllNumbers(g, u, Visit(g, order, roots[0]), roots[1..]);
    }
  }

  lemma {:induction false} AllStayIn(g: Graph, t: Tables, roots: seq<Option<Ref>>, s: set<Ref>)
    requires forall x | x in g :: FieldsWithin(g[x].fields, g.Keys)
    requires RootsIn(roots, g.Keys)
    requires Closed(g, s) && t.archive.Keys <= s && RootsIn(roots, s)
    ensures WriteAll(g, t, roots).t.archive.Keys <= s
    decreases |roots|
  {
    if roots != [] {
      PtrStaysIn(g, t, roots[0], s);
      AllStayIn(g, WritePtr(g, t, roots[0]).t, roots[1..], s);
    }
  }

  /** `s` is exactly what the roots reach: the smallest closed set holding them. */
  ghost predicate Reached(g: Graph, roots: seq<Option<Ref>>, s: set<Ref>) {
    && Closed(g, s) && RootsIn(roots, s)
    && forall c | Closed(g, c) && RootsIn(roots, c) :: s <= c
  }

  /** The numbering is a bijection between the reached part of `g` and `heap` that respects
      classes, data, sharing, cycles and null pointers. */
  ghost predicate Isomorphic(g: Graph, roots: seq<Option<Ref>>, heap: seq<Node>, copies: seq<Option<Ref>>,
                             a: map<Ref, nat>, order: seq<Ref>) {
    && Reached(g, roots, a.Keys)
    && |order| == |heap| && Numbers(a, order)
    && (forall x | x in a :: heap[a[x]] == CopyOf(g[x], a))
    && |copies| == |roots|
    && (forall i | 0 <= i < |roots| :: copies[i] == CopyPtr(roots[i], a))
  }

  /** What was written reads back as an isomorphic graph, under some numbering. */
  ghost predicate Restored(schema: Schema, g: Graph, roots: seq<Option<Ref>>)
    requires WellFormed(schema, g) && RootsIn(roots, g.Keys)
  {
    var res := ReadAll(schema, FreshReader(WriteAll(g, NO_TABLES, roots).toks), Nulls(|roots|));
    res.Ok? && exists a, order :: Isomorphic(g, roots, res.value.0.heap, res.value.1, a, order)
  }

  /** The archive of any pointers into any graph, shared or cyclic, reads back into a fresh engine as
      an isomorphic graph exactly when they reach fewer than 2^32 objects; then all tokens are consumed
      and the objects are numbered in depth-first visit order. */
  lemma RoundTrip(schema: Schema, g: Graph, roots: seq<Option<Ref>>, s: set<Ref>)
    requires WellFormed(schema, g) && RootsIn(roots, g.Keys) && Reached(g, roots, s)
    ensures Restored(schema, g, roots) <==> |s| <= NULL_OBJECT
    ensures |s| <= NULL_OBJECT ==>
      var w := WriteAll(g, NO_TABLES, roots);
      var res := ReadAll(schema, FreshReader(w.toks), Nulls(|roots|));
      && res.Ok? && res.value.0.input == []
      && Isomorphic(g, roots, res.value.0.heap, res.value.1, w.t.archive, VisitAll(g, [], roots))
  {
    if |s| <= NULL_OBJECT {
      SmallRestored(schema, g, roots, s);
    } else if Restored(schema, g, roots) {
      LargeNotRestored(schema, g, roots, s);
      assert false;
    }
  }

  lemma SmallRestored(schema: Schema, g: Graph, roots: seq<Option<Ref>>, s: set<Ref>)
    requires WellFormed(schema, g) && RootsIn(roots, g.Keys) && Reached(g, roots, s) && |s| <= NULL_OBJECT
    ensures var w := WriteAll(g, NO_TABLES, roots);
      var res := ReadAll(schema, FreshReader(w.toks), Nulls(|roots|));
      && res.Ok? && res.value.0.input == []
      && Isomorphic(g, roots, res.value.0.heap, res.value.1, w.t.archive, VisitAll(g, [], roots))
  {
    var w := WriteAll(g, NO_TABLES, roots);
    ArchiveSmall(g, roots, s);
    ReachedIsArchived(g, roots);
    var f, ps := AllInStep(schema, g, NOTHING, NO_TABLES, FreshReader(w.toks), Nulls(|roots|), roots);
    AllNumbers(g, NO_TABLES, [], roots);
    NewHeap(schema, g, roots, w.t, f, ps, VisitAll(g, [], roots));
  }

  lemma NewHeap(schema: Schema, g: Graph, roots: seq<Option<Ref>>, t: Tables, f: Reader,
                ps: seq<Option<Ref>>, order: seq<Ref>)
    requires Reached(g, roots, t.archive.Keys) && Numbers(t.archive, order)
    requires InStep(schema, NOTHING, t, f) && Copied(g, NO_TABLES, t, f) && CopiesOf(ps, roots, Places(t, f.vec))
    ensures Isomorphic(g, roots, f.heap, ps, t.archive, order)
  {
    AllNew(f.vec, |f.heap|);
    PlacesAreNumbers(t, f.vec);
  }

  lemma PlacesAreNumbers(t: Tables, vec: seq<Ref>)
    requires Numbered(t, |vec|) && forall i | 0 <= i < |vec| :: vec[i] == i
    ensures Places(t, vec) == t.archive
  {
  }

  lemma ArchiveSmall(g: Graph, roots: seq<Option<Ref>>, s: set<Ref>)
    requires forall x | x in g :: FieldsWithin(g[x].fields, g.Keys)
    requires RootsIn(roots, g.Keys) && Reached(g, roots, s) && |s| <= NULL_OBJECT
    ensures var a := WriteAll(g, NO_TABLES, roots).t.archive; a.Keys == s && |a| <= NULL_OBJECT
  {
    ReachedIsArchived(g, roots);
    var a := WriteAll(g, NO_TABLES, roots).t.archive;
    assert |a.Keys| == |a|;
  }

  /** With nothing on the heap before, each object's number is its place. */
  lemma AllNew(vec: seq<Ref>, n: nat)
    requires Distinct(0, vec) && (forall i | 0 <= i < |vec| :: vec[i] < n) && forall o | 0 <= o < n :: o in vec
    ensures |vec| == n && forall i | 0 <= i < n :: vec[i] == i
  {
    InOrder(vec, n, |vec|);
    assert |vec| < n ==> |vec| in vec;
  }

  lemma {:induction false} InOrder(vec: seq<Ref>, n: nat, k: nat)
    requires Distinct(0, vec) && (forall i | 0 <= i < |vec| :: vec[i] < n) && forall o | 0 <= o < n :: o in vec
    requires k <= |vec|
    ensures k <= n && forall i | 0 <= i < k :: vec[i] == i
  {
    if k > 0 {
      InOrder(vec, n, k - 1);
      if k > 1 { assert vec[k - 2] < vec[k - 1]; }
      assert k - 1 <= vec[k - 1] < n && k - 1 in vec;
    }
  }

  /** The heap when everything has been read over what was there: the objects reached have their copies, each
      in the existing object that stands for it or in a new one; the other existing objects are as they were,
      and there are no other new ones. */
  ghost predicate RestoredOver(g: Graph, roots: seq<Option<Ref>>, e: Existing, heap: seq<Node>,
                               copies: seq<Option<Ref>>, a: map<Ref, Ref>) {
    && Reached(g, roots, a.Keys) && CopiesOf(copies, roots, a)
    && (forall x | x in a :: a[x] < |heap| && heap[a[x]] == CopyOf(g[x], a))
    && (forall x, y | x in a && y in a && x != y :: a[x] != a[y])
    && (forall x | x in a :: |e.heap| <= a[x] || (x in e.place && a[x] == e.place[x]))
    && |e.heap| <= |heap| && (e.whole ==> |heap| == |e.heap|)
    && (forall o | 0 <= o < |e.heap| && o !in a.Values :: heap[o] == e.heap[o])
    && (forall o | |e.heap| <= o < |heap| :: o in a.Values)
  }

  /** The archive read through pointers that may already hold objects, whose own pointers may hold others:
      what stands for an object of the graph is filled in where it is, and the rest is made anew; a pointer
      keeps the object it holds if it is the first to lead there; over a whole structure nothing is made. */
  lemma RoundTripOver(schema: Schema, g: Graph, roots: seq<Option<Ref>>, s: set<Ref>,
                      e: Existing, held: seq<Option<Ref>>)
    requires WellFormed(schema, g) && RootsIn(roots, g.Keys) && Reached(g, roots, s) && |s| <= NULL_OBJECT
    requires forall o | 0 <= o < |e.heap| :: NodeOk(schema, e.heap[o], |e.heap|)
    requires Suits(g, e) && HeldIn(held, |e.heap|) && RootsAgree(e, held, roots)
    ensures var w := WriteAll(g, NO_TABLES, roots);
      var res := ReadAll(schema, ReaderOver(w.toks, e.heap), held);
      && res.Ok? && res.value.0.input == [] && Numbered(w.t, |res.value.0.vec|)
      && RestoredOver(g, roots, e, res.value.0.heap, res.value.1, Places(w.t, res.value.0.vec))
      && Kept(g, NO_TABLES, held, roots, res.value.1)
  {
    var w := WriteAll(g, NO_TABLES, roots);
    ArchiveSmall(g, roots, s);
    ReachedIsArchived(g, roots);
    var r := ReaderOver(w.toks, e.heap);
    var f, ps := AllInStep(schema, g, e, NO_TABLES, r, held, roots);
    AllNumbers(g, NO_TABLES, [], roots);
    OverHeap(schema, g, roots, e, w.t, f, ps, VisitAll(g, [], roots));
  }

  lemma OverHeap(schema: Schema, g: Graph, roots: seq<Option<Ref>>, e: Existing, t: Tables, f: Reader,
                 ps: seq<Option<Ref>>, order: seq<Ref>)
    requires Reached(g, roots, t.archive.Keys) && Numbers(t.archive, order)
    requires InStep(schema, e, t, f) && Copied(g, NO_TABLES, t, f) && CopiesOf(ps, roots, Places(t, f.vec))
    ensures RestoredOver(g, roots, e, f.heap, ps, Places(t, f.vec))
  {
    PlacesOneToOne(|e.heap|, t, f.vec, order);
  }

  lemma PlacesOneToOne(n: nat, t: Tables, vec: seq<Ref>, order: seq<Ref>)
    requires Numbers(t.archive, order) && |vec| == |order| && Distinct(n, vec)
    ensures Numbered(t, |vec|)
    ensures forall x, y | x in t.archive && y in t.archive && x != y :: Places(t, vec)[x] != Places(t, vec)[y]
    ensures forall o :: o in Places(t, vec).Values <==> o in vec
  {
    var a := Places(t, vec);
    forall o ensures o in a.Values <==> o in vec {
      if o in vec {
        var i :| 0 <= i < |vec| && vec[i] == o;
        assert a[order[i]] == o;
      }
    }
    forall x, y | x in a && y in a && x != y ensures a[x] != a[y] {
      assert t.archive[x] != t.archive[y];
    }
  }

  /** At any size, exactly the objects the roots reach are archived. */
  lemma ReachedIsArchived(g: Graph, roots: seq<Option<Ref>>)
    requires forall x | x in g :: FieldsWithin(g[x].fields, g.Keys)
    requires RootsIn(roots, g.Keys)
    ensures Reached(g, roots, WriteAll(g, NO_TABLES, roots).t.archive.Keys)
  {
    AllComplete(g, NO_TABLES, roots);
    forall c | Closed(g, c) && RootsIn(roots, c) ensures WriteAll(g, NO_TABLES, roots).t.archive.Keys <= c {
      AllStayIn(g, NO_TABLES, roots, c);
    }
  }

  // Objects archived between `t` and `u` have all they point to in `u`.
  ghost predicate Complete(g: Graph, t: Tables, u: Tables) {
    forall x | x in u.archive && x !in t.archive :: x in g && FieldsWithin(g[x].fields, u.archive.Keys)
  }

  lemma CompleteTrans(g: Graph, t: Tables, u: Tables, v: Tables)
    requires Complete(g, t, u) && Complete(g, u, v) && Extends(u, v)
    ensures Complete(g, t, v)
  {
  }

  lemma {:induction false} PtrComplete(g: Graph, t: Tables, p: Option<Ref>)
    requires forall x | x in g :: FieldsWithin(g[x].fields, g.Keys)
    requires p.Some? ==> p.value in g
    ensures Complete(g, t, WritePtr(g, t, p).t)
    decreases Unseen(g, t), 0
  {
    if p.Some? && p.value !in t.archive {
      var x := p.value;
      UnseenShrinks(g, t, Register(t, x));
      FieldsComplete(g, WriteClass(Register(t, x), g[x].cls).t, g[x].fields);
    }
  }

  lemma {:induction false} FieldsComplete(g: Graph, t: Tables, fs: seq<Field>)
    requires forall x | x in g :: FieldsWithin(g[x].fields, g.Keys)
    requires FieldsWithin(fs, g.Keys)
    ensures Complete(g, t, WriteFields(g, t, fs).t)
    decreases Unseen(g, t), 1 + |fs|
  {
    if fs != [] {
      var u := t;
      if fs[0].Ptr? {
        PtrComplete(g, t, fs[0].to);
        u := WritePtr(g, t, fs[0].to).t;
        UnseenShrinks(g, t, u);
      }
      FieldsComplete(g, u, fs[1..]);
      CompleteTrans(g, t, u, WriteFields(g, u, fs[1..]).t);
    }
  }

  lemma {:induction false} AllComplete(g: Graph, t: Tables, roots: seq<Option<Ref>>)
    requires forall x | x in g :: FieldsWithin(g[x].fields, g.Keys)
    requires RootsIn(roots, g.Keys)
    ensures Complete(g, t, WriteAll(g, t, roots).t)
    decreases |roots|
  {
    if roots != [] {
      var u := WritePtr(g, t, roots[0]).t;
      PtrComplete(g, t, roots[0]);
      AllComplete(g, u, roots[1..]);
      CompleteTrans(g, t, u, WriteAll(g, u, roots[1..]).t);
    }
  }

  // ---------------------------------------------------------------- no reader gets past 2^32 - 1 objects

  /** Numbers in the stream, and in the tables, are 32-bit. */
  ghost predicate Narrow(toks: seq<Token>) { forall i | 0 <= i < |toks| :: toks[i].Num? ==> toks[i].n < WORD }

  ghost predicate NarrowTables(t: Tables) {
    (forall x | x in t.archive :: t.archive[x] < WORD) && forall c | c in t.classes :: t.classes[c] < WORD
  }

  lemma RegisterNarrow(t: Tables, x: Ref)
    requires NarrowTables(t)
    ensures NarrowTables(Register(t, x)) && |t.archive| % WORD < WORD
  {
  }

  lemma ClassNarrow(t: Tables, cls: string)
    requires NarrowTables(t)
    ensures NarrowTables(WriteClass(t, cls).t) && Narrow(WriteClass(t, cls).toks)
  {
  }

  lemma {:induction false} PtrNarrow(g: Graph, t: Tables, p: Option<Ref>)
    requires forall x | x in g :: FieldsWithin(g[x].fields, g.Keys)
    requires p.Some? ==> p.value in g
    requires NarrowTables(t)
    ensures NarrowTables(WritePtr(g, t, p).t) && Narrow(WritePtr(g, t, p).toks)
    decreases Unseen(g, t), 1
  {
    if p.Some? && p.value !in t.archive {
      NewNarrow(g, t, p.value);
    }
  }

  lemma {:induction false} NewNarrow(g: Graph, t: Tables, x: Ref)
    requires forall x | x in g :: FieldsWithin(g[x].fields, g.Keys)
    requires x in g && x !in t.archive && NarrowTables(t)
    ensures NarrowTables(WritePtr(g, t, Some(x)).t) && Narrow(WritePtr(g, t, Some(x)).toks)
    decreases Unseen(g, t), 0
  {
    UnseenShrinks(g, t, Register(t, x));
    var c := WriteClass(Register(t, x), g[x].cls);
    var b := WriteFields(g, c.t, g[x].fields);
    RegisterNarrow(t, x);
    ClassNarrow(Register(t, x), g[x].cls);
    FieldsNarrow(g, c.t, g[x].fields);
    NewWritten(g, t, x, c, b);
    BracketNarrow(|t.archive| % WORD, c.toks, b, WritePtr(g, t, Some(x)));
  }

  lemma BracketNarrow(n: nat, c: seq<Token>, b: Written, w: Written)
    requires n < WORD && Narrow(c) && Narrow(b.toks) && NarrowTables(b.t)
    requires w == Written([Num(n)] + c + [Text(START)] + b.toks + [Text(FINISH)], b.t)
    ensures NarrowTables(w.t) && Narrow(w.toks)
  {
  }

  lemma {:induction false} FieldsNarrow(g: Graph, t: Tables, fs: seq<Field>)
    requires forall x | x in g :: FieldsWithin(g[x].fields, g.Keys)
    requires FieldsWithin(fs, g.Keys) && NarrowTables(t)
    ensures NarrowTables(WriteFields(g, t, fs).t) && Narrow(WriteFields(g, t, fs).toks)
    decreases Unseen(g, t), 2 + |fs|
  {
    if fs != [] {
      var u := t;
      if fs[0].Ptr? {
        PtrNarrow(g, t, fs[0].to);
        u := WritePtr(g, t, fs[0].to).t;
        UnseenShrinks(g, t, u);
      }
      FieldsNarrow(g, u, fs[1..]);
    }
  }

  lemma {:induction false} AllNarrow(g: Graph, t: Tables, roots: seq<Option<Ref>>)
    requires forall x | x in g :: FieldsWithin(g[x].fields, g.Keys)
    requires RootsIn(roots, g.Keys) && NarrowTables(t)
    ensures Narrow(WriteAll(g, t, roots).toks)
    decreases |roots|
  {
    if roots != [] {
      PtrNarrow(g, t, roots[0]);
      AllNarrow(g, WritePtr(g, t, roots[0]).t, roots[1..]);
    }
  }

  /** Every object allocated has a number of its own below the null marker. */
  ghost predicate Bounded(r: Reader) { Narrow(r.input) && |r.heap| <= |r.vec| <= NULL_OBJECT }

  lemma RestNarrow(toks: seq<Token>)
    requires Narrow(toks) && toks != []
    ensures Narrow(toks[1..])
  {
  }

  /** What is left after an object's number and class. */
  lemma ClassReadNarrow(r: Reader)
    requires Narrow(r.input)
    ensures var num := TakeNum(r); num.Ok? ==> Narrow(num.value.0.input)
    ensures var num := TakeNum(r); num.Ok? ==> var cls := ReadClass(num.value.0); cls.Ok? ==> Narrow(cls.value.0.input)
  {
    if r.input != [] {
      RestNarrow(r.input);
      if |r.input| > 1 {
        RestNarrow(r.input[1..]);
        if |r.input| > 2 { RestNarrow(r.input[1..][1..]); }
      }
    }
  }

  /** Reading the fields of `o` from `i` on ends in `f`. */
  ghost predicate Reading(schema: Schema, r: Reader, o: Ref, i: nat, f: Reader) {
    ReaderOk(schema, r) && o < |r.heap| && i <= |r.heap[o].fields| && ReadFields(schema, r, o, i) == Ok(f)
  }

  lemma {:induction false} PtrBounded(schema: Schema, r: Reader, p: Option<Ref>, s: Reader, c: Option<Ref>)
    requires ReaderOk(schema, r) && (p.Some? ==> p.value < |r.heap|) && Bounded(r)
    requires ReadPtr(schema, r, p) == Ok((s, c))
    ensures Bounded(s)
    decreases |r.input|, 0
  {
    var (r1, id) := TakeNum(r).value;
    ClassReadNarrow(r);
    if id != NULL_OBJECT && id >= |r.vec| {
      var (r2, cls) := ReadClass(r1).value;
      ObjectBounded(schema, if p.Some? then r2 else r2.(heap := r2.heap + [Blank(schema, cls)]), Target(r2, p), s);
    }
  }

  lemma {:induction false} ObjectBounded(schema: Schema, r: Reader, o: Ref, s: Reader)
    requires ReaderOk(schema, r) && o < |r.heap| && ReadObject(schema, r, o) == Ok(s)
    requires Narrow(r.input) && |r.heap| <= |r.vec| + 1 <= NULL_OBJECT
    ensures Bounded(s)
    decreases |r.input|, 3
  {
    var r1 := r.(vec := r.vec + [o], input := r.input[1..]);
    RestNarrow(r.input);
    var f := ReadFields(schema, r1, o, 0).value;
    FieldsBounded(schema, r1, o, 0, f);
    RestNarrow(f.input);
  }

  lemma {:induction false} FieldsBounded(schema: Schema, r: Reader, o: Ref, i: nat, f: Reader)
    requires Reading(schema, r, o, i, f)
    requires Bounded(r)
    ensures Bounded(f)
    decreases |r.input|, 2
  {
    if i < |r.heap[o].fields| {
      var s := FieldBounded(schema, r, o, i, f);
      FieldsBounded(schema, s, o, i + 1, f);
    }
  }

  lemma {:induction false} FieldBounded(schema: Schema, r: Reader, o: Ref, i: nat, f: Reader) returns (s: Reader)
    requires Reading(schema, r, o, i, f) && i < |r.heap[o].fields|
    requires Bounded(r)
    ensures Reading(schema, s, o, i + 1, f) && |s.input| < |r.input|
    ensures Bounded(s)
    decreases |r.input|, 1
  {
    match r.heap[o].fields[i]
    case Prim(_) =>
      RestNarrow(r.input);
      s := SetField(r.(input := r.input[1..]), o, i, Prim(r.input[0].v));
    case Ptr(q) =>
      var (r1, c) := ReadPtr(schema, r, q).value;
      PtrBounded(schema, r, q, r1, c);
      s := SetField(r1, o, i, Ptr(c));
  }

  lemma {:induction false} AllBounded(schema: Schema, r: Reader, held: seq<Option<Ref>>)
    requires ReaderOk(schema, r) && HeldIn(held, |r.heap|) && Bounded(r)
    ensures var res := ReadAll(schema, r, held); res.Ok? ==> Bounded(res.value.0)
    decreases |held|
  {
    if held != [] && ReadPtr(schema, r, held[0]).Ok? {
      var (s, c) := ReadPtr(schema, r, held[0]).value;
      PtrBounded(schema, r, held[0], s, c);
      AllBounded(schema, s, held[1..]);
    }
  }

  lemma LargeNotRestored(schema: Schema, g: Graph, roots: seq<Option<Ref>>, s: set<Ref>)
    requires WellFormed(schema, g) && RootsIn(roots, g.Keys) && Reached(g, roots, s) && |s| > NULL_OBJECT
    ensures !Restored(schema, g, roots)
  {
    var toks := WriteAll(g, NO_TABLES, roots).toks;
    AllNarrow(g, NO_TABLES, roots);
    AllBounded(schema, FreshReader(toks), Nulls(|roots|));
    if Restored(schema, g, roots) {
      var res := ReadAll(schema, FreshReader(toks), Nulls(|roots|));
      var a, order :| Isomorphic(g, roots, res.value.0.heap, res.value.1, a, order);
      IsomorphicSize(g, roots, res.value.0.heap, res.value.1, a, order, s);
      assert false;
    }
  }

  lemma IsomorphicSize(g: Graph, roots: seq<Option<Ref>>, heap: seq<Node>, copies: seq<Option<Ref>>,
                       a: map<Ref, nat>, order: seq<Ref>, s: set<Ref>)
    requires Isomorphic(g, roots, heap, copies, a, order) && Reached(g, roots, s)
    ensures |heap| == |s|
  {
    assert a.Keys == s && |a.Keys| == |a|;
  }

  /** From the 2^32nd object on, a new object is taken for a null pointer or for an object met before:
      the reader, which has 2^32 - 1 of them, allocates nothing. */
  lemma NumberClash(schema: Schema, g: Graph, t: Tables, x: Ref, r: Reader, rest: seq<Token>)
    requires WellFormed(schema, g) && x in g && x !in t.archive && |t.archive| >= NULL_OBJECT
    requires ReaderOk(schema, r) && |r.vec| == NULL_OBJECT && r.input == WritePtr(g, t, Some(x)).toks + rest
    ensures var id := |t.archive| % WORD;
      ReadPtr(schema, r, None) ==
        Ok((r.(input := r.input[1..]), if id == NULL_OBJECT then None else Some(r.vec[id])))
  {
    assert WritePtr(g, t, Some(x)).toks[0] == Num(|t.archive| % WORD);
  }

  // ---------------------------------------------------------------- damaged archives

  /** The reader with more in the stream. */
  function Longer(r: Reader, more: seq<Token>): Reader { r.(input := r.input + more) }

  lemma TakeLonger(r: Reader, more: seq<Token>)
    requires r.input != []
    ensures (r.input + more)[0] == r.input[0] && (r.input + more)[1..] == r.input[1..] + more
  {
  }

  lemma ClassLonger(r: Reader, more: seq<Token>)
    requires ReadClass(r).Ok?
    ensures ReadClass(Longer(r, more)) == Ok((Longer(ReadClass(r).value.0, more), ReadClass(r).value.1))
  {
    TakeLonger(r, more);
    if r.input[0].n >= |r.names| { TakeLonger(r.(input := r.input[1..]), more); }
  }

  /** What has been read successfully does not depend on what follows. */
  lemma {:induction false} PtrLonger(schema: Schema, r: Reader, held: Option<Ref>, s: Reader, c: Option<Ref>,
                                     more: seq<Token>)
    requires ReaderOk(schema, r) && (held.Some? ==> held.value < |r.heap|)
    requires ReadPtr(schema, r, held) == Ok((s, c))
    ensures ReadPtr(schema, Longer(r, more), held) == Ok((Longer(s, more), c))
    decreases |r.input|, 0
  {
    TakeLonger(r, more);
    var r1 := r.(input := r.input[1..]);
    if r.input[0].n != NULL_OBJECT && r.input[0].n >= |r.vec| {
      ClassLonger(r1, more);
      var (r2, cls) := ReadClass(r1).value;
      ObjectLonger(schema, if held.Some? then r2 else r2.(heap := r2.heap + [Blank(schema, cls)]),
        Target(r2, held), s, more);
    }
  }

  lemma {:induction false} ObjectLonger(schema: Schema, r: Reader, o: Ref, s: Reader, more: seq<Token>)
    requires ReaderOk(schema, r) && o < |r.heap| && ReadObject(schema, r, o) == Ok(s)
    ensures ReadObject(schema, Longer(r, more), o) == Ok(Longer(s, more))
    decreases |r.input|, 3
  {
    TakeLonger(r, more);
    var r1 := r.(vec := r.vec + [o], input := r.input[1..]);
    var f := ReadFields(schema, r1, o, 0).value;
    FieldsLonger(schema, r1, o, 0, f, more);
    TakeLonger(f, more);
  }

  lemma {:induction false} FieldsLonger(schema: Schema, r: Reader, o: Ref, i: nat, f: Reader, more: seq<Token>)
    requires Reading(schema, r, o, i, f)
    ensures ReadFields(schema, Longer(r, more), o, i) == Ok(Longer(f, more))
    decreases |r.input|, 2
  {
    if i < |r.heap[o].fields| {
      var s := FieldLonger(schema, r, o, i, f, more);
      FieldsLonger(schema, s, o, i + 1, f, more);
    }
  }

  lemma {:induction false} FieldLonger(schema: Schema, r: Reader, o: Ref, i: nat, f: Reader, more: seq<Token>)
    returns (s: Reader)
    requires Reading(schema, r, o, i, f) && i < |r.heap[o].fields|
    ensures Reading(schema, s, o, i + 1, f) && |s.input| < |r.input|
    ensures ReadFields(schema, Longer(r, more), o, i) == ReadFields(schema, Longer(s, more), o, i + 1)
    decreases |r.input|, 1
  {
    match r.heap[o].fields[i]
    case Prim(_) =>
      TakeLonger(r, more);
      s := SetField(r.(input := r.input[1..]), o, i, Prim(r.input[0].v));
    case Ptr(q) =>
      var (r1, c) := ReadPtr(schema, r, q).value;
      PtrLonger(schema, r, q, r1, c, more);
      s := SetField(r1, o, i, Ptr(c));
  }

  lemma {:induction false} AllLonger(schema: Schema, r: Reader, held: seq<Option<Ref>>, more: seq<Token>)
    requires ReaderOk(schema, r) && HeldIn(held, |r.heap|) && ReadAll(schema, r, held).Ok?
    ensures ReadAll(schema, Longer(r, more), held) ==
      Ok((Longer(ReadAll(schema, r, held).value.0, more), ReadAll(schema, r, held).value.1))
    decreases |held|
  {
    if held != [] {
      var (s, c) := ReadPtr(schema, r, held[0]).value;
      PtrLonger(schema, r, held[0], s, c, more);
      AllLonger(schema, s, held[1..], more);
    }
  }

  /** An archive that has been cut short anywhere is not read as a whole one. */
  lemma CutShort(schema: Schema, g: Graph, roots: seq<Option<Ref>>, s: set<Ref>, n: nat)
    requires WellFormed(schema, g) && RootsIn(roots, g.Keys) && Reached(g, roots, s) && |s| <= NULL_OBJECT
    requires n < |WriteAll(g, NO_TABLES, roots).toks|
    ensures ReadAll(schema, FreshReader(WriteAll(g, NO_TABLES, roots).toks[..n]), Nulls(|roots|)).Fail?
  {
    var toks := WriteAll(g, NO_TABLES, roots).toks;
    var r := FreshReader(toks[..n]);
    if ReadAll(schema, r, Nulls(|roots|)).Ok? {
      AllLonger(schema, r, Nulls(|roots|), toks[n..]);
      assert toks[..n] + toks[n..] == toks;
      RoundTrip(schema, g, roots, s);
      assert false;
    }
  }

  /** What is left of a stream. */
  ghost predicate Rest(a: seq<Token>, b: seq<Token>) { |b| <= |a| && b == a[|a| - |b|..] }

  lemma RestTrans(a: seq<Token>, b: seq<Token>, c: seq<Token>)
    requires Rest(a, b) && Rest(b, c)
    ensures Rest(a, c)
  {
  }

  lemma ClassRest(r: Reader)
    requires ReadClass(r).Ok?
    ensures Rest(r.input, ReadClass(r).value.0.input)
  {
    TailRest(r.input);
    if r.input[0].n >= |r.names| {
      TailRest(r.input[1..]);
      RestTrans(r.input, r.input[1..], r.input[1..][1..]);
    }
  }

  lemma TailRest(a: seq<Token>)
    requires a != []
    ensures Rest(a, a[1..])
  {
  }

  lemma {:induction false} PtrRest(schema: Schema, r: Reader, held: Option<Ref>, s: Reader, c: Option<Ref>)
    requires ReaderOk(schema, r) && (held.Some? ==> held.value < |r.heap|)
    requires ReadPtr(schema, r, held) == Ok((s, c))
    ensures Rest(r.input, s.input)
    decreases |r.input|, 0
  {
    var r1 := r.(input := r.input[1..]);
    TailRest(r.input);
    if r.input[0].n != NULL_OBJECT && r.input[0].n >= |r.vec| {
      ClassRest(r1);
      var (r2, cls) := ReadClass(r1).value;
      ObjectRest(schema, if held.Some? then r2 else r2.(heap := r2.heap + [Blank(schema, cls)]), Target(r2, held), s);
      RestTrans(r.input, r1.input, r2.input);
      RestTrans(r.input, r2.input, s.input);
    }
  }

  /** An object read is what stood between a start and an end marker. */
  lemma {:induction false} ObjectRest(schema: Schema, r: Reader, o: Ref, s: Reader)
    requires ReaderOk(schema, r) && o < |r.heap| && ReadObject(schema, r, o) == Ok(s)
    ensures Rest(r.input, s.input) && |s.input| + 2 <= |r.input|
    ensures r.input[0] == Text(START) && r.input[|r.input| - |s.input| - 1] == Text(FINISH)
    decreases |r.input|, 3
  {
    var r1 := r.(vec := r.vec + [o], input := r.input[1..]);
    var f := ReadFields(schema, r1, o, 0).value;
    TailRest(r.input);
    FieldsRest(schema, r1, o, 0, f);
    RestTrans(r.input, r1.input, f.input);
    TailRest(f.input);
    RestTrans(r.input, f.input, s.input);
  }

  lemma {:induction false} FieldsRest(schema: Schema, r: Reader, o: Ref, i: nat, f: Reader)
    requires Reading(schema, r, o, i, f)
    ensures Rest(r.input, f.input)
    decreases |r.input|, 2
  {
    if i < |r.heap[o].fields| {
      var s := FieldRest(schema, r, o, i, f);
      FieldsRest(schema, s, o, i + 1, f);
      RestTrans(r.input, s.input, f.input);
    }
  }

  lemma {:induction false} FieldRest(schema: Schema, r: Reader, o: Ref, i: nat, f: Reader) returns (s: Reader)
    requires Reading(schema, r, o, i, f) && i < |r.heap[o].fields|
    ensures Reading(schema, s, o, i + 1, f) && |s.input| < |r.input|
    ensures Rest(r.input, s.input)
    decreases |r.input|, 1
  {
    match r.heap[o].fields[i]
    case Prim(_) =>
      TailRest(r.input);
      s := SetField(r.(input := r.input[1..]), o, i, Prim(r.input[0].v));
    case Ptr(q) =>
      var (r1, c) := ReadPtr(schema, r, q).value;
      PtrRest(schema, r, q, r1, c);
      s := SetField(r1, o, i, Ptr(c));
  }

  /** A new object is accepted only between its two markers. */
  lemma MarkersNeeded(schema: Schema, r: Reader, held: Option<Ref>, q: Reader, cls: string, s: Reader)
    requires ReaderOk(schema, r) && (held.Some? ==> held.value < |r.heap|)
    requires r.input != [] && r.input[0].Num? && |r.vec| <= r.input[0].n < NULL_OBJECT
    requires ReadClass(r.(input := r.input[1..])) == Ok((q, cls))
    requires ReadPtr(schema, r, held).Ok? && s == ReadPtr(schema, r, held).value.0
    ensures q.input != [] && q.input[0] == Text(START) && Rest(q.input, s.input)
    ensures |s.input| + 2 <= |q.input| && q.input[|q.input| - |s.input| - 1] == Text(FINISH)
  {
    ObjectRest(schema, if held.Some? then q else q.(heap := q.heap + [Blank(schema, cls)]), Target(r, held), s);
  }

  /** A new object with no place of its own is refused if its class is not registered, and any new object if
      something else stands where its start marker belongs. */
  lemma Refused(schema: Schema, r: Reader, held: Option<Ref>)
    requires ReaderOk(schema, r) && (held.Some? ==> held.value < |r.heap|)
    requires r.input != [] && r.input[0].Num? && |r.vec| <= r.input[0].n < NULL_OBJECT
    requires ReadClass(r.(input := r.input[1..])).Ok?
    ensures var (q, cls) := ReadClass(r.(input := r.input[1..])).value;
      && (held.None? && cls !in schema ==> ReadPtr(schema, r, held) == Fail(Unregistered))
      && ((held.Some? || cls in schema) && q.input != [] && q.input[0].Text? && q.input[0].s != START ==>
            ReadPtr(schema, r, held) == Fail(MissingStart))
  {
  }

  /** `n` objects without fields, each of them a root. */
  ghost function Crowd(n: nat, cls: string): (g: Graph)
    ensures |g.Keys| == n && (forall x: Ref :: x in g <==> x < n) && forall x | x in g :: g[x] == Node(cls, [])
  {
    if n == 0 then map[] else Crowd(n - 1, cls)[n - 1 := Node(cls, [])]
  }

  ghost function CrowdRoots(n: nat): (roots: seq<Option<Ref>>)
    ensures |roots| == n && forall i | 0 <= i < n :: roots[i] == Some(i)
  {
    if n == 0 then [] else CrowdRoots(n - 1) + [Some(n - 1)]
  }

  /** Graphs that do not come back: the smallest has 2^32 objects. */
  lemma CrowdLost(n: nat, cls: string)
    requires n > NULL_OBJECT
    ensures var schema: Schema, g, roots := map[cls := []], Crowd(n, cls), CrowdRoots(n);
      WellFormed(schema, g) && RootsIn(roots, g.Keys) && !Restored(schema, g, roots)
  {
    var g, roots := Crowd(n, cls), CrowdRoots(n);
    forall c | RootsIn(roots, c) ensures g.Keys <= c {
      forall x | x in g ensures x in c { assert roots[x] == Some(x); }
    }
    RoundTrip(map[cls := []], g, roots, g.Keys);
  }

  /** Over a whole session every reached object's body is written once and every class name once. */
  lemma {:induction false} AllTexts(g: Graph, t: Tables, roots: seq<Option<Ref>>, s: string)
    requires forall x | x in g :: FieldsWithin(g[x].fields, g.Keys)
    requires RootsIn(roots, g.Keys)
    ensures Texts(WriteAll(g, t, roots).toks, s) == Owed(t, WriteAll(g, t, roots).t, s)
    decreases |roots|
  {
    if roots != [] {
      var a := WritePtr(g, t, roots[0]);
      PtrTexts(g, t, roots[0], s);
      AllTexts(g, a.t, roots[1..], s);
      OwedAdd(t, a.t, WriteAll(g, a.t, roots[1..]).t, s);
      TextsConcat(a.toks, WriteAll(g, a.t, roots[1..]).toks, s);
    }
  }

  // ---------------------------------------------------------------- the engines

  lemma NextField(g: Graph, t: Tables, fs: seq<Field>, i: nat, done: seq<Token>, a: Written)
    requires forall x | x in g :: FieldsWithin(g[x].fields, g.Keys)
    requires i < |fs| && FieldsWithin(fs[i..], g.Keys) && FieldsWithin([fs[i]], g.Keys)
    requires a == WriteFields(g, t, [fs[i]])
    ensures FieldsWithin(fs[i + 1..], g.Keys)
    ensures WriteFields(g, t, fs[i..]).t == WriteFields(g, a.t, fs[i + 1..]).t
    ensures done + WriteFields(g, t, fs[i..]).toks == done + a.toks + WriteFields(g, a.t, fs[i + 1..]).toks
  {
    assert fs[i..][1..] == fs[i + 1..];
    SplitFields(g, t, fs[i..]);
    Assoc(done, a.toks, WriteFields(g, a.t, fs[i + 1..]).toks);
  }

  lemma Gather<T>(o: seq<T>, a: seq<T>, b: seq<T>, c: seq<T>, d: seq<T>, e: seq<T>)
    ensures o + a + b + c + d + e == o + (a + b + c + d + e)
  {
    Assoc(o, a, b);
    Assoc(o, a + b, c);
    Assoc(o, a + b + c, d);
    Assoc(o, a + b + c + d, e);
  }

  lemma NewStream(g: Graph, t: Tables, x: Ref, c: Written, b: Written, o: seq<Token>, all: seq<Token>)
    requires forall x | x in g :: FieldsWithin(g[x].fields, g.Keys)
    requires x in g && x !in t.archive
    requires c == WriteClass(Register(t, x), g[x].cls) && b == WriteFields(g, c.t, g[x].fields)
    requires all == o + [Num(|t.archive| % WORD)] + c.toks + [Text(START)] + b.toks + [Text(FINISH)]
    ensures WritePtr(g, t, Some(x)).t == b.t && all == o + WritePtr(g, t, Some(x)).toks
  {
    NewWritten(g, t, x, c, b);
    Gather(o, [Num(|t.archive| % WORD)], c.toks, [Text(START)], b.toks, [Text(FINISH)]);
  }

  class WriteEngine {
    var stream: seq<Token>
    var archive: map<Ref, nat>
    var classes: map<string, nat>

    ghost function Now(): Tables reads this { Tables(archive, classes) }

    constructor ()
      ensures stream == [] && Now() == NO_TABLES
    {
      stream, archive, classes := [], map[], map[];
    }

    method Put(tok: Token)
      modifies this`stream
      ensures stream == old(stream) + [tok]
    {
      stream := stream + [tok];
    }

    method Write(g: Graph, p: Option<Ref>)
      requires forall x | x in g :: FieldsWithin(g[x].fields, g.Keys)
      requires p.Some? ==> p.value in g
      modifies this
      ensures Now() == WritePtr(g, old(Now()), p).t
      ensures stream == old(stream) + WritePtr(g, old(Now()), p).toks
      decreases Unseen(g, Now()), 1
    {
      if p.None? {
        Put(Num(NULL_OBJECT));
        return;
      }
      if p.value !in archive {
        WriteNew(g, p.value);
      } else {
        Put(Num(archive[p.value]));
      }
    }

    method WriteNew(g: Graph, x: Ref)
      requires forall x | x in g :: FieldsWithin(g[x].fields, g.Keys)
      requires x in g && x !in archive
      modifies this
      ensures Now() == WritePtr(g, old(Now()), Some(x)).t
      ensures stream == old(stream) + WritePtr(g, old(Now()), Some(x)).toks
      decreases Unseen(g, Now()), 0
    {
      ghost var t, o := Now(), stream;
      UnseenShrinks(g, t, Register(t, x));
      var id := |archive| % WORD;
      archive := archive[x := id];
      Put(Num(id));
      assert id == |t.archive| % WORD && Now() == Register(t, x);
      ghost var c := WriteClass(Register(t, x), g[x].cls);
      WriteClassOf(g[x].cls);
      assert Now() == c.t && stream == o + [Num(id)] + c.toks;
      Put(Text(START));
      ghost var b := WriteFields(g, c.t, g[x].fields);
      WriteBody(g, g[x].fields);
      Put(Text(FINISH));
      NewStream(g, t, x, c, b, o, stream);
    }

    method WriteClassOf(cls: string)
      modifies this
      ensures Now() == WriteClass(old(Now()), cls).t
      ensures stream == old(stream) + WriteClass(old(Now()), cls).toks
    {
      if cls !in classes {
        var classId := |classes| % WORD;
        classes := classes[cls := classId];
        Put(Num(classId));
        Put(Text(cls));
      } else {
        Put(Num(classes[cls]));
      }
    }

    method WriteField(g: Graph, f: Field)
      requires forall x | x in g :: FieldsWithin(g[x].fields, g.Keys)
      requires FieldsWithin([f], g.Keys)
      modifies this
      ensures Now() == WriteFields(g, old(Now()), [f]).t
      ensures stream == old(stream) + WriteFields(g, old(Now()), [f]).toks
      decreases Unseen(g, Now()), 2
    {
      assert [f][0] == f;
      match f {
        case Prim(v) => Put(Datum(v));
        case Ptr(q) => Write(g, q);
      }
      assert [f][1..] == [];
    }

    /** Fields `i..` of a body are still to be written, which in all comes to `whole` after `before`. */
    ghost predicate Writing(g: Graph, fs: seq<Field>, i: nat, whole: Written, before: seq<Token>)
      requires forall x | x in g :: FieldsWithin(g[x].fields, g.Keys)
      reads this
    {
      && i <= |fs| && FieldsWithin(fs[i..], g.Keys)
      && whole.t == WriteFields(g, Now(), fs[i..]).t
      && before + whole.toks == stream + WriteFields(g, Now(), fs[i..]).toks
    }

    /** One field of a body. */
    method WriteNext(g: Graph, fs: seq<Field>, i: nat, ghost whole: Written, ghost before: seq<Token>)
      requires forall x | x in g :: FieldsWithin(g[x].fields, g.Keys)
      requires i < |fs| && Writing(g, fs, i, whole, before)
      modifies this
      ensures old(archive).Keys <= archive.Keys && Writing(g, fs, i + 1, whole, before)
      decreases Unseen(g, Now()), 3
    {
      ghost var w := WriteFields(g, Now(), [fs[i]]);
      NextField(g, Now(), fs, i, stream, w);
      WriteField(g, fs[i]);
    }

    /** An object's own `write`: its fields in class order. */
    method WriteBody(g: Graph, fs: seq<Field>)
      requires forall x | x in g :: FieldsWithin(g[x].fields, g.Keys)
      requires FieldsWithin(fs, g.Keys)
      modifies this
      ensures Now() == WriteFields(g, old(Now()), fs).t
      ensures stream == old(stream) + WriteFields(g, old(Now()), fs).toks
      decreases Unseen(g, Now()), 4
    {
      var i := 0;
      ghost var start, before, whole := Now(), stream, WriteFields(g, Now(), fs);
      assert fs[0..] == fs;
      while i < |fs|
        invariant 0 <= i <= |fs| && start.archive.Keys <= archive.Keys && Writing(g, fs, i, whole, before)
      {
        UnseenShrinks(g, start, Now());
        WriteNext(g, fs, i, whole, before);
        i := i + 1;
      }
      assert fs[i..] == [];
    }
  }

  class ReadEngine {
    const schema: Schema
    var input: seq<Token>
    var vec: seq<Ref>
    var names: seq<string>
    var heap: seq<Node>

    ghost function Now(): Reader reads this { Reader(input, vec, names, heap) }

    constructor (schema: Schema, stream: seq<Token>)
      ensures this.schema == schema && Now() == FreshReader(stream)
    {
      this.schema := schema;
      input, vec, names, heap := stream, [], [], [];
    }

    method NextNum() returns (res: Outcome<nat>)
      modifies this`input
      ensures match TakeNum(old(Now()))
        case Ok((r, n)) => res == Ok(n) && Now() == r
        case Fail(e) => res == Fail(e)
    {
      if input == [] || !input[0].Num? { return Fail(Malformed); }
      res := Ok(input[0].n);
      input := input[1..];
    }

    method NextText() returns (res: Outcome<string>)
      modifies this`input
      ensures match TakeText(old(Now()))
        case Ok((r, s)) => res == Ok(s) && Now() == r
        case Fail(e) => res == Fail(e)
    {
      if input == [] || !input[0].Text? { return Fail(Malformed); }
      res := Ok(input[0].s);
      input := input[1..];
    }

    method ReadClassName() returns (res: Outcome<string>)
      modifies this`input, this`names
      ensures match ReadClass(old(Now()))
        case Ok((r, s)) => res == Ok(s) && Now() == r
        case Fail(e) => res == Fail(e)
    {
      var classId :- NextNum();
      if classId < |names| { return Ok(names[classId]); }
      var name :- NextText();
      names := names + [name];
      return Ok(name);
    }

    /** Reads through a pointer that holds `p` and returns what it holds afterwards. */
    method Read(p: Option<Ref>) returns (res: Outcome<Option<Ref>>)
      requires ReaderOk(schema, Now()) && (p.Some? ==> p.value < |heap|)
      modifies this
      ensures match ReadPtr(schema, old(Now()), p)
        case Ok((r, q)) => res == Ok(q) && Now() == r
        case Fail(e) => res == Fail(e)
      decreases |input|, 0
    {
      var id :- NextNum();
      if id == NULL_OBJECT { return Ok(None); }
      if id < |vec| { return Ok(Some(vec[id])); }
      var cls :- ReadClassName();
      if p.Some? {
        var _ :- ReadInto(p.value);
        return Ok(p);
      }
      if cls !in schema { return Fail(Unregistered); }
      var o := |heap|;
      heap := heap + [Blank(schema, cls)];
      var _ :- ReadInto(o);
      return Ok(Some(o));
    }

    method ReadInto(o: Ref) returns (res: Outcome<()>)
      requires ReaderOk(schema, Now()) && o < |heap|
      modifies this
      ensures match ReadObject(schema, old(Now()), o)
        case Ok(r) => res == Ok(()) && Now() == r
        case Fail(e) => res == Fail(e)
      decreases |input|, 3
    {
      vec := vec + [o];
      var mark :- NextText();
      if mark != START { return Fail(MissingStart); }
      var _ :- ReadBody(o);
      mark :- NextText();
      if mark != FINISH { return Fail(MissingFinish); }
      return Ok(());
    }

    /** An object's own `read`: its fields in class order, each through the field's current value. */
    method ReadBody(o: Ref) returns (res: Outcome<()>)
      requires ReaderOk(schema, Now()) && o < |heap|
      modifies this
      ensures match ReadFields(schema, old(Now()), o, 0)
        case Ok(r) => res == Ok(()) && Now() == r
        case Fail(e) => res == Fail(e)
      decreases |input|, 2
    {
      var i := 0;
      while i < |heap[o].fields|
        invariant ReaderOk(schema, Now()) && o < |heap| && i <= |heap[o].fields|
        invariant |input| <= old(|input|)
        invariant ReadFields(schema, old(Now()), o, 0) == ReadFields(schema, Now(), o, i)
        decreases |input|
      {
        var _ :- ReadField(o, i);
        i := i + 1;
      }
      return Ok(());
    }

    method ReadField(o: Ref, i: nat) returns (res: Outcome<()>)
      requires ReaderOk(schema, Now()) && o < |heap| && i < |heap[o].fields|
      modifies this
      ensures res.Ok? ==> Follows(schema, old(Now()), Now()) && |input| < old(|input|)
      ensures match res
        case Ok(_) => ReadFields(schema, old(Now()), o, i) == ReadFields(schema, Now(), o, i + 1)
        case Fail(e) => ReadFields(schema, old(Now()), o, i) == Fail(e)
      decreases |input|, 1
    {
      match heap[o].fields[i] {
        case Prim(_) =>
          if input == [] || !input[0].Datum? { return Fail(Malformed); }
          SetField(o, i, Prim(input[0].v));
          input := input[1..];
        case Ptr(q) =>
          var q' :- Read(q);
          SetField(o, i, Ptr(q'));
      }
      return Ok(());
    }

    method SetField(o: Ref, i: nat, f: Field)
      requires o < |heap| && i < |heap[o].fields|
      modifies this`heap
      ensures heap == old(heap)[o := old(heap)[o].(fields := old(heap)[o].fields[i := f])]
    {
      heap := heap[o := heap[o].(fields := heap[o].fields[i := f])];
    }
  }
}
