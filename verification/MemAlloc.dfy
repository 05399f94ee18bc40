/** The paged allocator `memalloc` of corelib/memory.cpp. Addresses are numbers; what the system allocator
    answers is a parameter. */
module MemAlloc {
  import opened Options

  // A 64-bit build: `sizeof(void *)` and `sizeof(page_t)`.
  const WORD := 8
  const HEADER := 16
  const SIZE_LIMIT := 0x1_0000_0000_0000_0000  // size_t
  const UINT_LIMIT := 0x1_0000_0000            // unsigned, the type of `used`

  datatype Page = Page(base: nat, used: nat)
  datatype Block = Block(base: nat, addr: nat, size: nat)  // on the page at `base`

  datatype Error = TooLarge | Exhausted | NoMemory
  datatype Result = Ok(addr: nat) | Err(error: Error)

  /** The page size chosen by the constructor: sizes up to the system's page are taken as they are. */
  function PageSize(ps: nat, paging: nat): (n: nat)
    requires paging > 0
  {
    if ps == 0 then paging else if ps > paging then (ps + paging - 1) / paging * paging else ps
  }

  /** A size above the system's page becomes the next multiple of it, none a whole page. */
  lemma PageSizeExactly(ps: nat, paging: nat)
    requires paging > 0
    ensures ps == 0 ==> PageSize(ps, paging) == paging
    ensures 0 < ps <= paging ==> PageSize(ps, paging) == ps
    ensures ps > paging ==> ps <= PageSize(ps, paging) < ps + paging && PageSize(ps, paging) % paging == 0
  {
    if ps > paging {
      var a := ps + paging - 1;
      var q, r := a / paging, a % paging;
      assert a == q * paging + r;
      WholePages(q, paging);
    }
  }

  lemma WholePages(q: nat, n: nat)
    requires n > 0
    ensures q * n % n == 0
  {
    var d, r := q * n / n, q * n % n;
    assert q * n == d * n + r;
    if d < q { Scaled(d + 1, q, n); }
    if q < d { Scaled(q + 1, d, n); }
  }

  lemma Scaled(a: nat, b: nat, n: nat)
    requires a <= b
    ensures a * n <= b * n
  {
  }

  /** Unsigned subtraction. */
  function Minus(a: nat, b: nat): nat
    requires a < SIZE_LIMIT && b < SIZE_LIMIT
  {
    if b <= a then a - b else a + SIZE_LIMIT - b
  }

  /** The next multiple of the word size. */
  function Rounded(size: nat): (r: nat)
    requires size < SIZE_LIMIT
    ensures r % WORD == 0 && r < SIZE_LIMIT
    ensures size + 7 < SIZE_LIMIT ==> size <= r < size + WORD
  {
    var r := size % WORD;
    if r == 0 then size else if size + (WORD - r) < SIZE_LIMIT then size + (WORD - r) else 0
  }

  /** Bytes skipped after the header of a page that does not begin at a word. */
  function Skew(base: nat): nat { if base % WORD == 0 then 0 else WORD - base % WORD }

  /** Bytes given out on the page at `base`. */
  ghost function Given(blocks: seq<Block>, base: nat): nat {
    if blocks == [] then 0
    else
      var b := blocks[|blocks| - 1];
      Given(blocks[..|blocks| - 1], base) + if b.base == base then b.size else 0
  }

  ghost predicate Apart(a: nat, n: nat, b: nat, m: nat) { a + n <= b || b + m <= a }

  ghost predicate PagesApart(pages: seq<Page>, pagesize: nat) {
    forall i, j :: 0 <= i < j < |pages| ==> Apart(pages[i].base, pagesize, pages[j].base, pagesize)
  }

  ghost predicate BlocksApart(blocks: seq<Block>) {
    forall i, j :: 0 <= i < j < |blocks| ==> Apart(blocks[i].addr, blocks[i].size, blocks[j].addr, blocks[j].size)
  }

  /** A word-aligned block on a page of the list, past its header and within what is used. */
  ghost predicate Inside(b: Block, pages: seq<Page>) {
    && b.addr % WORD == 0 && b.size % WORD == 0
    && exists i :: 0 <= i < |pages| && pages[i].base == b.base
        && b.base + HEADER <= b.addr && b.addr + b.size <= b.base + pages[i].used
  }

  /** `used` is the header, the skew and the blocks placed there, and stays within the page. */
  ghost predicate Accounted(p: Page, blocks: seq<Block>, pagesize: nat) {
    p.used == HEADER + Skew(p.base) + Given(blocks, p.base) <= pagesize && p.used < UINT_LIMIT
  }

  ghost predicate Good(pages: seq<Page>, blocks: seq<Block>, pagesize: nat) {
    && PagesApart(pages, pagesize) && BlocksApart(blocks)
    && (forall i :: 0 <= i < |pages| ==> Accounted(pages[i], blocks, pagesize))
    && (forall i :: 0 <= i < |blocks| ==> Inside(blocks[i], pages))
  }

  // ---------------------------------------------------------------- one more block

  /** The next free address of a page is a word's. */
  lemma {:induction false} GivenWords(blocks: seq<Block>, base: nat)
    requires forall i :: 0 <= i < |blocks| ==> blocks[i].size % WORD == 0
    ensures Given(blocks, base) % WORD == 0
  {
    if blocks != [] { GivenWords(blocks[..|blocks| - 1], base); }
  }

  lemma NextAligned(pages: seq<Page>, blocks: seq<Block>, pagesize: nat, i: nat)
    requires Good(pages, blocks, pagesize) && i < |pages|
    ensures (pages[i].base + pages[i].used) % WORD == 0
  {
    var p := pages[i];
    forall j | 0 <= j < |blocks| ensures blocks[j].size % WORD == 0 { assert Inside(blocks[j], pages); }
    GivenWords(blocks, p.base);
    assert Accounted(p, blocks, pagesize);
    AlignedSum(p.base, Given(blocks, p.base), p.used);
  }

  lemma AlignedSum(base: nat, given: nat, used: nat)
    requires given % WORD == 0 && used == HEADER + Skew(base) + given
    ensures (base + used) % WORD == 0
  {
  }

  /** The bases of distinct pages differ. */
  lemma BasesDiffer(pages: seq<Page>, pagesize: nat, i: nat, j: nat)
    requires PagesApart(pages, pagesize) && 0 < pagesize && i < |pages| && j < |pages| && i != j
    ensures pages[i].base != pages[j].base && Apart(pages[i].base, pagesize, pages[j].base, pagesize)
  {
    assert if i < j then Apart(pages[i].base, pagesize, pages[j].base, pagesize)
      else Apart(pages[j].base, pagesize, pages[i].base, pagesize);
  }

  /** A block at the end of what page `i` has used touches none before it. */
  lemma NewApart(pages: seq<Page>, blocks: seq<Block>, pagesize: nat, i: nat, r: nat, k: nat)
    requires Good(pages, blocks, pagesize) && i < |pages| && pages[i].used + r <= pagesize && k < |blocks|
    ensures Apart(blocks[k].addr, blocks[k].size, pages[i].base + pages[i].used, r)
  {
    var b := blocks[k];
    assert Inside(b, pages);
    var j :| 0 <= j < |pages| && pages[j].base == b.base
      && b.base + HEADER <= b.addr && b.addr + b.size <= b.base + pages[j].used;
    if j != i {
      BasesDiffer(pages, pagesize, i, j);
      assert Accounted(pages[j], blocks, pagesize);
    }
  }

  lemma StillInside(b: Block, pages: seq<Page>, i: nat, used: nat)
    requires Inside(b, pages) && i < |pages| && pages[i].used <= used
    ensures Inside(b, pages[i := pages[i].(used := used)])
  {
    var j :| 0 <= j < |pages| && pages[j].base == b.base
      && b.base + HEADER <= b.addr && b.addr + b.size <= b.base + pages[j].used;
    var pages' := pages[i := pages[i].(used := used)];
    assert pages'[j].base == b.base && b.addr + b.size <= b.base + pages'[j].used;
  }

  lemma PlaceKeeps(pages: seq<Page>, blocks: seq<Block>, pagesize: nat, i: nat, r: nat, pages': seq<Page>, b: Block)
    requires Good(pages, blocks, pagesize) && i < |pages| && r % WORD == 0
    requires pages[i].used + r <= pagesize && pages[i].used + r < UINT_LIMIT
    requires pages' == pages[i := pages[i].(used := pages[i].used + r)]
    requires b == Block(pages[i].base, pages[i].base + pages[i].used, r)
    ensures Good(pages', blocks + [b], pagesize)
  {
    forall j | 0 <= j < |pages'| ensures Accounted(pages'[j], blocks + [b], pagesize) {
      PlaceAccounted(pages, blocks, pagesize, i, r, pages', b, j);
    }
    forall k | 0 <= k < |blocks| ensures Apart(blocks[k].addr, blocks[k].size, b.addr, r) && Inside(blocks[k], pages') {
      NewApart(pages, blocks, pagesize, i, r, k);
      StillInside(blocks[k], pages, i, pages[i].used + r);
    }
    NewInside(pages, blocks, pagesize, i, r, pages', b);
    BlocksStillApart(blocks, b);
    PagesStillApart(pages, pages', pagesize);
  }

  lemma PlaceAccounted(pages: seq<Page>, blocks: seq<Block>, pagesize: nat, i: nat, r: nat,
                       pages': seq<Page>, b: Block, j: nat)
    requires Good(pages, blocks, pagesize) && i < |pages| && j < |pages|
    requires pages[i].used + r <= pagesize && pages[i].used + r < UINT_LIMIT
    requires pages' == pages[i := pages[i].(used := pages[i].used + r)]
    requires b == Block(pages[i].base, pages[i].base + pages[i].used, r)
    ensures Accounted(pages'[j], blocks + [b], pagesize)
  {
    assert (blocks + [b])[..|blocks|] == blocks;
    assert Accounted(pages[j], blocks, pagesize);
    if j != i { BasesDiffer(pages, pagesize, i, j); }
  }

  lemma NewInside(pages: seq<Page>, blocks: seq<Block>, pagesize: nat, i: nat, r: nat, pages': seq<Page>, b: Block)
    requires Good(pages, blocks, pagesize) && i < |pages| && r % WORD == 0
    requires pages' == pages[i := pages[i].(used := pages[i].used + r)]
    requires b == Block(pages[i].base, pages[i].base + pages[i].used, r)
    ensures Inside(b, pages')
  {
    NextAligned(pages, blocks, pagesize, i);
    assert Accounted(pages[i], blocks, pagesize) && pages'[i].base == b.base;
  }

  lemma BlocksStillApart(blocks: seq<Block>, b: Block)
    requires BlocksApart(blocks)
    requires forall k :: 0 <= k < |blocks| ==> Apart(blocks[k].addr, blocks[k].size, b.addr, b.size)
    ensures BlocksApart(blocks + [b])
  {
  }

  lemma PagesStillApart(pages: seq<Page>, pages': seq<Page>, pagesize: nat)
    requires |pages| == |pages'| && forall j :: 0 <= j < |pages| ==> pages'[j].base == pages[j].base
    requires PagesApart(pages, pagesize)
    ensures PagesApart(pages', pagesize)
  {
  }

  /** The page `_alloc` picks: the first that passes its test, or `|pages|`. */
  function Target(pages: seq<Page>, pagesize: nat, size: nat, i: nat): (k: nat)
    requires i <= |pages| && pagesize < SIZE_LIMIT && forall j :: 0 <= j < |pages| ==> pages[j].used < UINT_LIMIT
    ensures i <= k <= |pages| && (k < |pages| ==> size <= Minus(pagesize, pages[k].used))
    ensures forall j :: i <= j < k ==> size > Minus(pagesize, pages[j].used)
    decreases |pages| - i
  {
    if i == |pages| || size <= Minus(pagesize, pages[i].used) then i else Target(pages, pagesize, size, i + 1)
  }

  /** There is room for `size` bytes at the end of what the page picked has used; a new page is at `base`. */
  ghost predicate Room(pages: seq<Page>, pagesize: nat, size: nat, base: nat)
    requires pagesize < SIZE_LIMIT && forall j :: 0 <= j < |pages| ==> pages[j].used < UINT_LIMIT
  {
    var k := Target(pages, pagesize, size, 0);
    var used := if k < |pages| then pages[k].used else HEADER + Skew(base);
    used + size <= pagesize && used + size < UINT_LIMIT
  }

  class Allocator {
    const pagesize: nat
    var pages: seq<Page>  // newest first
    var count: nat
    var limit: nat
    ghost var blocks: seq<Block>

    /** What the types guarantee, whatever has happened. */
    ghost predicate Shaped()
      reads this
    {
      count == |pages| && pagesize < SIZE_LIMIT && forall j :: 0 <= j < |pages| ==> pages[j].used < UINT_LIMIT
    }

    ghost predicate Valid()
      reads this
    {
      Shaped() && Good(pages, blocks, pagesize)
    }

    /** `memalloc::memalloc`; `paging` is the system's page size. */
    constructor (ps: nat, paging: nat)
      requires paging > 0 && PageSize(ps, paging) < SIZE_LIMIT
      ensures Valid() && pagesize == PageSize(ps, paging) && pages == [] && blocks == [] && limit == 0
    {
      pagesize, pages, count, limit, blocks := PageSize(ps, paging), [], 0, 0, [];
    }

    /** `memalloc::purge`. */
    method Purge()
      requires Shaped()
      modifies this
      ensures Valid() && pages == [] && blocks == [] && limit == old(limit)
    {
      pages, count, blocks := [], 0, [];
    }

    /** The search in `memalloc::_alloc`. */
    method FirstFit(size: nat) returns (i: nat)
      requires Shaped()
      ensures i == Target(pages, pagesize, size, 0)
    {
      i := 0;
      while i < |pages|
        invariant i <= |pages| && Target(pages, pagesize, size, 0) == Target(pages, pagesize, size, i)
      {
        if size <= Minus(pagesize, pages[i].used) { return; }
        i := i + 1;
      }
    }

    /** Memory the system allocator may answer with: a page's worth clear of the pages held. */
    ghost predicate Clear(base: nat)
      reads this
    {
      forall i :: 0 <= i < |pages| ==> Apart(base, pagesize, pages[i].base, pagesize)
    }

    /** `memalloc::pager`; `answer` is what the system allocator returns. */
    method Pager(answer: Option<nat>) returns (failure: Option<Error>)
      requires Shaped() && (answer.Some? ==> Clear(answer.value))
      modifies this`pages, this`count
      ensures Shaped()
      ensures failure == if limit > 0 && old(count) >= limit then Some(Exhausted)
        else if answer.None? then Some(NoMemory) else None
      ensures failure.Some? ==> pages == old(pages)
      ensures failure.None? ==> pages == [Page(answer.value, HEADER + Skew(answer.value))] + old(pages)
    {
      if limit > 0 && count >= limit { return Some(Exhausted); }
      if answer.None? { return Some(NoMemory); }
      var base := answer.value;
      count := count + 1;
      var used := HEADER;
      if base % WORD != 0 { used := used + (WORD - base % WORD); }
      pages := [Page(base, used)] + pages;
      failure := None;
    }

    /** The end of `memalloc::_alloc`, which does not look whether page `i` has room. */
    method PlaceOn(i: nat, size: nat) returns (addr: nat)
      requires Shaped() && i < |pages| && size % WORD == 0
      modifies this`pages, this`blocks
      ensures Shaped() && addr == old(pages[i].base + pages[i].used)
      ensures pages == old(pages)[i := Page(old(pages[i].base), (old(pages[i].used) + size) % UINT_LIMIT)]
      ensures blocks == old(blocks) + [Block(pages[i].base, addr, size)]
    {
      var p := pages[i];
      addr := p.base + p.used;
      pages := pages[i := p.(used := (p.used + size) % UINT_LIMIT)];
      blocks := blocks + [Block(p.base, addr, size)];
    }

    /** A block on a new page. */
    method GrantNew(size: nat, answer: Option<nat>) returns (r: Result)
      requires Shaped() && size % WORD == 0 && (answer.Some? ==> Clear(answer.value))
      modifies this`pages, this`count, this`blocks
      ensures Shaped()
      ensures if 0 < limit <= old(count) then r == Err(Exhausted)
        else if answer.None? then r == Err(NoMemory)
        else r == Ok(answer.value + HEADER + Skew(answer.value))
      ensures r.Err? ==> pages == old(pages) && blocks == old(blocks)
      ensures r.Ok? ==> answer.Some? && blocks == old(blocks) + [Block(answer.value, r.addr, size)]
      ensures r.Ok? ==> pages == [Page(answer.value, (HEADER + Skew(answer.value) + size) % UINT_LIMIT)] + old(pages)
    {
      ghost var was := pages;
      var failure := Pager(answer);
      if failure.Some? { return Err(failure.value); }
      ghost var base, used := answer.value, HEADER + Skew(answer.value);
      var addr := PlaceOn(0, size);
      FirstChanged(was, Page(base, used), Page(base, (used + size) % UINT_LIMIT));
      r := Ok(addr);
    }

    /** `memalloc::_alloc` for a rounded size. */
    method Grant(size: nat, answer: Option<nat>) returns (r: Result, ghost i: nat)
      requires Shaped() && size % WORD == 0 && (answer.Some? ==> Clear(answer.value))
      modifies this
      ensures Shaped() && limit == old(limit)
      ensures Target(old(pages), pagesize, size, 0) < |old(pages)| ==>
        r.Ok? && i == Target(old(pages), pagesize, size, 0) && |pages| == |old(pages)|
      ensures Target(old(pages), pagesize, size, 0) == |old(pages)| ==>
        if 0 < limit <= old(count) then r == Err(Exhausted)
        else if answer.None? then r == Err(NoMemory)
        else r.Ok? && i == 0 && pages != [] && pages[0].base == answer.value && pages[1..] == old(pages)
      ensures r.Err? ==> pages == old(pages) && blocks == old(blocks)
      ensures r.Ok? ==> i < |pages| && blocks == old(blocks) + [Block(pages[i].base, r.addr, size)]
      ensures r.Ok? && old(Valid()) ==>
        (Valid() <==> Room(old(pages), pagesize, size, if answer.Some? then answer.value else 0))
    {
      ghost var was, had := pages, blocks;
      var k := FirstFit(size);
      if k == |pages| {
        i := 0;
        r := GrantNew(size, answer);
      } else {
        i := k;
        var addr := PlaceOn(k, size);
        r := Ok(addr);
      }
      if r.Ok? && old(Valid()) {
        GrantExactly(was, had, pagesize, size, k, if answer.Some? then answer.value else 0, pages, blocks);
      }
    }

    /** `memalloc::_alloc`: the errors and what they leave alone, the page picked, and exactly when the
        blocks given out are still in order afterwards. */
    method Alloc(request: nat, answer: Option<nat>) returns (r: Result, ghost i: nat)
      requires Shaped() && 0 < request < SIZE_LIMIT && (answer.Some? ==> Clear(answer.value))
      modifies this
      ensures Shaped() && limit == old(limit)
      ensures r == Err(TooLarge) <==> request > Minus(pagesize, HEADER)
      ensures r.Err? ==> pages == old(pages) && blocks == old(blocks)
      ensures r != Err(TooLarge) && Target(old(pages), pagesize, Rounded(request), 0) < |old(pages)| ==>
        r.Ok? && i == Target(old(pages), pagesize, Rounded(request), 0) && |pages| == |old(pages)|
      ensures r != Err(TooLarge) && Target(old(pages), pagesize, Rounded(request), 0) == |old(pages)| ==>
        if 0 < limit <= old(count) then r == Err(Exhausted)
        else if answer.None? then r == Err(NoMemory)
        else r.Ok? && i == 0 && pages != [] && pages[0].base == answer.value && pages[1..] == old(pages)
      ensures r.Ok? ==> i < |pages| && blocks == old(blocks) + [Block(pages[i].base, r.addr, Rounded(request))]
      ensures r.Ok? && old(Valid()) ==>
        (Valid() <==> Room(old(pages), pagesize, Rounded(request), if answer.Some? then answer.value else 0))
    {
      if request > Minus(pagesize, HEADER) { return Err(TooLarge), 0; }
      var size := RoundUp(request);
      r, i := Grant(size, answer);
    }
  }

  /** After a block has been placed on the page picked, everything is in order exactly if it had room. */
  lemma GrantExactly(pages: seq<Page>, blocks: seq<Block>, pagesize: nat, size: nat, k: nat, base: nat,
                     pages': seq<Page>, blocks': seq<Block>)
    requires Good(pages, blocks, pagesize) && pagesize < SIZE_LIMIT && size % WORD == 0
    requires forall j :: 0 <= j < |pages| ==> pages[j].used < UINT_LIMIT
    requires k == Target(pages, pagesize, size, 0)
    requires k < |pages| ==> pages' == pages[k := Page(pages[k].base, (pages[k].used + size) % UINT_LIMIT)]
    requires k < |pages| ==> blocks' == blocks + [Block(pages[k].base, pages[k].base + pages[k].used, size)]
    requires k == |pages| ==> pages' == [Page(base, (HEADER + Skew(base) + size) % UINT_LIMIT)] + pages
    requires k == |pages| ==> blocks' == blocks + [Block(base, base + (HEADER + Skew(base)), size)]
    requires k == |pages| ==>
      forall i :: 0 <= i < |pages| ==> Apart(base, pagesize, pages[i].base, pagesize)
    ensures Good(pages', blocks', pagesize) <==> Room(pages, pagesize, size, base)
  {
    var used := if k < |pages| then pages[k].used else HEADER + Skew(base);
    RoomIs(pages, pagesize, size, base, k, used);
    if k < |pages| {
      PlaceExactly(pages, blocks, pagesize, k, size, pages[k], pages', blocks');
    } else {
      FreshExactly(pages, blocks, pagesize, base, used, size, pages', blocks');
    }
  }

  lemma RoomIs(pages: seq<Page>, pagesize: nat, size: nat, base: nat, k: nat, used: nat)
    requires pagesize < SIZE_LIMIT && forall j :: 0 <= j < |pages| ==> pages[j].used < UINT_LIMIT
    requires k == Target(pages, pagesize, size, 0)
    requires used == if k < |pages| then pages[k].used else HEADER + Skew(base)
    ensures Room(pages, pagesize, size, base) <==> used + size <= pagesize && used + size < UINT_LIMIT
  {
  }

  lemma FirstChanged(pages: seq<Page>, p: Page, q: Page)
    ensures ([p] + pages)[0 := q] == [q] + pages && ([q] + pages)[1..] == pages
  {
  }

  /** Placing a block keeps everything in order exactly when the page has room, and its count does not wrap. */
  lemma PlaceExactly(pages: seq<Page>, blocks: seq<Block>, pagesize: nat, i: nat, size: nat,
                     p: Page, pages': seq<Page>, blocks': seq<Block>)
    requires Good(pages, blocks, pagesize) && i < |pages| && size % WORD == 0 && p == pages[i]
    requires pages' == pages[i := Page(p.base, (p.used + size) % UINT_LIMIT)]
    requires blocks' == blocks + [Block(p.base, p.base + p.used, size)]
    ensures Good(pages', blocks', pagesize) <==> p.used + size <= pagesize && p.used + size < UINT_LIMIT
  {
    assert Accounted(p, blocks, pagesize);
    if p.used + size <= pagesize && p.used + size < UINT_LIMIT {
      PlaceKeeps(pages, blocks, pagesize, i, size, pages', Block(p.base, p.base + p.used, size));
    } else {
      PlaceBreaks(pages, blocks, pagesize, i, p, size, pages', blocks');
    }
  }

  /** The same for a new page, which may not even have room for its header. */
  lemma FreshExactly(pages: seq<Page>, blocks: seq<Block>, pagesize: nat, base: nat, used: nat, size: nat,
                     pages': seq<Page>, blocks': seq<Block>)
    requires Good(pages, blocks, pagesize) && size % WORD == 0 && used == HEADER + Skew(base)
    requires forall i :: 0 <= i < |pages| ==> Apart(base, pagesize, pages[i].base, pagesize)
    requires pages' == [Page(base, (used + size) % UINT_LIMIT)] + pages
    requires blocks' == blocks + [Block(base, base + used, size)]
    ensures Good(pages', blocks', pagesize) <==> used + size <= pagesize && used + size < UINT_LIMIT
  {
    if used <= pagesize {
      var p := Page(base, used);
      PagerKeeps(pages, blocks, pagesize, base);
      FirstChanged(pages, p, Page(base, (used + size) % UINT_LIMIT));
      PlaceExactly([p] + pages, blocks, pagesize, 0, size, p, pages', blocks');
    } else {
      FreshBreaks(blocks, pagesize, base, used, size, pages', blocks');
    }
  }

  lemma FreshBreaks(blocks: seq<Block>, pagesize: nat, base: nat, used: nat, size: nat,
                    pages': seq<Page>, blocks': seq<Block>)
    requires used == HEADER + Skew(base) > pagesize && blocks' == blocks + [Block(base, base + used, size)]
    requires pages' != [] && pages'[0] == Page(base, (used + size) % UINT_LIMIT)
    ensures !Good(pages', blocks', pagesize)
  {
    assert blocks'[..|blocks|] == blocks;
    assert !Accounted(pages'[0], blocks', pagesize);
  }

  lemma PlaceBreaks(pages: seq<Page>, blocks: seq<Block>, pagesize: nat, i: nat, p: Page, size: nat,
                    pages': seq<Page>, blocks': seq<Block>)
    requires i < |pages| && p.used == HEADER + Skew(p.base) + Given(blocks, p.base)
    requires pages' == pages[i := Page(p.base, (p.used + size) % UINT_LIMIT)]
    requires blocks' == blocks + [Block(p.base, p.base + p.used, size)]
    requires p.used + size > pagesize || p.used + size >= UINT_LIMIT
    ensures !Good(pages', blocks', pagesize)
  {
    assert blocks'[..|blocks|] == blocks;
    assert !Accounted(pages'[i], blocks', pagesize);
  }

  lemma RoundedNext(size: nat)
    requires size < SIZE_LIMIT && size % WORD != 0
    ensures Rounded((size + 1) % SIZE_LIMIT) == Rounded(size)
  {
    if size == SIZE_LIMIT - 1 {
      assert (size + 1) % SIZE_LIMIT == 0;
    } else {
      assert (size + 1) % SIZE_LIMIT == size + 1;
    }
  }

  /** The rounding loop of `_alloc`. */
  method RoundUp(request: nat) returns (size: nat)
    requires request < SIZE_LIMIT
    ensures size == Rounded(request)
  {
    size := request;
    while size % WORD != 0
      invariant 0 <= size < SIZE_LIMIT && Rounded(size) == Rounded(request)
      decreases if size == 0 then 0 else SIZE_LIMIT - size
    {
      RoundedNext(size);
      size := (size + 1) % SIZE_LIMIT;
    }
  }

  lemma PagerKeeps(pages: seq<Page>, blocks: seq<Block>, pagesize: nat, base: nat)
    requires Good(pages, blocks, pagesize) && HEADER + Skew(base) <= pagesize
    requires forall i :: 0 <= i < |pages| ==> Apart(base, pagesize, pages[i].base, pagesize)
    ensures Good([Page(base, HEADER + Skew(base))] + pages, blocks, pagesize)
  {
    var p := Page(base, HEADER + Skew(base));
    var pages' := [p] + pages;
    forall k | 0 <= k < |blocks| ensures Inside(blocks[k], pages') && blocks[k].base != base {
      var b := blocks[k];
      assert Inside(b, pages);
      var j :| 0 <= j < |pages| && pages[j].base == b.base
        && b.base + HEADER <= b.addr && b.addr + b.size <= b.base + pages[j].used;
      assert pages'[j + 1] == pages[j];
    }
    GivenNone(blocks, base);
    forall i | 0 <= i < |pages'| ensures Accounted(pages'[i], blocks, pagesize) {
      if i > 0 { assert pages'[i] == pages[i - 1] && Accounted(pages[i - 1], blocks, pagesize); }
    }
    assert PagesApart(pages', pagesize);
  }

  lemma {:induction false} GivenNone(blocks: seq<Block>, base: nat)
    requires forall k :: 0 <= k < |blocks| ==> blocks[k].base != base
    ensures Given(blocks, base) == 0
  {
    if blocks != [] { GivenNone(blocks[..|blocks| - 1], base); }
  }

  // ---------------------------------------------------------------- which page sizes are safe

  /** Every request the code admits has room on a new page at `base`, and its count does not wrap. */
  ghost predicate Roomy(pagesize: nat, base: nat)
    requires pagesize < SIZE_LIMIT
  {
    forall request :: 0 < request <= Minus(pagesize, HEADER) ==> Room([], pagesize, Rounded(request), base)
  }

  /** On pages that begin at a word this is so exactly when the page size is a multiple of the word that `used`
      can count and that has room for the header. */
  lemma SafeSizes(pagesize: nat, base: nat)
    requires pagesize < SIZE_LIMIT && base % WORD == 0
    ensures Roomy(pagesize, base) <==> pagesize % WORD == 0 && HEADER <= pagesize < UINT_LIMIT
  {
    if pagesize < HEADER {
      assert !Room([], pagesize, Rounded(1), base);
    } else if pagesize >= UINT_LIMIT || pagesize % WORD != 0 {
      var request := pagesize - HEADER;
      assert request > 0 && !Room([], pagesize, Rounded(request), base);
    }
  }

  /** So with such pages an orderly allocator stays orderly, whatever is asked of it. */
  lemma SafeAlways(pages: seq<Page>, blocks: seq<Block>, pagesize: nat, request: nat, base: nat)
    requires Good(pages, blocks, pagesize) && HEADER <= pagesize < UINT_LIMIT && pagesize % WORD == 0
    requires 0 < request <= Minus(pagesize, HEADER) && base % WORD == 0
    ensures forall j :: 0 <= j < |pages| ==> pages[j].used < UINT_LIMIT
    ensures Room(pages, pagesize, Rounded(request), base)
  {
    assert forall j :: 0 <= j < |pages| ==> Accounted(pages[j], blocks, pagesize);
    SafeSizes(pagesize, base);
    assert Room([], pagesize, Rounded(request), base);
  }

  /** Pages of 100 bytes, which the constructor accepts: a request for 84 bytes is placed past the end of its
      page, and from then on every request is, because the room left has wrapped around. */
  lemma OddPage(base: nat, size: nat)
    requires base % WORD == 0 && size < SIZE_LIMIT - 4
    ensures PageSize(100, 4096) == 100 && 84 <= Minus(100, HEADER)
    ensures !Room([], 100, Rounded(84), base) && HEADER + Skew(base) + Rounded(84) == 104
    ensures Target([Page(base, 104)], 100, size, 0) == 0 && !Room([Page(base, 104)], 100, size, base)
  {
    assert Rounded(84) == 88;
  }
}
