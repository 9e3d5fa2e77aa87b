/**
 The copy-on-write pager: a fault resolver over a snapshot's backing file, and the guest
 memory it yields, compared with loading the whole image up front.
 */
module CowPaging {
  import opened Common
  import opened SnapshotHeader

  datatype Action =
    | Populate(pageIndex: nat, guestPageAddr: nat, backingOffset: nat, len: nat)
    | AlreadyMapped(pageIndex: nat, guestPageAddr: nat)

  datatype RuntimeError =
    | MisalignedBase(baseAddr: nat, pageSize: nat)
    | FaultOutOfRange(faultAddr: nat, baseAddr: nat, endAddr: nat)
    | ArithmeticOverflow

  datatype Pager = Pager(base: u64, pageSize: u32, pageCount: u64, resident: seq<bool>)

  /** Only zero is a multiple of zero. */
  predicate IsMultipleOf(x: nat, n: nat) {
    if n == 0 then x == 0 else x % n == 0
  }

  function NewPager(base: u64, backing: Header): Result<Pager, RuntimeError> {
    if !IsMultipleOf(base, backing.pageSize) then Err(MisalignedBase(base, backing.pageSize))
    else Ok(Pager(base, backing.pageSize, backing.pageCount, seq(backing.pageCount, _ => false)))
  }

  function Total(p: Pager): nat {
    p.pageCount * p.pageSize
  }

  predicate Wellformed(p: Pager) {
    |p.resident| == p.pageCount
  }

  /** The end address of the region, which every fault computes, stays within 64 bits. */
  predicate EndFits(p: Pager) {
    p.base + Total(p) < U64_LIMIT
  }

  /** The faults the pager resolves. */
  predicate Covers(p: Pager, addr: nat) {
    EndFits(p) && p.base <= addr < p.base + Total(p)
  }

  /** Start of page `page`, relative to the start of the image. */
  function PageStart(p: Pager, page: nat): nat {
    page * p.pageSize
  }

  lemma {:induction false} PageEnds(p: Pager, page: nat)
    requires page < p.pageCount
    ensures PageStart(p, page) + p.pageSize <= Total(p)
  {
    assert (page + 1) * p.pageSize <= p.pageCount * p.pageSize;
  }

  lemma {:induction false} QuotientInRange(rel: nat, count: nat, size: nat)
    requires rel < count * size
    ensures size > 0
    ensures rel / size < count && rel == rel / size * size + rel % size
  {
    assert rel == rel / size * size + rel % size;
  }

  lemma {:induction false} QuotientOfPage(p: Pager, rel: nat)
    requires rel < Total(p)
    ensures p.pageSize > 0 && rel / p.pageSize < p.pageCount
    ensures rel == PageStart(p, rel / p.pageSize) + rel % p.pageSize
  {
    QuotientInRange(rel, p.pageCount, p.pageSize);
  }

  /** The page that holds `addr`, and the offset inside it. */
  function PageIndex(p: Pager, addr: nat): (page: nat)
    requires Covers(p, addr)
    ensures page < p.pageCount && p.pageSize > 0
  {
    QuotientOfPage(p, addr - p.base);
    (addr - p.base) / p.pageSize
  }

  function PageOffset(p: Pager, addr: nat): (at: nat)
    requires Covers(p, addr)
    ensures at < p.pageSize
    ensures addr - p.base == PageStart(p, PageIndex(p, addr)) + at
  {
    QuotientOfPage(p, addr - p.base);
    (addr - p.base) % p.pageSize
  }

  /**
   Resolves a faulting address.  The resident bit is set before the backing offset is
   checked for overflow, as the code does.
   */
  function Resolve(p: Pager, addr: u64): (Pager, Result<Action, RuntimeError>)
    requires Wellformed(p)
  {
    var end := p.base + Total(p);
    if end >= U64_LIMIT then (p, Err(ArithmeticOverflow))
    else if addr < p.base || addr >= end then (p, Err(FaultOutOfRange(addr, p.base, end)))
    else
      var page := PageIndex(p, addr);
      var pageAddr := p.base + PageStart(p, page);
      if p.resident[page] then (p, Ok(AlreadyMapped(page, pageAddr)))
      else
        var p' := p.(resident := p.resident[page := true]);
        var offset := HEADER_LEN + PageStart(p, page);
        if offset >= U64_LIMIT then (p', Err(ArithmeticOverflow))
        else (p', Ok(Populate(page, pageAddr, offset, p.pageSize)))
  }

  function CountTrue(bits: seq<bool>): nat {
    if bits == [] then 0 else CountTrue(bits[..|bits| - 1]) + (if bits[|bits| - 1] then 1 else 0)
  }

  /** The page index and page start of a covered address, as the fault handler computes them. */
  method Locate(ghost p: Pager, base: u64, pageSize: u32, addr: nat) returns (page: nat, start: nat)
    requires p.pageSize == pageSize && p.base == base && Covers(p, addr)
    ensures page == PageIndex(p, addr) && start == PageStart(p, page)
  {
    hide Total;
    assert PageIndex(p, addr) < p.pageCount;
    page := (addr - base) / pageSize;
    start := page * pageSize;
  }

  class CowPager {
    const baseAddr: u64
    const pageSize: u32
    const pageCount: u64
    const resident: array<bool>

    function Abs(): Pager
      reads this, resident
    {
      Pager(baseAddr, pageSize, pageCount, resident[..])
    }

    ghost predicate Valid()
      reads this
    {
      resident.Length == pageCount
    }

    constructor (base: u64, backing: Header)
      requires IsMultipleOf(base, backing.pageSize)
      ensures Valid() && NewPager(base, backing) == Ok(Abs())
      ensures fresh(resident)
    {
      baseAddr, pageSize, pageCount := base, backing.pageSize, backing.pageCount;
      resident := new bool[backing.pageCount](_ => false);
      new;
      assert resident[..] == seq(backing.pageCount, _ => false);
    }

    method HandleFault(addr: u64) returns (r: Result<Action, RuntimeError>)
      requires Valid()
      modifies resident
      ensures Valid() && (Abs(), r) == Resolve(old(Abs()), addr)
    {
      var total := pageCount * pageSize;
      ghost var p := Abs();
      assert total == Total(p);
      hide Total, PageStart;
      if total >= U64_LIMIT {
        return Err(ArithmeticOverflow);
      }
      var end := baseAddr + total;
      if end >= U64_LIMIT {
        return Err(ArithmeticOverflow);
      }
      if addr < baseAddr || addr >= end {
        return Err(FaultOutOfRange(addr, baseAddr, end));
      }
      var page, start := Locate(p, baseAddr, pageSize, addr);
      var pageAddr := baseAddr + start;
      if resident[page] {
        return Ok(AlreadyMapped(page, pageAddr));
      }
      resident[page] := true;
      var offset := HEADER_LEN + start;
      if offset >= U64_LIMIT {
        return Err(ArithmeticOverflow);
      }
      r := Ok(Populate(page, pageAddr, offset, pageSize));
    }

    method ResidentPages() returns (n: nat)
      requires Valid()
      ensures n == CountTrue(resident[..])
    {
      n := 0;
      for i := 0 to resident.Length
        invariant n == CountTrue(resident[..i])
      {
        assert resident[..i + 1][..i] == resident[..i];
        if resident[i] {
          n := n + 1;
        }
      }
      assert resident[..resident.Length] == resident[..];
    }
  }

  /** Which bases are accepted, and the pager each gives: nothing resident yet. */
  lemma {:induction false} OpensExactlyWhenAligned(base: u64, h: Header)
    ensures NewPager(base, h).Ok? <==> if h.pageSize == 0 then base == 0 else base % h.pageSize == 0
    ensures NewPager(base, h).Err? ==> NewPager(base, h) == Err(MisalignedBase(base, h.pageSize))
    ensures NewPager(base, h).Ok? ==>
              var p := NewPager(base, h).value;
              && p.base == base && p.pageSize == h.pageSize && p.pageCount == h.pageCount
              && |p.resident| == h.pageCount && forall i :: 0 <= i < h.pageCount ==> !p.resident[i]
  {
  }

  /** Opening a pager fails exactly when the base is not page aligned. */
  method OpenPager(base: u64, backing: Header) returns (r: Result<CowPager, RuntimeError>)
    ensures r.Err? ==> NewPager(base, backing) == Err(r.error)
    ensures r.Ok? ==> fresh(r.value) && fresh(r.value.resident) && r.value.Valid()
                      && NewPager(base, backing) == Ok(r.value.Abs())
  {
    if !IsMultipleOf(base, backing.pageSize) {
      return Err(MisalignedBase(base, backing.pageSize));
    }
    var pager := new CowPager(base, backing);
    r := Ok(pager);
  }

  // ---------------------------------------------------------------------------
  // Guest memory, lazily paged and eagerly loaded
  // ---------------------------------------------------------------------------

  datatype Op = Touch(addr: u64) | Read(addr: u64) | Write(addr: u64, value: byte)

  /** A lazily paged guest: its pager, the pages copied in so far, and the copies in order. */
  datatype Guest = Guest(pager: Pager, pages: seq<Option<seq<byte>>>, copies: seq<Action>)

  predicate Shaped(g: Guest) {
    Wellformed(g.pager) && |g.pages| == g.pager.pageCount
  }

  function Boot(pager: Pager): Guest {
    Guest(pager, seq(pager.pageCount, _ => None), [])
  }

  /** The page a copy brings in from the file. */
  function Slice(file: seq<byte>, from: nat, len: nat): seq<byte>
    requires from + len <= |file|
  {
    file[from..from + len]
  }

  predicate FileHolds(file: seq<byte>, p: Pager) {
    HEADER_LEN + Total(p) <= |file|
  }

  /** Lays a page's bytes down `offset` bytes into the guest's region. */
  function MapAt(pages: seq<Option<seq<byte>>>, pageSize: nat, offset: nat, bytes: seq<byte>):
    (mapped: seq<Option<seq<byte>>>)
    ensures |mapped| == |pages|
  {
    if pages == [] then []
    else if offset < pageSize || pageSize == 0 then [Some(bytes)] + pages[1..]
    else [pages[0]] + MapAt(pages[1..], pageSize, offset - pageSize, bytes)
  }

  lemma {:induction false} MapAtPage(pages: seq<Option<seq<byte>>>, pageSize: nat, page: nat, bytes: seq<byte>)
    requires page < |pages| && pageSize > 0
    ensures MapAt(pages, pageSize, page * pageSize, bytes) == pages[page := Some(bytes)]
  {
    if page > 0 {
      assert page * pageSize == (page - 1) * pageSize + pageSize;
      MapAtPage(pages[1..], pageSize, page - 1, bytes);
      assert pages == [pages[0]] + pages[1..];
    }
  }

  /** Resolve the fault, then perform the copy it asks for: the bytes go where the action's
      guest address says. */
  function FaultIn(file: seq<byte>, g: Guest, addr: u64): (Guest, bool)
    requires Shaped(g) && FileHolds(file, g.pager)
  {
    var (pager, r) := Resolve(g.pager, addr);
    var g1 := g.(pager := pager);
    match r
    case Err(_) => (g1, false)
    case Ok(AlreadyMapped(_, _)) => (g1, true)
    case Ok(Populate(page, pageAddr, offset, len)) =>
      PageEnds(g.pager, page);
      var bytes := Slice(file, offset, len);
      (g1.(pages := MapAt(g.pages, g.pager.pageSize, Max(0, pageAddr - g.pager.base), bytes),
           copies := g.copies + [r.value]), true)
  }

  /** The copied page is the one that faulted. */
  lemma {:induction false} FaultInMapsItsPage(file: seq<byte>, g: Guest, addr: u64)
    requires Shaped(g) && FileHolds(file, g.pager) && Resolve(g.pager, addr).1.Ok?
    requires Resolve(g.pager, addr).1.value.Populate?
    ensures var Populate(page, pageAddr, offset, len) := Resolve(g.pager, addr).1.value;
            && page < |g.pages| && offset + len <= |file| && pageAddr >= g.pager.base
            && MapAt(g.pages, g.pager.pageSize, pageAddr - g.pager.base, Slice(file, offset, len))
               == g.pages[page := Some(Slice(file, offset, len))]
  {
    var page := PageIndex(g.pager, addr);
    PageEnds(g.pager, page);
    var Populate(_, _, offset, len) := Resolve(g.pager, addr).1.value;
    MapAtPage(g.pages, g.pager.pageSize, page, Slice(file, offset, len));
    hide Total, PageIndex;
  }

  /**
   What a fault answers, for every address: which error outside the region, and inside it the
   page the address lies on, by index and by the guest address that page starts at.
   */
  lemma {:induction false} FaultAnswers(p: Pager, addr: u64)
    requires Wellformed(p)
    ensures var (q, r) := Resolve(p, addr);
            if !EndFits(p) then r == Err(ArithmeticOverflow) && q == p
            else if !(p.base <= addr < p.base + Total(p)) then
              r == Err(FaultOutOfRange(addr, p.base, p.base + Total(p))) && q == p
            else
              && p.pageSize > 0 && (addr - p.base) / p.pageSize < p.pageCount
              && var page := (addr - p.base) / p.pageSize;
                 && q == p.(resident := p.resident[page := true])
                 && (r.Err? ==> r.error == ArithmeticOverflow && !p.resident[page])
                 && (r.Ok? ==> && r.value.pageIndex == page && (r.value.AlreadyMapped? <==> p.resident[page])
                               && r.value.guestPageAddr == p.base + page * p.pageSize
                               && r.value.guestPageAddr <= addr < r.value.guestPageAddr + p.pageSize)
  {
    if Covers(p, addr) {
      QuotientOfPage(p, addr - p.base);
      var page := PageIndex(p, addr);
      assert PageStart(p, page) == page * p.pageSize;
      hide Total, PageStart;
      assert p.resident[page] ==> p.resident[page := true] == p.resident;
    }
  }

  /** Read or write page bytes that are present; a missing page gives no answer. */
  function Access(g: Guest, page: nat, at: nat, op: Op): (Guest, Option<byte>)
    requires page < |g.pages|
  {
    match g.pages[page]
    case None => (g, None)
    case Some(bytes) =>
      if at >= |bytes| then (g, None)
      else match op
        case Touch(_) => (g, None)
        case Read(_) => (g, Some(bytes[at]))
        case Write(_, v) => (g.(pages := g.pages[page := Some(bytes[at := v])]), Some(v))
  }

  /** One guest access: fault, then use the page that is now there, if it is. */
  function LazyStep(file: seq<byte>, g: Guest, op: Op): (Guest, Option<byte>)
    requires Shaped(g) && FileHolds(file, g.pager)
  {
    var (g1, ok) := FaultIn(file, g, op.addr);
    if ok && Covers(g.pager, op.addr) then
      Access(g1, PageIndex(g.pager, op.addr), PageOffset(g.pager, op.addr), op)
    else (g1, None)
  }

  /** The same access by a guest with the whole image loaded at `base`. */
  function EagerStep(base: nat, mem: seq<byte>, op: Op): (seq<byte>, Option<byte>) {
    if !(base <= op.addr < base + |mem|) then (mem, None)
    else match op
      case Touch(_) => (mem, None)
      case Read(addr) => (mem, Some(mem[addr - base]))
      case Write(addr, v) => (mem[addr - base := v], Some(v))
  }

  function LazyRun(file: seq<byte>, g: Guest, ops: seq<Op>): (Guest, seq<Option<byte>>)
    requires Shaped(g) && FileHolds(file, g.pager)
    decreases |ops|
  {
    if ops == [] then (g, []) else
      var (g1, out) := LazyStep(file, g, ops[0]);
      LazyStepKeepsShape(file, g, ops[0]);
      var (g2, outs) := LazyRun(file, g1, ops[1..]);
      (g2, [out] + outs)
  }

  function EagerRun(base: nat, mem: seq<byte>, ops: seq<Op>): (seq<byte>, seq<Option<byte>>)
    decreases |ops|
  {
    if ops == [] then (mem, []) else
      var (mem1, out) := EagerStep(base, mem, ops[0]);
      var (mem2, outs) := EagerRun(base, mem1, ops[1..]);
      (mem2, [out] + outs)
  }

  /** What stays fixed while a pager works. */
  predicate SameGeometry(p: Pager, q: Pager) {
    p.base == q.base && p.pageSize == q.pageSize && p.pageCount == q.pageCount
  }

  lemma {:induction false} LazyStepKeepsShape(file: seq<byte>, g: Guest, op: Op)
    requires Shaped(g) && FileHolds(file, g.pager)
    ensures var g' := LazyStep(file, g, op).0;
            Shaped(g') && SameGeometry(g.pager, g'.pager) && FileHolds(file, g'.pager)
  {
    hide Total, PageStart;
    SameTotal(g.pager, LazyStep(file, g, op).0.pager);
  }

  lemma {:induction false} SameTotal(p: Pager, q: Pager)
    ensures SameGeometry(p, q) ==> Total(p) == Total(q)
  {
  }

  // ---------------------------------------------------------------------------
  // Lazy equals eager
  // ---------------------------------------------------------------------------

  /** No page starts so far into the file that its backing offset leaves 64 bits. */
  predicate OffsetsFit(p: Pager) {
    p.pageCount > 0 ==> HEADER_LEN + PageStart(p, p.pageCount - 1) < U64_LIMIT
  }

  /** Page `i` of an image held in memory. */
  function PageOf(p: Pager, mem: seq<byte>, i: nat): (bytes: seq<byte>)
    requires |mem| == Total(p) && i < p.pageCount
    ensures |bytes| == p.pageSize
  {
    PageEnds(p, i);
    mem[PageStart(p, i)..PageStart(p, i) + p.pageSize]
  }

  function FilePage(file: seq<byte>, p: Pager, i: nat): seq<byte>
    requires FileHolds(file, p) && i < p.pageCount
  {
    PageEnds(p, i);
    Slice(file, HEADER_LEN + PageStart(p, i), p.pageSize)
  }

  /** One page of the lazy guest agrees with the eager image, present or not. */
  ghost predicate PageAgrees(file: seq<byte>, g: Guest, mem: seq<byte>, i: nat)
    requires Shaped(g) && FileHolds(file, g.pager) && |mem| == Total(g.pager) && i < g.pager.pageCount
  {
    if g.pager.resident[i] then g.pages[i] == Some(PageOf(g.pager, mem, i))
    else g.pages[i] == None && PageOf(g.pager, mem, i) == FilePage(file, g.pager, i)
  }

  ghost predicate Agrees(file: seq<byte>, g: Guest, mem: seq<byte>) {
    && Shaped(g) && FileHolds(file, g.pager) && |mem| == Total(g.pager)
    && forall i :: 0 <= i < g.pager.pageCount ==> PageAgrees(file, g, mem, i)
  }

  lemma {:induction false} PageStartsFit(p: Pager, page: nat)
    requires OffsetsFit(p) && page < p.pageCount
    ensures HEADER_LEN + PageStart(p, page) < U64_LIMIT
  {
    assert page * p.pageSize <= (p.pageCount - 1) * p.pageSize;
  }

  /** A resolved fault leaves the page resident with the right bytes, and every page agreeing. */
  lemma {:induction false} FaultInAgrees(file: seq<byte>, g: Guest, mem: seq<byte>, addr: u64)
    requires Agrees(file, g, mem) && OffsetsFit(g.pager)
    ensures var (g1, ok) := FaultIn(file, g, addr);
            && Agrees(file, g1, mem) && SameGeometry(g.pager, g1.pager)
            && (ok <==> Covers(g.pager, addr))
            && (ok ==> g1.pager.resident[PageIndex(g.pager, addr)])
  {
    hide Total, PageStart, PageIndex, PageOf, FilePage;
    hide MapAt;
    var (g1, ok) := FaultIn(file, g, addr);
    SameTotal(g.pager, g1.pager);
    if Covers(g.pager, addr) {
      var page := PageIndex(g.pager, addr);
      PageStartsFit(g.pager, page);
      if !g.pager.resident[page] {
        FaultInMapsItsPage(file, g, addr);
      }
      forall i | 0 <= i < g.pager.pageCount ensures PageAgrees(file, g1, mem, i) {
        assert PageAgrees(file, g, mem, i);
        PagesBySamePager(file, g.pager, g1.pager, mem, i);
        FilePageIsCopied(file, g, i);
      }
    }
  }

  lemma {:induction false} PagesBySamePager(file: seq<byte>, p: Pager, q: Pager, mem: seq<byte>, i: nat)
    requires SameGeometry(p, q) && FileHolds(file, p) && FileHolds(file, q)
    requires |mem| == Total(p) == Total(q) && i < p.pageCount
    ensures PageOf(p, mem, i) == PageOf(q, mem, i) && FilePage(file, p, i) == FilePage(file, q, i)
  {
  }

  lemma {:induction false} FilePageIsCopied(file: seq<byte>, g: Guest, i: nat)
    requires FileHolds(file, g.pager) && i < g.pager.pageCount
    ensures HEADER_LEN + PageStart(g.pager, i) + g.pager.pageSize <= |file|
    ensures FilePage(file, g.pager, i) == Slice(file, HEADER_LEN + PageStart(g.pager, i), g.pager.pageSize)
  {
    PageEnds(g.pager, i);
  }

  lemma {:induction false} PagesAreDisjoint(p: Pager, i: nat, j: nat)
    requires i < j
    ensures PageStart(p, i) + p.pageSize <= PageStart(p, j)
  {
    assert (i + 1) * p.pageSize <= j * p.pageSize;
  }

  /** Writing one byte of the image changes that byte of its page and no other page. */
  lemma {:induction false} WriteOnePage(p: Pager, mem: seq<byte>, k: nat, page: nat, at: nat, v: byte, i: nat)
    requires |mem| == Total(p) && k < |mem| && page < p.pageCount && i < p.pageCount
    requires at < p.pageSize && k == PageStart(p, page) + at
    ensures PageOf(p, mem[k := v], i)
         == if i == page then PageOf(p, mem, i)[at := v] else PageOf(p, mem, i)
  {
    hide PageStart, Total;
    PageEnds(p, page);
    PageEnds(p, i);
    if i < page {
      PagesAreDisjoint(p, i, page);
    } else if page < i {
      PagesAreDisjoint(p, page, i);
    }
  }

  lemma {:induction false} AccessAgrees(file: seq<byte>, g: Guest, mem: seq<byte>, op: Op)
    requires Agrees(file, g, mem) && Covers(g.pager, op.addr)
    requires g.pager.resident[PageIndex(g.pager, op.addr)]
    ensures var (g1, out) := Access(g, PageIndex(g.pager, op.addr), PageOffset(g.pager, op.addr), op);
            var (mem1, expected) := EagerStep(g.pager.base, mem, op);
            out == expected && Agrees(file, g1, mem1)
  {
    hide Total, PageStart, PageIndex, PageOffset, FilePage, PageOf;
    var p, page, at := g.pager, PageIndex(g.pager, op.addr), PageOffset(g.pager, op.addr);
    assert PageAgrees(file, g, mem, page);
    PageBytes(p, mem, page, at);
    var (g1, out) := Access(g, page, at, op);
    var (mem1, expected) := EagerStep(p.base, mem, op);
    if op.Write? {
      forall i | 0 <= i < p.pageCount ensures PageAgrees(file, g1, mem1, i) {
        assert PageAgrees(file, g, mem, i);
        WriteOnePage(p, mem, op.addr - p.base, page, at, op.value, i);
      }
    }
  }

  lemma {:induction false} PageBytes(p: Pager, mem: seq<byte>, page: nat, at: nat)
    requires |mem| == Total(p) && page < p.pageCount && at < p.pageSize
    ensures PageStart(p, page) + at < |mem|
    ensures PageOf(p, mem, page)[at] == mem[PageStart(p, page) + at]
  {
    hide PageStart, Total;
    PageEnds(p, page);
  }

  lemma {:induction false} LazyStepAgrees(file: seq<byte>, g: Guest, mem: seq<byte>, op: Op)
    requires Agrees(file, g, mem) && OffsetsFit(g.pager) && EndFits(g.pager)
    ensures var (g1, out) := LazyStep(file, g, op);
            var (mem1, expected) := EagerStep(g.pager.base, mem, op);
            out == expected && Agrees(file, g1, mem1) && SameGeometry(g.pager, g1.pager)
  {
    hide Total, PageStart, PageIndex, PageOffset, Agrees, FaultIn, Access;
    AgreesShape(file, g, mem);
    var (g1, ok) := FaultIn(file, g, op.addr);
    FaultInAgrees(file, g, mem, op.addr);
    AgreesShape(file, g1, mem);
    if ok {
      SamePlace(g.pager, g1.pager, op.addr);
      AccessAgrees(file, g1, mem, op);
      AccessKeepsPager(g1, PageIndex(g.pager, op.addr), PageOffset(g.pager, op.addr), op);
    }
  }

  lemma {:induction false} AgreesShape(file: seq<byte>, g: Guest, mem: seq<byte>)
    requires Agrees(file, g, mem)
    ensures Shaped(g) && FileHolds(file, g.pager) && |mem| == Total(g.pager)
  {
  }

  lemma {:induction false} AccessKeepsPager(g: Guest, page: nat, at: nat, op: Op)
    requires page < |g.pages|
    ensures Access(g, page, at, op).0.pager == g.pager
  {
  }

  lemma {:induction false} SamePlace(p: Pager, q: Pager, addr: nat)
    requires SameGeometry(p, q) && Covers(p, addr)
    ensures Covers(q, addr) && PageIndex(p, addr) == PageIndex(q, addr) && PageOffset(p, addr) == PageOffset(q, addr)
  {
  }

  lemma {:induction false} LazyRunAgrees(file: seq<byte>, g: Guest, mem: seq<byte>, ops: seq<Op>)
    requires Agrees(file, g, mem) && OffsetsFit(g.pager) && EndFits(g.pager)
    ensures var (g1, outs) := LazyRun(file, g, ops);
            var (mem1, expected) := EagerRun(g.pager.base, mem, ops);
            outs == expected && Agrees(file, g1, mem1)
    decreases |ops|
  {
    hide Agrees, LazyStep, EagerStep, Total, PageStart;
    AgreesShape(file, g, mem);
    if ops != [] {
      LazyStepAgrees(file, g, mem, ops[0]);
      var g1 := LazyStep(file, g, ops[0]).0;
      AgreesShape(file, g1, EagerStep(g.pager.base, mem, ops[0]).0);
      OffsetsFitBySamePager(g.pager, g1.pager);
      LazyRunAgrees(file, g1, EagerStep(g.pager.base, mem, ops[0]).0, ops[1..]);
    }
  }

  lemma {:induction false} OffsetsFitBySamePager(p: Pager, q: Pager)
    requires SameGeometry(p, q)
    ensures OffsetsFit(p) <==> OffsetsFit(q)
    ensures EndFits(p) <==> EndFits(q)
  {
  }

  /** The image a header promises, read whole. */
  function Image(file: seq<byte>, h: Header): seq<byte>
    requires HEADER_LEN + h.memoryBytes <= |file|
  {
    file[HEADER_LEN..HEADER_LEN + h.memoryBytes]
  }

  /** The lazy guest, after these accesses, has read what the eager one has, and its pages
      agree with the image overlaid with the guest's own writes. */
  ghost predicate LazyIsEager(file: seq<byte>, pager: Pager, image: seq<byte>, ops: seq<Op>)
    requires Shaped(Boot(pager)) && FileHolds(file, pager)
  {
    var (mem, expected) := EagerRun(pager.base, image, ops);
    var (g, outs) := LazyRun(file, Boot(pager), ops);
    outs == expected && Agrees(file, g, mem)
  }

  /** For any file whose header parses and any accesses, lazy is eager as long as neither
      the end address nor a backing offset leaves 64 bits. */
  lemma {:induction false} LazyEqualsEager(file: seq<byte>, base: u64, ops: seq<Op>)
    requires FromBytes(file).Ok?
    requires var h := FromBytes(file).value; HEADER_LEN + h.memoryBytes <= |file| && NewPager(base, h).Ok?
    requires var pager := NewPager(base, FromBytes(file).value).value; EndFits(pager) && OffsetsFit(pager)
    ensures var h := FromBytes(file).value;
            var pager := NewPager(base, h).value;
            Shaped(Boot(pager)) && FileHolds(file, pager) && LazyIsEager(file, pager, Image(file, h), ops)
  {
    hide Agrees, LazyRun, EagerRun, OffsetsFit, EndFits, FromBytes;
    ParsedHeaderIsSound(file);
    var h := FromBytes(file).value;
    BootAgrees(file, base, h);
    LazyRunAgrees(file, Boot(NewPager(base, h).value), Image(file, h), ops);
  }

  lemma {:induction false} SliceOfSlice(file: seq<byte>, at: nat, size: nat, from: nat, len: nat)
    requires at + size <= |file| && from + len <= size
    ensures file[at..at + size][from..from + len] == Slice(file, at + from, len)
  {
    var inner := file[at..at + size];
    var lhs, rhs := inner[from..from + len], Slice(file, at + from, len);
    assert |lhs| == |rhs| == len;
    forall k | 0 <= k < len ensures lhs[k] == rhs[k] {
      assert lhs[k] == inner[from + k];
      assert rhs[k] == file[at + from + k];
    }
  }

  lemma {:induction false} BootAgrees(file: seq<byte>, base: u64, h: Header)
    requires h.memoryBytes == h.pageSize * h.pageCount && HEADER_LEN + h.memoryBytes <= |file|
    requires NewPager(base, h).Ok?
    ensures var boot := Boot(NewPager(base, h).value);
            Shaped(boot) && FileHolds(file, boot.pager) && Agrees(file, boot, Image(file, h))
  {
    var boot, mem := Boot(NewPager(base, h).value), Image(file, h);
    assert Total(boot.pager) == h.memoryBytes;
    forall i | 0 <= i < boot.pager.pageCount ensures PageAgrees(file, boot, mem, i) {
      hide Total, PageStart;
      PageEnds(boot.pager, i);
      var from := PageStart(boot.pager, i);
      SliceOfSlice(file, HEADER_LEN, h.memoryBytes, from, h.pageSize);
      assert !boot.pager.resident[i] && boot.pages[i] == None;
    }
  }

  // ---------------------------------------------------------------------------
  // Copies
  // ---------------------------------------------------------------------------

  lemma {:induction false} CountTrueSet(bits: seq<bool>, i: nat)
    requires i < |bits| && !bits[i]
    ensures CountTrue(bits[i := true]) == CountTrue(bits) + 1
  {
    var last := |bits| - 1;
    if i == last {
      assert bits[i := true][..last] == bits[..last];
    } else {
      assert bits[i := true][..last] == bits[..last][i := true];
      CountTrueSet(bits[..last], i);
    }
  }

  lemma {:induction false} NoneTrue(n: nat)
    ensures CountTrue(seq(n, _ => false)) == 0
  {
    if n > 0 {
      assert seq(n, _ => false)[..n - 1] == seq(n - 1, _ => false);
      NoneTrue(n - 1);
    }
  }

  /** A copy of a resident page, from that page's own range of the file. */
  ghost predicate CopyIsSound(p: Pager, c: Action) {
    && c.Populate? && c.pageIndex < |p.resident| && p.resident[c.pageIndex]
    && c.backingOffset == HEADER_LEN + PageStart(p, c.pageIndex) && c.len == p.pageSize
  }

  ghost predicate CopiesAreSound(g: Guest) {
    && Wellformed(g.pager)
    && (forall k :: 0 <= k < |g.copies| ==> CopyIsSound(g.pager, g.copies[k]))
    && (forall k, l :: 0 <= k < l < |g.copies| ==> g.copies[k].pageIndex != g.copies[l].pageIndex)
    && |g.copies| == CountTrue(g.pager.resident)
  }

  lemma {:induction false} StepKeepsCopies(file: seq<byte>, g: Guest, op: Op)
    requires Shaped(g) && FileHolds(file, g.pager) && OffsetsFit(g.pager) && CopiesAreSound(g)
    ensures var g1 := LazyStep(file, g, op).0; CopiesAreSound(g1) && OffsetsFit(g1.pager)
  {
    hide Total, PageStart, PageIndex, PageOffset, OffsetsFit, CountTrue;
    var g1, ok := FaultIn(file, g, op.addr).0, FaultIn(file, g, op.addr).1;
    var g2 := LazyStep(file, g, op).0;
    assert g2.pager == g1.pager && g2.copies == g1.copies;
    OffsetsFitBySamePager(g.pager, g2.pager);
    if Covers(g.pager, op.addr) {
      var page := PageIndex(g.pager, op.addr);
      PageStartsFit(g.pager, page);
      if !g.pager.resident[page] {
        CountTrueSet(g.pager.resident, page);
        SameStarts(g.pager, g1.pager);
        forall k | 0 <= k < |g1.copies| ensures CopyIsSound(g1.pager, g1.copies[k]) {
          if k < |g.copies| {
            assert CopyIsSound(g.pager, g.copies[k]);
          }
        }
      }
    }
  }

  lemma {:induction false} SameStarts(p: Pager, q: Pager)
    requires SameGeometry(p, q)
    ensures forall i :: PageStart(p, i) == PageStart(q, i)
  {
  }

  lemma {:induction false} RunKeepsCopies(file: seq<byte>, g: Guest, ops: seq<Op>)
    requires Shaped(g) && FileHolds(file, g.pager) && OffsetsFit(g.pager) && CopiesAreSound(g)
    ensures var g1 := LazyRun(file, g, ops).0;
            CopiesAreSound(g1) && SameGeometry(g.pager, g1.pager)
    decreases |ops|
  {
    hide LazyStep, CopiesAreSound, OffsetsFit;
    if ops != [] {
      LazyStepKeepsShape(file, g, ops[0]);
      StepKeepsCopies(file, g, ops[0]);
      RunKeepsCopies(file, LazyStep(file, g, ops[0]).0, ops[1..]);
    }
  }

  /** Two copies take different pages, from disjoint ranges. */
  ghost predicate Disjoint(c: Action, d: Action) {
    && c.Populate? && d.Populate? && c.pageIndex != d.pageIndex
    && (c.backingOffset + c.len <= d.backingOffset || d.backingOffset + d.len <= c.backingOffset)
  }

  /** The copy reads inside the file's page data. */
  ghost predicate InsideData(p: Pager, c: Action) {
    c.Populate? && HEADER_LEN <= c.backingOffset && c.backingOffset + c.len <= HEADER_LEN + Total(p)
  }

  lemma {:induction false} SoundCopyIsInside(p: Pager, c: Action)
    requires Wellformed(p) && CopyIsSound(p, c)
    ensures InsideData(p, c)
  {
    hide Total, PageStart;
    PageEnds(p, c.pageIndex);
  }

  lemma {:induction false} SoundCopiesAreDisjoint(p: Pager, c: Action, d: Action)
    requires Wellformed(p) && CopyIsSound(p, c) && CopyIsSound(p, d) && c.pageIndex != d.pageIndex
    ensures Disjoint(c, d)
  {
    hide Total, PageStart;
    if c.pageIndex < d.pageIndex {
      PagesAreDisjoint(p, c.pageIndex, d.pageIndex);
    } else {
      PagesAreDisjoint(p, d.pageIndex, c.pageIndex);
    }
  }

  /**
   Over any accesses each page is copied at most once, from pairwise disjoint ranges inside
   the page data of the file, and the number of resident pages is the number of copies.
   */
  lemma {:induction false} EachPageCopiedOnce(file: seq<byte>, pager: Pager, ops: seq<Op>)
    requires pager.resident == seq(pager.pageCount, _ => false)
    requires FileHolds(file, pager) && OffsetsFit(pager) && Shaped(Boot(pager))
    ensures var g := LazyRun(file, Boot(pager), ops).0;
            && |g.copies| == CountTrue(g.pager.resident)
            && (forall k :: 0 <= k < |g.copies| ==> InsideData(pager, g.copies[k]))
            && (forall k, l :: 0 <= k < l < |g.copies| ==> Disjoint(g.copies[k], g.copies[l]))
  {
    hide LazyRun, CountTrue, OffsetsFit, Total, PageStart, CopyIsSound, Disjoint;
    NoneTrue(pager.pageCount);
    RunKeepsCopies(file, Boot(pager), ops);
    var g := LazyRun(file, Boot(pager), ops).0;
    SameTotal(pager, g.pager);
    forall k | 0 <= k < |g.copies| ensures InsideData(pager, g.copies[k]) {
      SoundCopyIsInside(g.pager, g.copies[k]);
    }
    forall k, l | 0 <= k < l < |g.copies| ensures Disjoint(g.copies[k], g.copies[l]) {
      SoundCopiesAreDisjoint(g.pager, g.copies[k], g.copies[l]);
    }
  }

  // ---------------------------------------------------------------------------
  // Two overflows
  // ---------------------------------------------------------------------------

  /** Reading an address the image has, but whose fault fails, tells lazy from eager. */
  lemma {:induction false} RefusedReadDiffers(file: seq<byte>, pager: Pager, mem: seq<byte>, addr: u64)
    requires FileHolds(file, pager) && Shaped(Boot(pager)) && |mem| == Total(pager)
    requires pager.base <= addr < pager.base + |mem| && Resolve(pager, addr).1.Err?
    ensures LazyRun(file, Boot(pager), [Read(addr)]).1 == [None]
    ensures EagerRun(pager.base, mem, [Read(addr)]).1 == [Some(mem[addr - pager.base])]
  {
    hide Total, PageStart, PageIndex, PageOffset, Resolve;
    var ops := [Read(addr)];
    assert ops[1..] == [];
    assert LazyStep(file, Boot(pager), ops[0]).1 == None;
    LazyStepKeepsShape(file, Boot(pager), ops[0]);
  }

  /** When the last page's offset overflows, reading it fails though the image has the byte. */
  lemma {:induction false} OverflowLosesThePage(file: seq<byte>, pager: Pager, mem: seq<byte>)
    requires pager.resident == seq(pager.pageCount, _ => false)
    requires FileHolds(file, pager) && Shaped(Boot(pager)) && |mem| == Total(pager)
    requires EndFits(pager) && pager.pageSize > 0 && !OffsetsFit(pager)
    ensures exists ops :: LazyRun(file, Boot(pager), ops).1 != EagerRun(pager.base, mem, ops).1
  {
    var last := pager.pageCount - 1;
    PageEnds(pager, last);
    var addr: u64 := pager.base + PageStart(pager, last);
    StartIsInItsPage(pager, last);
    assert Resolve(pager, addr).1.Err? by { hide Total, PageStart, PageIndex; }
    RefusedReadDiffers(file, pager, mem, addr);
    hide LazyRun, EagerRun, Total, PageStart;
    assert LazyRun(file, Boot(pager), [Read(addr)]).1[0] != EagerRun(pager.base, mem, [Read(addr)]).1[0];
  }

  /** When the end address overflows, every fault fails though the image is loadable. */
  lemma {:induction false} OverflowLosesTheRegion(file: seq<byte>, pager: Pager, mem: seq<byte>)
    requires FileHolds(file, pager) && Shaped(Boot(pager)) && |mem| == Total(pager) && !EndFits(pager)
    requires pager.base < U64_LIMIT
    ensures exists ops :: LazyRun(file, Boot(pager), ops).1 != EagerRun(pager.base, mem, ops).1
  {
    var addr: u64 := pager.base;
    hide Total;
    RefusedReadDiffers(file, pager, mem, addr);
    hide LazyRun, EagerRun;
    assert LazyRun(file, Boot(pager), [Read(addr)]).1[0] != EagerRun(pager.base, mem, [Read(addr)]).1[0];
  }

  lemma {:induction false} StartIsInItsPage(p: Pager, page: nat)
    requires page < p.pageCount && p.pageSize > 0 && Covers(p, p.base + PageStart(p, page))
    ensures PageIndex(p, p.base + PageStart(p, page)) == page
  {
    hide Total, PageStart, PageIndex, PageOffset;
    var addr := p.base + PageStart(p, page);
    var found, at := PageIndex(p, addr), PageOffset(p, addr);
    if found < page {
      PagesAreDisjoint(p, found, page);
    } else if page < found {
      PagesAreDisjoint(p, page, found);
    }
  }

  /** A header of 32-byte pages that validates and opens at address 0 has such an offset. */
  lemma {:induction false} OverflowingGeometry()
    ensures New(32, 0x800_0000_0000_0000 - 1).Ok?
    ensures var h := New(32, 0x800_0000_0000_0000 - 1).value;
            && Validate(h).Ok? && NewPager(0, h).Ok?
            && EndFits(NewPager(0, h).value) && !OffsetsFit(NewPager(0, h).value)
  {
  }

  /** One 4096-byte page at the top of the address space: the header validates and the pager
      opens, yet its every fault is refused. */
  lemma {:induction false} TopOfTheAddressSpace()
    ensures New(4096, 1).Ok?
    ensures var h := New(4096, 1).value;
            var base: u64 := U64_LIMIT - 4096;
            && Validate(h).Ok? && NewPager(base, h).Ok?
            && var pager := NewPager(base, h).value;
               OffsetsFit(pager) && !EndFits(pager) && Total(pager) == 4096
               && Resolve(pager, base).1 == Err(ArithmeticOverflow)
  {
  }

  /**
   For every file whose header parses and every base the pager accepts, lazy is eager over
   every run of accesses if and only if neither the end address nor a backing offset leaves
   64 bits.
   */
  lemma {:induction false} LazyEqualsEagerExactly(file: seq<byte>, base: u64)
    requires FromBytes(file).Ok?
    requires var h := FromBytes(file).value; HEADER_LEN + h.memoryBytes <= |file| && NewPager(base, h).Ok?
    ensures var h := FromBytes(file).value;
            var pager := NewPager(base, h).value;
            && Shaped(Boot(pager)) && FileHolds(file, pager)
            && ((forall ops :: LazyIsEager(file, pager, Image(file, h), ops))
                <==> base + h.memoryBytes < U64_LIMIT && OffsetsFit(pager))
  {
    hide FromBytes, LazyRun, EagerRun, OffsetsFit, Agrees;
    ParsedHeaderIsSound(file);
    var h := FromBytes(file).value;
    var pager := NewPager(base, h).value;
    BootAgrees(file, base, h);
    assert Total(pager) == h.memoryBytes;
    hide Total;
    if EndFits(pager) && OffsetsFit(pager) {
      forall ops ensures LazyIsEager(file, pager, Image(file, h), ops) {
        LazyEqualsEager(file, base, ops);
      }
    } else {
      if EndFits(pager) {
        OverflowLosesThePage(file, pager, Image(file, h));
      } else {
        OverflowLosesTheRegion(file, pager, Image(file, h));
      }
      var ops :| LazyRun(file, Boot(pager), ops).1 != EagerRun(pager.base, Image(file, h), ops).1;
      assert !LazyIsEager(file, pager, Image(file, h), ops);
    }
  }

  // ---------------------------------------------------------------------------
  // Two guests over one image
  // ---------------------------------------------------------------------------

  /** A running guest: its own pager object, and the pages mapped into it. */
  class LiveGuest {
    const pager: CowPager
    var pages: seq<Option<seq<byte>>>
    var copies: seq<Action>

    ghost predicate Valid()
      reads this, pager
    {
      pager.Valid() && |pages| == pager.pageCount
    }

    function View(): Guest
      reads this, pager, pager.resident
    {
      Guest(pager.Abs(), pages, copies)
    }

    constructor (p: CowPager)
      requires p.Valid()
      ensures pager == p && Valid() && View() == Boot(p.Abs())
    {
      pager, pages, copies := p, seq(p.pageCount, _ => None), [];
    }

    /** One access: the fault is resolved, the copy it asks for made, the page used. */
    method Perform(file: seq<byte>, op: Op) returns (out: Option<byte>)
      requires Valid() && FileHolds(file, View().pager)
      modifies this, pager.resident
      ensures Valid() && FileHolds(file, View().pager)
      ensures (View(), out) == LazyStep(file, old(View()), op)
    {
      hide Total, PageStart, Resolve, PageIndex, PageOffset;
      ghost var before := View();
      LazyStepKeepsShape(file, before, op);
      var r := pager.HandleFault(op.addr);
      ghost var faulted := FaultIn(file, before, op.addr).0;
      if r.Err? {
        return None;
      }
      ResolvedIsCovered(before.pager, op.addr);
      if r.value.Populate? {
        var bytes := Slice(file, r.value.backingOffset, r.value.len);
        pages := MapAt(pages, pager.pageSize, Max(0, r.value.guestPageAddr - pager.baseAddr), bytes);
        copies := copies + [r.value];
      }
      assert View() == faulted;
      var page, start := Locate(before.pager, pager.baseAddr, pager.pageSize, op.addr);
      var at := op.addr - pager.baseAddr - start;
      var (after, answer) := Access(View(), page, at, op);
      pages := after.pages;
      out := answer;
    }
  }

  /** A fault is resolved only for a covered address, on its page and inside the file. */
  lemma {:induction false} ResolvedIsCovered(p: Pager, addr: u64)
    requires Wellformed(p) && Resolve(p, addr).1.Ok?
    ensures Covers(p, addr) && PageIndex(p, addr) < p.pageCount
    ensures var action := Resolve(p, addr).1.value;
            action.Populate? ==> action.pageIndex == PageIndex(p, addr) && action.len == p.pageSize
                                 && action.backingOffset + action.len <= HEADER_LEN + Total(p)
  {
    PageEnds(p, PageIndex(p, addr));
    hide Total, PageStart, PageIndex;
  }

  /** The accesses of one of the two guests. */
  function Mine(ops: seq<(bool, Op)>, who: bool): seq<Op> {
    if ops == [] then []
    else (if ops[0].0 == who then [ops[0].1] else []) + Mine(ops[1..], who)
  }

  /** Two pagers opened over one file, their guests' accesses interleaved at will: each guest
      ends, and has read, as if it had run alone. */
  method RunForks(file: seq<byte>, h: Header, base1: u64, base2: u64, ops: seq<(bool, Op)>)
    returns (r: Result<((Guest, seq<Option<byte>>), (Guest, seq<Option<byte>>)), RuntimeError>)
    requires HEADER_LEN + h.pageCount * h.pageSize <= |file|
    ensures r.Ok? <==> NewPager(base1, h).Ok? && NewPager(base2, h).Ok?
    ensures r.Ok? ==>
              var g1, g2 := Boot(NewPager(base1, h).value), Boot(NewPager(base2, h).value);
              && Shaped(g1) && FileHolds(file, g1.pager) && Shaped(g2) && FileHolds(file, g2.pager)
              && r.value.0 == LazyRun(file, g1, Mine(ops, true))
              && r.value.1 == LazyRun(file, g2, Mine(ops, false))
  {
    hide LazyRun, Mine, Shaped, FileHolds, NewPager;
    var p1 := OpenPager(base1, h);
    if p1.Err? { return Err(p1.error); }
    var p2 := OpenPager(base2, h);
    if p2.Err? { return Err(p2.error); }
    var a := new LiveGuest(p1.value);
    var b := new LiveGuest(p2.value);
    BootHolds(file, base1, h);
    BootHolds(file, base2, h);
    var outsA, outsB := Interleave(file, a, b, ops);
    r := Ok(((a.View(), outsA), (b.View(), outsB)));
  }

  /** Two guests with separate pager objects take turns. */
  method Interleave(file: seq<byte>, a: LiveGuest, b: LiveGuest, ops: seq<(bool, Op)>)
    returns (outsA: seq<Option<byte>>, outsB: seq<Option<byte>>)
    requires a != b && a.pager.resident != b.pager.resident && a.Valid() && b.Valid()
    requires Shaped(a.View()) && FileHolds(file, a.View().pager) && Shaped(b.View()) && FileHolds(file, b.View().pager)
    modifies a, b, a.pager.resident, b.pager.resident
    ensures (a.View(), outsA) == LazyRun(file, old(a.View()), Mine(ops, true))
    ensures (b.View(), outsB) == LazyRun(file, old(b.View()), Mine(ops, false))
  {
    hide LazyRun, Mine, OnTrack, Shaped, FileHolds, LiveGuest.View;
    outsA, outsB := [], [];
    ghost var bootA, bootB := a.View(), b.View();
    StartsOnTrack(file, bootA, Mine(ops, true));
    StartsOnTrack(file, bootB, Mine(ops, false));
    var i := 0;
    assert ops[0..] == ops;
    while i < |ops|
      invariant 0 <= i <= |ops|
      invariant a.Valid() && b.Valid()
      invariant OnTrack(file, bootA, Mine(ops, true), a.View(), outsA, Mine(ops[i..], true))
      invariant OnTrack(file, bootB, Mine(ops, false), b.View(), outsB, Mine(ops[i..], false))
    {
      var (who, op) := ops[i];
      MineAt(ops, i, true);
      MineAt(ops, i, false);
      if who {
        outsA := Advance(file, a, op, outsA, bootA, Mine(ops, true), Mine(ops[i + 1..], true));
      } else {
        outsB := Advance(file, b, op, outsB, bootB, Mine(ops, false), Mine(ops[i + 1..], false));
      }
      i := i + 1;
    }
    assert ops[i..] == [];
    NothingIsMine();
    EndsOnTrack(file, bootA, Mine(ops, true), a.View(), outsA);
    EndsOnTrack(file, bootB, Mine(ops, false), b.View(), outsB);
  }

  lemma NothingIsMine()
    ensures Mine([], true) == [] && Mine([], false) == []
  {
  }

  /** One guest's turn. */
  method Advance(file: seq<byte>, g: LiveGuest, op: Op, outs: seq<Option<byte>>,
                 ghost boot: Guest, ghost all: seq<Op>, ghost later: seq<Op>) returns (more: seq<Option<byte>>)
    requires g.Valid() && OnTrack(file, boot, all, g.View(), outs, [op] + later)
    modifies g, g.pager.resident
    ensures g.Valid() && OnTrack(file, boot, all, g.View(), more, later)
  {
    hide LazyStep, LazyRun, Total;
    StepsOnTrack(file, boot, all, g.View(), outs, op, later);
    var out := g.Perform(file, op);
    more := outs + [out];
  }

  /** A guest part of the way through its accesses: the outputs so far, followed by what the
      remaining accesses give from here, are what the whole run gives. */
  ghost predicate OnTrack(file: seq<byte>, boot: Guest, all: seq<Op>,
                          g: Guest, outs: seq<Option<byte>>, rest: seq<Op>)
  {
    && Shaped(boot) && FileHolds(file, boot.pager) && Shaped(g) && FileHolds(file, g.pager)
    && var (whole, left) := (LazyRun(file, boot, all), LazyRun(file, g, rest));
       whole.0 == left.0 && whole.1 == outs + left.1
  }

  lemma {:induction false} BootHolds(file: seq<byte>, base: u64, h: Header)
    requires HEADER_LEN + h.pageCount * h.pageSize <= |file| && NewPager(base, h).Ok?
    ensures var g := Boot(NewPager(base, h).value); Shaped(g) && FileHolds(file, g.pager)
  {
  }

  lemma {:induction false} StartsOnTrack(file: seq<byte>, boot: Guest, all: seq<Op>)
    requires Shaped(boot) && FileHolds(file, boot.pager)
    ensures OnTrack(file, boot, all, boot, [], all)
  {
    hide LazyRun;
    assert [] + LazyRun(file, boot, all).1 == LazyRun(file, boot, all).1;
  }

  lemma {:induction false} StepsOnTrack(file: seq<byte>, boot: Guest, all: seq<Op>, g: Guest,
                                        outs: seq<Option<byte>>, op: Op, later: seq<Op>)
    requires OnTrack(file, boot, all, g, outs, [op] + later)
    ensures var (g1, out) := LazyStep(file, g, op); OnTrack(file, boot, all, g1, outs + [out], later)
  {
    hide Total, LazyStep;
    LazyStepKeepsShape(file, g, op);
    var (g1, out) := LazyStep(file, g, op);
    var rest := LazyRun(file, g1, later).1;
    assert ([op] + later)[1..] == later;
    assert outs + ([out] + rest) == (outs + [out]) + rest;
  }

  lemma {:induction false} EndsOnTrack(file: seq<byte>, boot: Guest, all: seq<Op>, g: Guest, outs: seq<Option<byte>>)
    requires OnTrack(file, boot, all, g, outs, [])
    ensures Shaped(boot) && FileHolds(file, boot.pager) && LazyRun(file, boot, all) == (g, outs)
  {
    assert LazyRun(file, g, []) == (g, []);
    assert outs + [] == outs;
  }

  lemma {:induction false} MineAt(ops: seq<(bool, Op)>, i: nat, who: bool)
    requires i < |ops|
    ensures Mine(ops[i..], who)
         == if ops[i].0 == who then [ops[i].1] + Mine(ops[i + 1..], who) else Mine(ops[i + 1..], who)
  {
    assert ops[i..][0] == ops[i] && ops[i..][1..] == ops[i + 1..];
  }
}
