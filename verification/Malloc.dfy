/** The allocator of franken/malloc/malloc.c over the page source of platform/qemu-arm/mmap.c. */
module Malloc {
  import opened Bytes
  import opened Options
  import opened Placement
  import opened HeapModel

  /** The size of the static arena, 16777216 * 8 bytes. */
  const CORESIZE: nat := 134_217_728

  /** `1 << (b + MINSHIFT)` computed in int and converted to size_t: bit 31 is the sign. */
  function IntShift(b: nat): nat
    requires b <= 26
  {
    if b == 26 then TWO64 - TWO31 else Size(b)
  }

  class Allocator {
    const core: array<byte>      // the address space up to the end of the arena
    const start: nat             // where the arena begins
    const hostPage: nat          // getpagesize()
    const nextf: array<nat>
    var coreBase: nat
    var pagesz: nat
    var pagebucket: nat
    ghost var carved: map<nat, nat>
    ghost var frees: seq<seq<nat>>
    ghost var live: map<nat, nat>
    ghost var holder: map<nat, nat>

    ghost function Model(): Heap
      reads this, core, nextf
    {
      Heap(core[..], nextf[..], coreBase, carved, frees, live, holder)
    }

    ghost predicate Valid()
      reads this, core, nextf
    {
      && core as object != nextf
      && IsPow2(hostPage) && 32 <= hostPage <= TWO31
      && (pagesz == 0 || PageKnown())
      && 0 < start <= coreBase && core.Length <= start + CORESIZE
      && (forall a | a in carved :: start <= a)
      && Inv(Model())
    }

    ghost predicate PageKnown()
      reads this
    {
      pagesz == hostPage && Size(pagebucket) == pagesz && pagebucket <= 26
    }

    /** Nothing allocated, nothing carved. */
    constructor (start: nat, top: nat, hostPage: nat)
      requires 0 < start <= top <= start + CORESIZE && top <= TWO64
      requires IsPow2(hostPage) && 32 <= hostPage <= TWO31
      ensures Valid() && Contents(Model()) == map[] && fresh(core) && fresh(nextf)
    {
      this.core := new byte[top];
      this.start := start;
      this.hostPage := hostPage;
      this.nextf := new nat[NBUCKETS](i => 0);
      coreBase := start;
      pagesz, pagebucket := 0, 0;
      carved, live, holder := map[], map[], map[];
      frees := seq(NBUCKETS, i => []);
    }

    // ----- memory -----

    method StoreWord(a: nat, v: nat)
      requires a + WORD <= core.Length
      modifies core
      ensures core[..] == Store(old(core[..]), a, v)
    {
      var bytes := Encode(v, WORD);
      forall i | 0 <= i < WORD {
        core[a + i] := bytes[i];
      }
    }

    // ----- the page source -----

    /** mmap(): anonymous memory at a rounded-up base, or an error. */
    method MMap(addr: nat, length: nat, shift: nat, fd: int, offset: int) returns (mem: Option<nat>)
      requires hostPage > 0
      modifies this`coreBase
      ensures fd != -1 || offset != 0 || addr != 0 ==> mem.None? && coreBase == old(coreBase)
      ensures fd == -1 && offset == 0 && addr == 0 ==>
        var base := RoundUp(old(coreBase), if shift == 0 then hostPage else Pow2(shift));
        if base + length > core.Length then mem.None? && coreBase == base
        else mem == Some(base) && coreBase == base + length
    {
      if fd != -1 || offset != 0 || addr != 0 {
        return None;
      }
      var align := if shift == 0 then hostPage else Pow2(shift);
      RoundUpIs(coreBase, align);
      if coreBase % align != 0 {
        RoundsTo(coreBase, align);
        coreBase := coreBase - coreBase % align + align;
      }
      if coreBase + length > core.Length {
        return None;
      }
      mem := Some(coreBase);
      coreBase := coreBase + length;
    }

    /** The links of `n` new blocks of `size` bytes at `base`, written one after the other. */
    method WriteLinks(base: nat, size: nat, n: nat)
      requires n >= 1 && size >= 32 && base + n * size <= core.Length <= TWO64
      modifies core
      ensures Chained(core[..], Blocks(base, size, n))
      ensures Same(old(core[..]), core[..], 0, base) && Same(old(core[..]), core[..], base + n * size, core.Length)
    {
      hide Blocks, Load, Store;
      ghost var l, mem, hi := Blocks(base, size, n), core[..], base + n * size;
      BlocksSpaced(base, size, n);
      var i, op := 0, base;
      while i + 1 < n
        invariant 0 <= i < n && op == l[i]
        invariant ChainedTo(core[..], l, i)
        invariant Same(mem, core[..], 0, base) && Same(mem, core[..], hi, core.Length)
      {
        LinkStep(core[..], l, base, hi, i, l[i + 1]);
        StoreWord(op, op + size);
        op := op + size;
        i := i + 1;
      }
      LinkStep(core[..], l, base, hi, i, 0);
      StoreWord(op, 0);
    }

    /** The bytes it takes to refill a bucket: a block, but at least a page. */
    function Need(bucket: nat): nat
    {
      if Size(bucket) < hostPage then hostPage else Size(bucket)
    }

    /** How much to ask for, and how many blocks of what size that makes. */
    method Geometry(bucket: nat) returns (shift: nat, nblks: nat, sz: nat)
      requires PageKnown() && bucket <= 26
      ensures nblks >= 1 && sz == Size(bucket) && nblks * sz == Pow2(shift) * pagesz == Need(bucket)
    {
      if bucket < pagebucket {
        BlocksPerPage(bucket, pagebucket);
        Pow2Monotone(bucket + MINSHIFT, pagebucket + MINSHIFT);
        shift := 0;
        nblks := pagesz / Size(bucket);
        sz := pagesz / nblks;
      } else {
        shift, nblks, sz := bucket - pagebucket, 1, Size(bucket);
        Pow2Add(shift, pagebucket + MINSHIFT);
        if shift > 0 {
          Pow2Monotone(pagebucket + MINSHIFT, bucket + MINSHIFT);
        }
      }
    }

    /** The bucket has no free block, and the arena no room for new ones from the next page on. */
    ghost predicate Exhausted(b: nat)
      reads this
    {
      && hostPage > 0 && b < |frees| && frees[b] == []
      && RoundUp(coreBase, hostPage) + Need(b) > core.Length
    }

    /** When an allocation of so many bytes, header included, fails: above 2 GiB, or if its bucket is exhausted. */
    ghost predicate OutOfMemory(allocbytes: nat)
      reads this
    {
      allocbytes > TWO31 || exists b: nat :: SmallestBucket(b, allocbytes) && Exhausted(b)
    }

    /** morecore(): new memory becomes the free list of an empty bucket, unless there is no more. */
    method MoreCore(bucket: nat)
      requires Valid() && PageKnown() && bucket <= 26 && bucket < |frees| && frees[bucket] == []
      modifies this`coreBase, this`carved, this`frees, core, nextf
      ensures Valid() && PageKnown()
      ensures Contents(Model()) == old(Contents(Model()))
      ensures bucket < |frees| && (frees[bucket] == [] <==> old(Exhausted(bucket)))
      ensures old(Exhausted(bucket)) ==> frees == old(frees)
    {
      hide Inv, Size, Pow2, Contents, Blocks, Chained, IsPow2, RoundUp, WithBlocks, Allocator.Need;
      ghost var h := Model();
      Bounds(h);
      RoundUpIs(coreBase, hostPage);
      var shift, nblks, sz := Geometry(bucket);
      var mem := MMap(0, Pow2(shift) * pagesz, 0, -1, 0);
      assert mem.None? <==> old(Exhausted(bucket));
      if mem.None? {
        BaseMoves(h, coreBase);
        assert Model() == h.(coreBase := coreBase);
        return;
      }
      var op := mem.value;
      PageAligned(op, hostPage);
      SizeIsMultiple(bucket);
      nextf[bucket] := op;
      WriteLinks(op, sz, nblks);
      ExtendKeeps(h, core[..], bucket, op, nblks, Pow2(shift) * pagesz, coreBase);
      NewBlocksStart(carved, bucket, op, sz, nblks);
      carved := WithBlocks(carved, Blocks(op, sz, nblks), bucket);
      frees := frees[bucket := Blocks(op, sz, nblks)];
      assert Model() == Extended(h, core[..], bucket, op, nblks, coreBase);
    }

    // ----- allocation -----

    /** Removing the first block of a bucket and handing out the address `rv` inside it. */
    method Hand(b: nat, rv: nat)
      requires Valid() && b < |frees| && b <= 26 && frees[b] != []
      requires frees[b][0] + OVERHEAD <= rv <= frees[b][0] + Size(b)
      modifies this`frees, this`live, this`holder, core, nextf
      ensures Valid()
      ensures Adds(old(Contents(Model())), Contents(Model()), rv, old(frees[b][0]) + Size(b) - rv)
    {
      hide Inv, Size, Contents, Adds, Store;
      ghost var h := Model();
      GrantKeeps(h, b, rv);
      Bounds(h);
      FreeBlock(h, b);
      var op := nextf[b];
      nextf[b] := Load(core[..], op);
      StoreWord(rv - OVERHEAD, rv - op);
      core[rv - WORD] := MAGIC;
      core[rv - WORD + 1] := b;
      frees := frees[b := frees[b][1..]];
      live := live[rv := op];
      holder := holder[op := rv];
      assert Model() == Granted(h, b, rv);
    }

    /** The page size is looked up on the first call. */
    method InitPages()
      requires Valid()
      modifies this`pagesz, this`pagebucket
      ensures Valid() && PageKnown()
    {
      hide Inv;
      if pagesz == 0 {
        pagesz := hostPage;
        pagebucket := PageBucket(pagesz);
      }
    }

    /** Makes sure bucket `b` has a block, if memory lasts. */
    method Refill(b: nat) returns (ok: bool)
      requires Valid() && PageKnown() && b <= 26
      modifies this`coreBase, this`carved, this`frees, core, nextf
      ensures Valid() && Contents(Model()) == old(Contents(Model()))
      ensures b < |frees| && ok == (frees[b] != [])
      ensures ok <==> !old(Exhausted(b))
      ensures !ok ==> frees == old(frees)
    {
      hide Inv, Size, Contents, IsPow2;
      NullHead(Model(), b);
      if nextf[b] == 0 {
        MoreCore(b);
      }
      NullHead(Model(), b);
      ok := nextf[b] != 0;
    }

    /** Placing the payload in the first block of bucket `b`. */
    method Serve(b: nat, a: nat, nbytes: nat) returns (rv: nat)
      requires Valid() && b < |frees| && b <= 26 && frees[b] != []
      requires IsPow2(a) && MINALIGN <= a < TWO64 && nbytes < TWO64 && Placeable(a, nbytes)
      requires SmallestBucket(b, AllocBytes(a, nbytes))
      modifies this`frees, this`live, this`holder, core, nextf
      ensures Valid() && rv != 0 && rv % a == 0
      ensures rv in Contents(Model()) && (|Contents(Model())[rv]| >= nbytes <==> nbytes + a < TWO64)
      ensures a == MINALIGN && nbytes + a >= TWO64 ==> |Contents(Model())[rv]| == 16
      ensures Adds(old(Contents(Model())), Contents(Model()), rv, |Contents(Model())[rv]|)
    {
      hide Inv, Size, Contents, IsPow2, RoundUp, Adds, SmallestBucket, Placeable, AllocBytes;
      FreeBlock(Model(), b);
      Fits(b, AllocBytes(a, nbytes));
      PayloadPlaced(nextf[b], a, nbytes, b);
      PayloadBelow(nextf[b], a);
      BlockIsLarge(a, nbytes, b);
      FitsExactlyWhenNoWrap(nextf[b], a, nbytes, b);
      if a == MINALIGN && nbytes + a >= TWO64 {
        WrappedBlock(nextf[b], nbytes);
        SmallestIsUnique(0, b, AllocBytes(a, nbytes));
      }
      rv := RoundUp(nextf[b] + OVERHEAD, a);
      ghost var c, n := Contents(Model()), nextf[b] + Size(b) - rv;
      Hand(b, rv);
      AddsNew(c, Contents(Model()), rv, n);
    }

    lemma BucketDecides(b: nat, allocbytes: nat)
      requires SmallestBucket(b, allocbytes) && allocbytes <= TWO31
      ensures OutOfMemory(allocbytes) <==> Exhausted(b)
    {
      hide Size, RoundUp, Allocator.Need;
      forall c | SmallestBucket(c, allocbytes) ensures c == b { SmallestIsUnique(b, c, allocbytes); }
    }

    /** aligned_alloc(), behind malloc(), calloc() and posix_memalign(). */
    method AlignedAlloc(align: nat, nbytes: nat) returns (rv: nat)
      requires Valid() && align < TWO64 && nbytes < TWO64
      requires PowerOfTwoOrZero(align) ==> Placeable(Effective(align), nbytes)
      modifies this, core, nextf
      ensures Valid()
      ensures rv == 0 ==> Contents(Model()) == old(Contents(Model())) && frees == old(frees)
      ensures rv != 0 ==>
        && rv in Contents(Model())
        && Adds(old(Contents(Model())), Contents(Model()), rv, |Contents(Model())[rv]|)
      ensures rv != 0 ==>
        && rv % Effective(align) == 0
        && (|Contents(Model())[rv]| >= nbytes <==> nbytes + Effective(align) < TWO64)
      ensures rv != 0 && Effective(align) == MINALIGN && nbytes + MINALIGN >= TWO64 ==> |Contents(Model())[rv]| == 16
      ensures !PowerOfTwoOrZero(align) ==> rv == 0
      ensures PowerOfTwoOrZero(align) ==> (rv == 0 <==> old(OutOfMemory(AllocBytes(Effective(align), nbytes))))
    {
      hide Inv, Size, Contents, IsPow2, RoundUp, Adds, SmallestBucket, Placeable;
      InitPages();
      if !PowerOfTwoOrZero(align) {
        return 0;
      }
      var a := if align < MINALIGN then MINALIGN else align;
      EffectiveIsPow2(align);
      HeaderAllowance(a);
      var allocbytes := (nbytes + RoundUp(OVERHEAD, a)) % TWO64;
      var found := FindBucket(allocbytes, pagesz, pagebucket);
      if found.None? {
        return 0;
      }
      BucketDecides(found.value, allocbytes);
      var ok := Refill(found.value);
      if !ok {
        return 0;
      }
      rv := Serve(found.value, a, nbytes);
    }

    // ----- the public interface -----

    method Malloc(nbytes: nat) returns (rv: nat)
      requires Valid() && nbytes < TWO64
      modifies this, core, nextf
      ensures Valid()
      ensures rv == 0 ==> Contents(Model()) == old(Contents(Model())) && frees == old(frees)
      ensures rv != 0 ==>
        && rv in Contents(Model())
        && Adds(old(Contents(Model())), Contents(Model()), rv, |Contents(Model())[rv]|)
      ensures rv != 0 ==> rv % MINALIGN == 0 && (|Contents(Model())[rv]| >= nbytes <==> nbytes + MINALIGN < TWO64)
      ensures rv != 0 && nbytes + MINALIGN >= TWO64 ==> |Contents(Model())[rv]| == 16
      ensures rv == 0 <==> old(OutOfMemory(AllocBytes(MINALIGN, nbytes)))
    {
      hide Inv, Contents, Adds, Allocator.OutOfMemory;
      rv := AlignedAlloc(0, nbytes);
    }

    /** posix_memalign(): the pointer is stored only on success. */
    method PosixMemalign(ptr: nat, align: nat, size: nat) returns (enomem: bool, ptr': nat)
      requires Valid() && align < TWO64 && size < TWO64
      requires PowerOfTwoOrZero(align) ==> Placeable(Effective(align), size)
      modifies this, core, nextf
      ensures Valid()
      ensures enomem ==> ptr' == ptr && Contents(Model()) == old(Contents(Model())) && frees == old(frees)
      ensures PowerOfTwoOrZero(align) ==> (enomem <==> old(OutOfMemory(AllocBytes(Effective(align), size))))
      ensures !PowerOfTwoOrZero(align) ==> enomem
      ensures !enomem ==>
        && ptr' in Contents(Model())
        && Adds(old(Contents(Model())), Contents(Model()), ptr', |Contents(Model())[ptr']|)
      ensures !enomem ==>
        && ptr' % Effective(align) == 0
        && (|Contents(Model())[ptr']| >= size <==> size + Effective(align) < TWO64)
    {
      hide Inv, Contents, Adds, Placeable, IsPow2, Allocator.OutOfMemory;
      var mem := AlignedAlloc(align, size);
      if mem == 0 {
        return true, ptr;
      }
      return false, mem;
    }

    /** A store by the owner of payload `p`, anywhere in its usable bytes. */
    method Write(p: nat, i: nat, v: byte)
      requires Valid() && p in Contents(Model()) && i < |Contents(Model())[p]|
      modifies core
      ensures Valid()
      ensures Contents(Model()) == old(Contents(Model()))[p := Poke(old(Contents(Model()))[p], i, v)]
    {
      hide Inv, Contents, Size, Poke, IsPow2;
      ghost var h := Model();
      ContentsKeys(h);
      ContentsOf(h, p);
      WriteKeeps(h, p, p + i, v);
      core[p + i] := v;
      assert core[..] == Poke(h.mem, p + i, v) by { PokeIs(h.mem, core[..], p + i, v); }
      assert Model() == Written(h, p + i, v);
    }

    /** free() of nothing, of a live payload, or of an address without the header's magic, which is ignored. */
    method Free(cp: nat)
      requires Valid() && (cp == 0 || cp in Contents(Model())
        || (OVERHEAD <= cp <= core.Length && core[cp - WORD] != MAGIC))
      modifies this`frees, this`live, this`holder, core, nextf
      ensures Valid()
      ensures Contents(Model()) == old(Contents(Model())) - {cp}
    {
      hide Inv, Contents, Size, Store, Load, IsPow2;
      ghost var h := Model();
      ContentsKeys(h);
      if cp == 0 {
        NullIsNotLive(h);
        return;
      }
      if cp in Contents(h) {
        LiveBlock(h, cp);
        ReleaseKeeps(h, cp);
      }
      if core[cp - WORD] == MAGIC {
        var size := core[cp - WORD + 1];
        var origp := cp - Load(core[..], cp - OVERHEAD);
        StoreWord(origp, nextf[size]);
        nextf[size] := origp;
        frees := frees[size := [origp] + frees[size]];
        live := live - {cp};
        holder := holder - {origp};
        assert Model() == Released(h, cp);
      }
    }

    /** memcpy() of the first `n` bytes of payload `src` to payload `dst`. */
    method Copy(dst: nat, src: nat, n: nat)
      requires Valid() && dst in Contents(Model()) && src in Contents(Model()) && dst != src
      requires n <= |Contents(Model())[src]| && n <= |Contents(Model())[dst]|
      modifies core
      ensures Valid()
      ensures var c := old(Contents(Model())); Contents(Model()) == c[dst := Overlaid(c[dst], c[src], n)]
    {
      hide Inv, Contents, Size, IsPow2, Overlaid, Poke;
      ghost var c := Contents(Model());
      var i := 0;
      OverlaidNone(c[dst], c[src]);
      while i < n
        invariant 0 <= i <= n && Valid()
        invariant Contents(Model()) == c[dst := Overlaid(c[dst], c[src], i)]
        modifies core
      {
        ContentsKeys(Model());
        ContentsOf(Model(), src);
        OverlaidStep(c[dst], c[src], i);
        Write(dst, i, core[src + i]);
        i := i + 1;
      }
    }

    /** memset() to zero of the first `n` bytes of payload `dst`. */
    method Zero(dst: nat, n: nat)
      requires Valid() && dst in Contents(Model()) && n <= |Contents(Model())[dst]|
      modifies core
      ensures Valid()
      ensures var c := old(Contents(Model())); Contents(Model()) == c[dst := Overlaid(c[dst], Zeros(n), n)]
    {
      hide Inv, Contents, Size, IsPow2, Overlaid, Poke;
      ghost var c := Contents(Model());
      var i := 0;
      OverlaidNone(c[dst], Zeros(n));
      while i < n
        invariant 0 <= i <= n && Valid()
        invariant Contents(Model()) == c[dst := Overlaid(c[dst], Zeros(n), i)]
        modifies core
      {
        OverlaidStep(c[dst], Zeros(n), i);
        Write(dst, i, 0);
        i := i + 1;
      }
    }

    /**
     * calloc(): the product is taken modulo 2^64, unchecked. There is room for all that was asked
     * for exactly when the product does not wrap.
     */
    method Calloc(nmemb: nat, size: nat) returns (rv: nat)
      requires Valid() && nmemb < TWO64 && size < TWO64 && nmemb * size % TWO64 + MINALIGN < TWO64
      modifies this, core, nextf
      ensures Valid()
      ensures rv == 0 ==> Contents(Model()) == old(Contents(Model())) && frees == old(frees)
      ensures rv != 0 ==>
        && rv in Contents(Model())
        && Adds(old(Contents(Model())), Contents(Model()), rv, |Contents(Model())[rv]|)
      ensures rv != 0 ==> Zeros(nmemb * size % TWO64) <= Contents(Model())[rv]
      ensures rv != 0 ==> (|Contents(Model())[rv]| >= nmemb * size <==> nmemb * size < TWO64)
      ensures rv == 0 <==> old(OutOfMemory(AllocBytes(MINALIGN, nmemb * size % TWO64)))
    {
      hide Inv, Contents, Size, IsPow2, Allocator.OutOfMemory;
      var product := nmemb * size;
      var n := product % TWO64;
      WordIsPow2();
      rv := AlignedAlloc(WORD, n);
      if rv != 0 {
        Zero(rv, n);
        PayloadIsSmall(Model(), rv, start);
      }
    }

    /** The bucket and padding recorded in the header of a live payload give its usable size. */
    method Usable(cp: nat) returns (n: nat)
      requires Valid() && cp in Contents(Model())
      ensures n == |Contents(Model())[cp]|
    {
      hide Inv, Contents, Size, Load, IsPow2;
      ghost var h := Model();
      ContentsKeys(h);
      ContentsOf(h, cp);
      LiveBlock(h, cp);
      LiveIsInside(h, cp);
      InArena(h);
      var size, alignpad := core[cp - WORD + 1], Load(core[..], cp - OVERHEAD);
      NoSignBit(size, h.live[cp], core.Length, start);
      n := IntShift(size) - alignpad;
    }

    /**
     * realloc(). On success the old usable bytes are the first bytes of the result, which has room
     * for `nbytes`; on failure nothing changes; no other payload changes in any case.
     */
    method Realloc(cp: nat, nbytes: nat) returns (rv: nat)
      requires Valid() && (cp == 0 || cp in Contents(Model())) && nbytes < TWO64
      requires nbytes + MINALIGN < TWO64 || cp == 0 || |Contents(Model())[cp]| <= 16
      modifies this, core, nextf
      ensures Valid()
      ensures cp != 0 && nbytes == 0 ==> rv == 0 && Contents(Model()) == old(Contents(Model())) - {cp}
      ensures rv == 0 && (cp == 0 || nbytes != 0) ==> Contents(Model()) == old(Contents(Model()))
      ensures rv != 0 ==> Contents(Model()).Keys == old(Contents(Model())).Keys - {cp} + {rv}
      ensures rv != 0 ==> (|Contents(Model())[rv]| >= nbytes <==> nbytes + MINALIGN < TWO64)
      ensures rv != 0 && cp != 0 ==> old(Contents(Model()))[cp] <= Contents(Model())[rv]
      ensures cp != 0 && 0 < nbytes <= |old(Contents(Model()))[cp]| ==> rv == cp
      ensures cp == 0 || nbytes > |old(Contents(Model()))[cp]| ==>
        (rv == 0 <==> old(OutOfMemory(AllocBytes(MINALIGN, nbytes))))
      ensures rv != 0 ==> forall q | q in old(Contents(Model())) && q != cp ::
        Contents(Model())[q] == old(Contents(Model()))[q]
    {
      hide Inv, Contents, Size, IsPow2;
      ghost var c := Contents(Model());
      NullIsNotLive(Model());
      if cp == 0 {
        rv := Malloc(nbytes);
        return;
      }
      if nbytes == 0 {
        Free(cp);
        return 0;
      }
      var usable := Usable(cp);
      if usable >= nbytes {
        return cp;
      }
      rv := Malloc(nbytes);
      if rv != 0 {
        Copy(rv, cp, usable);
        Free(cp);
      }
    }
  }

  /** The first `n` bytes of `src` laid over those of `dst`. */
  function Overlaid(dst: Memory, src: Memory, n: nat): (r: Memory)
    requires n <= |src| && n <= |dst|
    ensures |r| == |dst|
  {
    src[..n] + dst[n..]
  }

  lemma OverlaidNone(dst: Memory, src: Memory)
    ensures Overlaid(dst, src, 0) == dst
  {
  }

  lemma OverlaidStep(dst: Memory, src: Memory, i: nat)
    requires i < |src| && i < |dst|
    ensures Poke(Overlaid(dst, src, i), i, src[i]) == Overlaid(dst, src, i + 1)
  {
  }

  function Zeros(n: nat): (z: Memory)
    ensures |z| == n && forall i | 0 <= i < n :: z[i] == 0
  {
    seq(n, i => 0)
  }

  /** No block of the arena is large enough for the shift in realloc() to reach the sign bit. */
  lemma NoSignBit(b: nat, a: nat, top: nat, start: nat)
    requires b <= 26 && start <= a && a + Size(b) <= top <= start + CORESIZE
    ensures IntShift(b) == Size(b)
  {
    Pow2Table();
    assert Size(26) == Pow2(31);
  }

  lemma PokeIs(mem: Memory, mem': Memory, x: nat, v: byte)
    requires x < |mem| == |mem'| && mem'[x] == v && forall i | 0 <= i < |mem| && i != x :: mem'[i] == mem[i]
    ensures mem' == Poke(mem, x, v)
  {
  }

  lemma NullIsNotLive(h: Heap)
    requires Inv(h)
    ensures 0 !in Contents(h)
  {
    hide Contents;
    ContentsKeys(h);
    assert forall p | p in h.live :: p > 0 by {
      forall p | p in h.live
        ensures p > 0
      {
        LiveIsInside(h, p);
      }
    }
  }

  /** The alignment used: at least 16. */
  function Effective(align: nat): nat {
    if align < MINALIGN then MINALIGN else align
  }

  lemma PayloadIsSmall(h: Heap, p: nat, start: nat)
    requires Inv(h) && p in Contents(h) && |h.mem| <= start + CORESIZE && forall a | a in h.carved :: start <= a
    ensures |Contents(h)[p]| < TWO64
  {
    hide Inv, Contents, Size;
    ContentsKeys(h);
    ContentsOf(h, p);
    LiveIsInside(h, p);
  }

  lemma WordIsPow2()
    ensures IsPow2(WORD)
  {
    assert IsPow2(1) && IsPow2(2) && IsPow2(4);
  }

  lemma EffectiveIsPow2(align: nat)
    requires PowerOfTwoOrZero(align)
    ensures IsPow2(Effective(align))
  {
    assert IsPow2(1) && IsPow2(2) && IsPow2(4) && IsPow2(8) && IsPow2(16);
  }

  lemma Fits(b: nat, allocbytes: nat)
    requires SmallestBucket(b, allocbytes)
    ensures allocbytes <= Size(b)
  {
  }

  lemma AddsNew(c: map<nat, Memory>, c': map<nat, Memory>, p: nat, n: nat)
    requires Adds(c, c', p, n)
    ensures p in c' && |c'[p]| == n
  {
  }

  lemma NullHead(h: Heap, b: nat)
    requires Inv(h) && b < NBUCKETS
    ensures |h.frees| == |h.nextf| == NBUCKETS && (h.nextf[b] == 0 <==> h.frees[b] == [])
  {
    if h.frees[b] != [] {
      FreeBlock(h, b);
    }
  }

  ghost predicate ChainedTo(mem: Memory, l: seq<nat>, i: nat)
    requires i <= |l|
  {
    forall k | 0 <= k < i :: l[k] + WORD <= |mem| && Load(mem, l[k]) == At(l, k + 1)
  }

  /** Blocks from `base` to `hi` with room for a link each. */
  ghost predicate Spaced(l: seq<nat>, base: nat, hi: nat) {
    && (forall k | 0 <= k < |l| :: base <= l[k] && l[k] + WORD <= hi)
    && (forall j, k | 0 <= j < k < |l| :: l[j] + WORD <= l[k])
  }

  lemma BlocksSpaced(base: nat, size: nat, n: nat)
    requires size >= 32 && n >= 1
    ensures Spaced(Blocks(base, size, n), base, base + n * size)
    ensures Blocks(base, size, n)[0] == base
    ensures forall k | 0 <= k < n - 1 :: Blocks(base, size, n)[k + 1] == Blocks(base, size, n)[k] + size
  {
    var l := Blocks(base, size, n);
    forall k | 0 <= k < n
      ensures base <= l[k] && l[k] + WORD <= base + n * size
    {
      StepsApart(k, n, size);
      assert k * size >= 0;
    }
    forall j, k | 0 <= j < k < n
      ensures l[j] + WORD <= l[k]
    {
      StepsApart(j, k, size);
    }
    forall k | 0 <= k < n - 1
      ensures l[k + 1] == l[k] + size
    {
      assert (k + 1) * size == k * size + size;
    }
  }

  /** Writing the link of block `i` leaves those before it alone. */
  lemma LinkStep(mem: Memory, l: seq<nat>, base: nat, hi: nat, i: nat, v: nat)
    requires Spaced(l, base, hi) && i < |l| && hi <= |mem| <= TWO64
    requires ChainedTo(mem, l, i) && v == At(l, i + 1)
    ensures l[i] + WORD <= |mem| && ChainedTo(Store(mem, l[i], v), l, i + 1)
    ensures Same(mem, Store(mem, l[i], v), 0, base) && Same(mem, Store(mem, l[i], v), hi, |mem|)
  {
    hide Load, Store;
    var mem' := Store(mem, l[i], v);
    LoadStored(mem, l[i], v);
    StoreElsewhere(mem, l[i], v);
    forall k | 0 <= k < i
      ensures Load(mem', l[k]) == At(l, k + 1)
    {
      LoadSame(mem, mem', l[k]);
    }
  }

  lemma BlocksPerPage(bucket: nat, pagebucket: nat)
    requires bucket < pagebucket
    ensures var n := Size(pagebucket) / Size(bucket);
            n >= 1 && n * Size(bucket) == Size(pagebucket) && Size(pagebucket) / n == Size(bucket)
  {
    var n := Pow2(pagebucket - bucket);
    Pow2Add(pagebucket - bucket, bucket + MINSHIFT);
    DivUnique(Size(pagebucket), Size(bucket), n);
    DivUnique(Size(pagebucket), n, Size(bucket));
  }

  lemma PageAligned(x: nat, page: nat)
    requires IsPow2(page) && page >= 32 && x % page == 0 && x > 0
    ensures x % 16 == 0 && x >= 16
  {
    Multiple16(page);
    var k, j := x / page, page / 16;
    assert x == k * page;
    assert k * page == (k * j) * 16;
    MulMod(k * j, 16);
  }

  lemma Bounds(h: Heap)
    requires Inv(h)
    ensures |h.nextf| == NBUCKETS && |h.mem| <= TWO64
  {
  }

  lemma NewBlocksStart(carved: map<nat, nat>, bucket: nat, base: nat, size: nat, n: nat)
    ensures forall x | x in WithBlocks(carved, Blocks(base, size, n), bucket) :: x in carved || x >= base
  {
    hide Blocks;
    BlocksFrom(base, size, n);
  }

  lemma BlocksFrom(base: nat, size: nat, n: nat)
    ensures forall x | x in Blocks(base, size, n) :: x >= base
  {
    forall x | x in Blocks(base, size, n)
      ensures x >= base
    {
      var k :| 0 <= k < n && Blocks(base, size, n)[k] == x;
      assert k * size >= 0;
    }
  }

  lemma RoundsTo(x: nat, a: nat)
    requires a > 0 && x % a != 0
    ensures RoundUp(x, a) == x - x % a + a
  {
    var q := x / a;
    assert x == q * a + x % a;
    assert (q + 1) * a == q * a + a;
    DivUnique(x + a - 1, a, q + 1);
  }
}
