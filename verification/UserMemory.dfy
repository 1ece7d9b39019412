/**
 The physical page allocator and the operations on user address spaces (kernel/kalloc.c,
 kernel/vm.c): methods on the page-table pages themselves, proved against the flat map and
 the page owners of AddressSpace.
 */
module UserMemory {
  import opened Bytes
  import opened PageTable
  import opened AddressSpace

  class Memory {
    var freelist: seq<nat>      // kmem.freelist, head first
    var tables: Tables
    var data: Data
    ghost var owners: Owners
    ghost var flat: Flat

    ghost predicate Valid()
      reads this
    {
      Inv(tables, data, freelist, owners, flat)
    }

    // ----- the page allocator -----

    /** kinit: freerange gives every page from first up to top to the free list, and nobody has any. */
    constructor (first: nat, top: nat)
      requires first > 0
      ensures Valid() && flat == map[] && forall p :: p in owners <==> first <= p < top
      ensures |freelist| == (if first < top then top - first else 0) && forall p :: p in owners ==> owners[p] == Free
    {
      freelist, tables, data, owners, flat := [], map[], map[], map[], map[];
      new;
      var p := first;
      while p + 1 <= top
        invariant first <= p && (p <= top || p == first) && tables == map[] && data == map[] && flat == map[]
        invariant |freelist| == p - first && forall i :: 0 <= i < |freelist| ==> freelist[i] == p - 1 - i
        invariant forall k :: k in owners <==> first <= k < p
        invariant forall k :: k in owners ==> owners[k] == Free
      {
        freelist, owners := [p] + freelist, owners[p := Free];
        p := p + 1;
      }
      assert forall k :: k in owners ==> freelist[p - 1 - k] == k;
    }

    method Kalloc() returns (p: nat)
      requires Valid()
      modifies `freelist, `data, `owners
      ensures Valid()
      ensures p == 0 ==> old(freelist) == [] && freelist == [] && owners == old(owners) && data == old(data)
      ensures p != 0 ==>
          && OwnedAs(old(owners), p, Free) && owners == old(owners)[p := Held]
          && old(freelist) == [p] + freelist && data == old(data)[p := Fill(5)]
    {
      hide Inv;
      p := 0;
      if freelist != [] {
        HoldInv(tables, data, freelist, owners, flat, Fill(5));
        p := freelist[0];
        freelist := freelist[1..];
        data := data[p := Fill(5)];
        owners := owners[p := Held];
      }
    }

    method Kfree(p: nat)
      requires PagesOk(freelist, data, owners) && p != 0 && p in owners && !owners[p].Free?
      modifies `freelist, `data, `owners
      ensures PagesOk(freelist, data, owners)
      ensures owners == old(owners)[p := Free] && freelist == [p] + old(freelist) && data == old(data) - {p}
    {
      hide PagesOk;
      GivePage(freelist, data, owners, p);
      data := data - {p};
      freelist := [p] + freelist;
      owners := owners[p := Free];
    }

    // ----- page tables -----

    /** The allocating branch of walk's loop body. */
    method AddTable(p: nat, i: nat) returns (q: nat)
      requires Valid() && p in owners && (owners[p].Root? || owners[p].Mid?)
      requires i < if owners[p].Root? then ROOTHALF else NPTE
      requires p in tables && |tables[p]| == NPTE && tables[p][i] == 0
      modifies this
      ensures Valid() && flat == old(flat) && data == old(data)
      ensures q == 0 ==> freelist == [] && tables == old(tables) && owners == old(owners) && old(freelist) == []
      ensures q != 0 ==>
          && OwnedAs(old(owners), q, Free)
          && tables == WithTable(old(tables), p, i, q)
          && owners == old(owners)[q := Child(old(owners)[p], p, i)]
    {
      hide Inv, WithTable;
      q := Kalloc();
      if q != 0 {
        assert old(freelist)[0] == q && old(freelist)[1..] == freelist;
        GrowInv(tables, old(data), old(freelist), old(owners), flat, p, i);
        data := data - {q};
        tables := WithTable(tables, p, i, q);
        owners := owners[q := Child(owners[p], p, i)];
        assert data == old(data) by {
          NoData(old(tables), old(data), old(freelist), old(owners), flat, q);
        }
        assert owners == old(owners)[q := Child(old(owners)[p], p, i)];
      }
    }

    method Walk(pt: nat, va: nat, alloc: bool) returns (slot: Slot)
      requires Valid() && pt in flat && va / PGSIZE < MAXVPN
      modifies this
      ensures Valid() && flat == old(flat) && data == old(data)
      ensures Took(old(owners), owners, pt, 0, 0, 0)
      ensures !alloc ==> tables == old(tables) && owners == old(owners) && freelist == old(freelist)
      ensures slot.NoSlot? && alloc ==> freelist == []
      ensures slot.NoSlot? && !alloc ==> va / PGSIZE !in flat[pt]
      ensures slot.Slot? ==> IsSlot(tables, pt, va / PGSIZE, slot)
    {
      hide Tree, Represents, Leaves, PagesOk, WithTable;
      ghost var vpn := va / PGSIZE;
      IndicesByPage(va);
      RootOf(tables, owners, flat, pt);
      var cur := pt;
      var level := 2;
      while level > 0
        invariant 0 <= level <= 2
        invariant Valid() && flat == old(flat) && data == old(data)
        invariant Took(old(owners), owners, pt, 0, 0, 0)
        invariant !alloc ==> tables == old(tables) && owners == old(owners) && freelist == old(freelist)
        invariant OnPath(owners, pt, vpn, level, cur)
      {
        PathTable(tables, owners, pt, vpn, level, cur);
        PathStep(tables, owners, pt, vpn, level, cur);
        var pte := tables[cur][PX(level, va)];
        if IsValid(pte) {
          cur := PageOf(pte);
        } else {
          if !alloc {
            NoEntry(tables, owners, flat, pt, vpn);
            return NoSlot;
          }
          var q := AddTable(cur, PX(level, va));
          if q == 0 {
            return NoSlot;
          }
          cur := q;
        }
        level := level - 1;
      }
      PathTable(tables, owners, pt, vpn, 0, cur);
      slot := Slot(cur, PX(0, va));
    }

    /** One turn of mappages' loop; mapping a mapped page panics. */
    method MapPage(pt: nat, vpn: nat, page: nat, perm: nat) returns (ok: bool)
      requires Valid() && pt in flat && perm < 1024 && vpn < MAXVPN && vpn !in flat[pt]
      requires vpn < USERTOP ==> OwnedAs(owners, page, Held)
      modifies this
      ensures Valid() && data == old(data)
      ensures Took(old(owners), owners, pt, vpn, page, 1)
      ensures flat == if ok then Mapped(old(flat), pt, vpn, MakePte(page, perm)) else old(flat)
      ensures !ok ==> freelist == [] && Took(old(owners), owners, pt, vpn, page, 0)
    {
      hide Inv;
      assert vpn * PGSIZE / PGSIZE == vpn;
      var slot := Walk(pt, vpn * PGSIZE, true);
      if slot.NoSlot? {
        return false;
      }
      SlotEntry(tables, data, freelist, owners, flat, pt, vpn);
      MapInv(tables, data, freelist, owners, flat, pt, vpn, MakePte(page, perm));
      tables := Put(tables, slot.page, slot.index, MakePte(page, perm));
      owners := MappedOwners(owners, pt, vpn, page);
      flat := Mapped(flat, pt, vpn, MakePte(page, perm));
      ok := true;
    }

    method Mappages(pt: nat, vpn: nat, n: nat, page: nat, perm: nat) returns (ok: bool, ghost done: nat)
      requires Valid() && pt in flat && perm < 1024 && n > 0 && vpn + n <= MAXVPN
      requires forall v :: vpn <= v < vpn + n ==> v !in flat[pt]
      requires forall p :: page <= p < page + n && vpn + (p - page) < USERTOP ==> OwnedAs(owners, p, Held)
      modifies this
      ensures Valid() && data == old(data)
      ensures Took(old(owners), owners, pt, vpn, page, done)
      ensures flat == MappedRange(old(flat), pt, vpn, page, done, perm)
      ensures if ok then done == n else done < n && freelist == []
    {
      hide Inv, Mapped, Took, MappedRange, PageTable.MakePte;
      NothingMapped(flat, owners, pt, vpn, page, perm);
      done := 0;
      var a, pa := vpn, page;
      while true
        invariant a == vpn + done && pa == page + done && done < n
        invariant Valid() && data == old(data)
        invariant Took(old(owners), owners, pt, vpn, page, done)
        invariant flat == MappedRange(old(flat), pt, vpn, page, done, perm)
        decreases n - done
      {
        MappedRangeNext(old(flat), pt, vpn, page, done, perm);
        MappedRangeLook(old(flat), pt, vpn, page, done, perm, pt, a);
        TookHeld(old(owners), owners, pt, vpn, page, done, pa);
        label L:
        ok := MapPage(pt, a, pa, perm);
        if !ok {
          TookJoin(old(owners), old@L(owners), owners, pt, vpn, page, done, a, pa, 0);
          return;
        }
        TookJoin(old(owners), old@L(owners), owners, pt, vpn, page, done, a, pa, 1);
        done := done + 1;
        if a == vpn + n - 1 {
          break;
        }
        a := a + 1;
        pa := pa + 1;
      }
      ok := true;
    }

    /** One turn of uvmunmap's loop. */
    method UnmapPage(pt: nat, vpn: nat, free: bool)
      requires Valid() && pt in flat && vpn < MAXVPN && (free ==> vpn < USERTOP)
      modifies this
      ensures Valid() && Kept(old(data), data) && Gave(old(owners), owners, pt, free)
      ensures flat == if vpn in old(flat)[pt] then Unmapped(old(flat), pt, vpn) else old(flat)
      ensures !free ==> data == old(data) && freelist == old(freelist)
      ensures vpn >= USERTOP ==> owners == old(owners)
    {
      hide Inv, PagesOk;
      assert vpn * PGSIZE / PGSIZE == vpn;
      var slot := Walk(pt, vpn * PGSIZE, false);
      if slot.NoSlot? {
        return;
      }
      SlotEntry(tables, data, freelist, owners, flat, pt, vpn);
      var pte := tables[slot.page][slot.index];
      if !IsValid(pte) {
        return;
      }
      UnmapInv(tables, data, freelist, owners, flat, pt, vpn);
      ghost var t', f' := Put(tables, slot.page, slot.index, 0), Unmapped(flat, pt, vpn);
      if free {
        ghost var p := PageOf(pte);
        FreeInv(t', data, freelist, owners[p := Held], f', p);
        assert owners[p := Held][p := Free] == owners[p := Free];
        InvPages(tables, data, freelist, owners, flat);
        Kfree(PageOf(pte));
      } else if vpn < USERTOP {
        owners := owners[PageOf(pte) := Held];
      }
      tables := Put(tables, slot.page, slot.index, 0);
      flat := f';
    }

    method Uvmunmap(pt: nat, vpn: nat, n: nat, free: bool)
      requires Valid() && pt in flat && vpn + n <= MAXVPN && (free ==> vpn + n <= USERTOP)
      modifies this
      ensures Valid() && Kept(old(data), data) && Gave(old(owners), owners, pt, free)
      ensures flat == UnmappedRange(old(flat), pt, vpn, n)
      ensures !free ==> data == old(data) && freelist == old(freelist)
      ensures vpn >= USERTOP ==> owners == old(owners)
    {
      hide Inv, UnmappedRange, Unmapped, Gave;
      NothingUnmapped(flat, owners, pt, vpn, free);
      var a := vpn;
      while a < vpn + n
        invariant vpn <= a <= vpn + n
        invariant Valid() && Kept(old(data), data) && Gave(old(owners), owners, pt, free)
        invariant flat == UnmappedRange(old(flat), pt, vpn, a - vpn)
        invariant !free ==> data == old(data) && freelist == old(freelist)
        invariant vpn >= USERTOP ==> owners == old(owners)
      {
        UnmappedNext(old(flat), pt, vpn, a - vpn);
        label L:
        UnmapPage(pt, a, free);
        GaveJoin(old(owners), old@L(owners), owners, pt, free);
        a := a + 1;
      }
    }

    // ----- user memory -----

    /** The sequence uvmalloc, uvmcopy and vmfault share: kalloc, fill, mappages, and kfree when that fails. */
    method MapFresh(pt: nat, vpn: nat, content: Page, perm: nat) returns (p: nat)
      requires Valid() && pt in flat && perm < 1024 && vpn < USERTOP && vpn !in flat[pt]
      modifies this
      ensures Valid() && Only(old(owners), owners, pt)
      ensures p == 0 ==> flat == old(flat) && data == old(data) && |freelist| <= 1
      ensures p != 0 ==>
          p !in old(data) && flat == Mapped(old(flat), pt, vpn, MakePte(p, perm)) && data == old(data)[p := content]
    {
      hide Inv, Took, Only, Mapped;
      p := Kalloc();
      if p == 0 {
        OnlyRefl(owners, pt);
        return;
      }
      NoData(old(tables), old(data), old(freelist), old(owners), flat, p);
      RefillInv(tables, data, freelist, owners, flat, p, content);
      data := data[p := content];
      label L:
      ghost var done;
      var ok;
      ok, done := Mappages(pt, vpn, 1, p, perm);
      if !ok {
        NothingMapped(old@L(flat), owners, pt, vpn, p, perm);
        FreshOnly(old(owners), owners, pt, vpn, p, 0);
        FreeInv(tables, data, freelist, owners, flat, p);
        InvPages(tables, data, freelist, owners, flat);
        Kfree(p);
        assert data == old(data);
        return 0;
      }
      NothingMapped(old@L(flat), owners, pt, vpn, p, perm);
      MappedRangeNext(old@L(flat), pt, vpn, p, 0, perm);
      assert vpn in flat[pt] && flat[pt][vpn] == MakePte(p, perm) by {
        MappedHere(old(flat), pt, vpn, MakePte(p, perm));
      }
      LeafOwner(tables, data, freelist, owners, flat, pt, vpn);
      FreshOnly(old(owners), owners, pt, vpn, p, 1);
    }

    method Uvmdealloc(pt: nat, oldsz: nat, newsz: nat) returns (r: nat)
      requires Valid() && pt in flat && Up(oldsz) <= USERTOP
      modifies this
      ensures Valid() && Kept(old(data), data) && Only(old(owners), owners, pt)
      ensures r == if newsz < oldsz then newsz else oldsz
      ensures newsz >= oldsz ==> data == old(data) && owners == old(owners)
      ensures flat == if newsz < oldsz then UnmappedRange(old(flat), pt, Up(newsz), Up(oldsz) - Up(newsz))
        else old(flat)
    {
      hide Inv, Only, Gave;
      OnlyRefl(owners, pt);
      if newsz >= oldsz {
        return oldsz;
      }
      if Up(newsz) < Up(oldsz) {
        Uvmunmap(pt, Up(newsz), Up(oldsz) - Up(newsz), true);
        GaveOnly(old(owners), owners, pt);
      } else {
        UnmappedNone(flat, pt, Up(newsz), 0);
      }
      r := newsz;
    }

    method Uvmalloc(pt: nat, oldsz: nat, newsz: nat, xperm: nat) returns (r: nat)
      requires Valid() && pt in flat && Up(newsz) <= USERTOP && xperm in {0, PTE_W, PTE_X, PTE_W + PTE_X}
      requires forall v :: Up(oldsz) <= v < Up(newsz) ==> v !in flat[pt]
      modifies this
      ensures Valid() && Only(old(owners), owners, pt)
      ensures newsz < oldsz ==> r == oldsz && flat == old(flat) && data == old(data)
      ensures oldsz <= newsz && r == newsz ==>
          && Zeroed(old(flat), flat, data, pt, Up(oldsz), Up(newsz), PTE_V + PTE_R + PTE_U + xperm)
          && Kept(data, old(data))
      ensures oldsz <= newsz && r != newsz ==> r == 0 && flat == old(flat) && data == old(data)
    {
      hide Inv, Only, Mapped, UnmappedRange, Zeroed;
      OnlyRefl(owners, pt);
      ZeroedStart(flat, data, pt, Up(oldsz), PTE_V + PTE_R + PTE_U + xperm);
      if newsz < oldsz {
        return oldsz;
      }
      var first := Up(oldsz);
      ghost var flags := PTE_V + PTE_R + PTE_U + xperm;
      var a := first;
      while a * PGSIZE < newsz
        invariant first <= a <= Up(newsz)
        invariant Valid() && Only(old(owners), owners, pt)
        invariant Zeroed(old(flat), flat, data, pt, first, a, flags) && Kept(data, old(data))
      {
        label L:
        ZeroedUndo(old(flat), flat, data, pt, first, a, flags, Up(newsz));
        var mem := MapFresh(pt, a, Fill(0), PTE_R + PTE_U + xperm);
        OnlyJoin(old(owners), old@L(owners), owners, pt);
        if mem == 0 {
          label M:
          assert Up(a * PGSIZE) == a && Up(first * PGSIZE) == first;
          var _ := Uvmdealloc(pt, a * PGSIZE, first * PGSIZE);
          OnlyJoin(old(owners), old@M(owners), owners, pt);
          SameData(old(tables), old(data), old(freelist), old(owners), tables, data, freelist, owners, flat, pt,
                   old@M(data));
          return 0;
        }
        ZeroedNext(old(flat), old@L(flat), old@L(data), pt, first, a, PTE_R + PTE_U + xperm, mem);
        a := a + 1;
      }
      r := newsz;
    }

    /** walk without allocation, then the entry there. */
    method Lookup(pt: nat, vpn: nat) returns (e: nat)
      requires Valid() && pt in flat && vpn < MAXVPN
      modifies this
      ensures Valid() && flat == old(flat) && data == old(data) && owners == old(owners) && freelist == old(freelist)
      ensures e == Look(flat, pt, vpn) && (IsValid(e) <==> vpn in flat[pt])
    {
      hide Inv;
      assert vpn * PGSIZE / PGSIZE == vpn;
      var slot := Walk(pt, vpn * PGSIZE, false);
      if slot.NoSlot? {
        return 0;
      }
      SlotEntry(tables, data, freelist, owners, flat, pt, vpn);
      e := tables[slot.page][slot.index];
    }

    method Uvmcopy(parent: nat, child: nat, sz: nat) returns (ok: bool)
      requires Valid() && parent in flat && child in flat && parent != child && Up(sz) <= USERTOP
      requires forall v :: 0 <= v < Up(sz) ==> v !in flat[child]
      modifies this
      ensures Valid() && Only(old(owners), owners, child)
      ensures ok ==> Copied(old(flat), flat, old(data), data, parent, child, Up(sz)) && Kept(data, old(data))
      ensures !ok ==> flat == old(flat) && data == old(data)
    {
      hide Inv, Only, Mapped, UnmappedRange, Copied;
      OnlyRefl(owners, child);
      CopiedStart(flat, data, parent, child);
      var i := 0;
      while i * PGSIZE < sz
        invariant 0 <= i <= Up(sz)
        invariant Valid() && Only(old(owners), owners, child)
        invariant Copied(old(flat), flat, old(data), data, parent, child, i) && Kept(data, old(data))
      {
        CopiedFacts(old(flat), flat, old(data), data, parent, child, i, Up(sz));
        var pte := Lookup(parent, i);
        if IsValid(pte) {
          LeafOwner(tables, data, freelist, owners, flat, parent, i);
          LeafOwner(old(tables), old(data), old(freelist), old(owners), old(flat), parent, i);
          label L:
          var mem := MapFresh(child, i, data[PageOf(pte)], Flags(pte));
          OnlyJoin(old(owners), old@L(owners), owners, child);
          if mem == 0 {
            label M:
            Uvmunmap(child, 0, i, true);
            GaveOnly(old@M(owners), owners, child);
            OnlyJoin(old(owners), old@M(owners), owners, child);
            SameData(old(tables), old(data), old(freelist), old(owners), tables, data, freelist, owners, flat, child,
                     old@M(data));
            return false;
          }
          CopiedNext(old(flat), old@L(flat), old(data), old@L(data), parent, child, i, mem);
        }
        i := i + 1;
      }
      ok := true;
    }

    // ----- between kernel and user -----

    method Walkaddr(pt: nat, vpn: nat) returns (p: nat)
      requires Valid() && pt in flat
      modifies this
      ensures Valid() && flat == old(flat) && data == old(data) && owners == old(owners) && freelist == old(freelist)
      ensures p == if vpn in flat[pt] && HasFlag(flat[pt][vpn], PTE_U) then PageOf(flat[pt][vpn]) else 0
    {
      hide Inv, PageTable.PageOf;
      if vpn in flat[pt] {
        KeysBelow(tables, data, freelist, owners, flat, pt, vpn);
      }
      if vpn >= MAXVPN {
        return 0;
      }
      var pte := Lookup(pt, vpn);
      if !IsValid(pte) {
        return 0;
      }
      if !HasFlag(pte, PTE_U) {
        return 0;
      }
      p := PageOf(pte);
    }

    method Vmfault(pt: nat, sz: nat, va: nat) returns (p: nat)
      requires Valid() && Space(flat, pt, sz)
      modifies this
      ensures Valid() && Space(flat, pt, sz) && Only(old(owners), owners, pt)
      ensures Wrote(old(flat), old(data), flat, data, pt, 0, [])
      ensures p == 0 ==>
          && flat == old(flat) && data == old(data)
          && (va >= sz || va / PGSIZE in flat[pt] || |freelist| <= 1)
      ensures p != 0 ==>
          && va < sz && va / PGSIZE !in old(flat)[pt]
          && flat == Mapped(old(flat), pt, va / PGSIZE, MakePte(p, LAZY)) && p in data
    {
      hide Inv, Only, PageTable.MakePte;
      p := 0;
      OnlyRefl(owners, pt);
      if va >= sz {
        return;
      }
      var vpn := va / PGSIZE;
      var pte := Lookup(pt, vpn);
      if IsValid(pte) {
        return;
      }
      p := MapFresh(pt, vpn, Fill(0), LAZY);
      if p != 0 {
        FaultView(old(tables), old(data), old(freelist), old(owners), old(flat), pt, vpn, p);
      }
    }

    /** The start of the loop bodies of copyin and copyout: walkaddr, and vmfault when it fails. */
    method UserPage(pt: nat, sz: nat, v: nat) returns (p: nat)
      requires Valid() && Space(flat, pt, sz)
      modifies this
      ensures Valid() && Space(flat, pt, sz) && Only(old(owners), owners, pt) && flat.Keys == old(flat).Keys
      ensures Wrote(old(flat), old(data), flat, data, pt, 0, [])
      ensures forall u, w :: Refused(flat, pt, sz, u, w) <==> Refused(old(flat), pt, sz, u, w)
      ensures p == 0 ==> Refused(flat, pt, sz, v, false) || |freelist| <= 1
      ensures p != 0 ==>
          && !Refused(flat, pt, sz, v, false) && v < USERTOP && v in flat[pt]
          && IsValid(flat[pt][v]) && PageOf(flat[pt][v]) == p && p in data
    {
      hide Inv, Only, Wrote, PageTable.MakePte;
      OnlyRefl(owners, pt);
      WroteNothing(flat, data, pt);
      p := Walkaddr(pt, v);
      if p == 0 {
        p := Vmfault(pt, sz, v * PGSIZE);
        assert v * PGSIZE / PGSIZE == v;
        if p != 0 {
          LazyKeepsRefused(old(flat), pt, sz, v, p);
        } else if v in flat[pt] && v < USERTOP {
          LeafOwner(tables, data, freelist, owners, flat, pt, v);
        }
      } else {
        KeysBelow(tables, data, freelist, owners, flat, pt, v);
        LeafOwner(tables, data, freelist, owners, flat, pt, v);
      }
    }

    method Copyout(pt: nat, sz: nat, dst: nat, src: seq<byte>) returns (ok: bool, ghost done: nat)
      requires Valid() && Space(flat, pt, sz)
      modifies this
      ensures Valid() && Space(flat, pt, sz) && Only(old(owners), owners, pt)
      ensures done <= |src| && Wrote(old(flat), old(data), flat, data, pt, dst, src[..done])
      ensures Progress(old(flat), pt, sz, dst, |src|, done, true, ok, |freelist|)
    {
      hide Inv, Only, Wrote, Space;
      OnlyRefl(owners, pt);
      WroteNothing(flat, data, pt);
      WroteEmpty(flat, data, flat, data, pt, dst, src);
      done := 0;
      var dstva, rest := dst, src;
      while |rest| > 0
        invariant done <= |src| && rest == src[done..] && dstva == dst + done
        invariant Valid() && Space(flat, pt, sz) && Only(old(owners), owners, pt) && flat.Keys == old(flat).Keys
        invariant Wrote(old(flat), old(data), flat, data, pt, dst, src[..done])
        invariant forall u, w :: Refused(flat, pt, sz, u, w) <==> Refused(old(flat), pt, sz, u, w)
        invariant forall x :: dst <= x < dst + done ==> !Refused(old(flat), pt, sz, x / PGSIZE, true)
        decreases |rest|
      {
        label L:
        var n := CopyoutChunk(pt, sz, dstva, rest);
        OnlyJoin(old(owners), old@L(owners), owners, pt);
        assert rest[..n] == src[done..done + n];
        WroteMore(old(flat), old(data), old@L(flat), old@L(data), flat, data, pt, dst, src, done, n);
        if n == 0 {
          return false, done;
        }
        done := done + n;
        rest := rest[n..];
        dstva := dstva + n;
      }
      ok := true;
    }

    method CopyoutChunk(pt: nat, sz: nat, dst: nat, src: seq<byte>) returns (n: nat)
      requires Valid() && Space(flat, pt, sz) && |src| > 0
      modifies this
      ensures Valid() && Space(flat, pt, sz) && Only(old(owners), owners, pt) && flat.Keys == old(flat).Keys
      ensures n <= |src| && Wrote(old(flat), old(data), flat, data, pt, dst, src[..n])
      ensures forall u, w :: Refused(flat, pt, sz, u, w) <==> Refused(old(flat), pt, sz, u, w)
      ensures n == 0 ==> Refused(flat, pt, sz, dst / PGSIZE, true) || |freelist| <= 1
      ensures n > 0 ==> n == ChunkAt(dst, |src|) && !Refused(flat, pt, sz, dst / PGSIZE, true)
    {
      hide Inv, Only, Wrote, Splice;
      var v := dst / PGSIZE;
      OnlyRefl(owners, pt);
      WroteNothing(flat, data, pt);
      WroteEmpty(flat, data, flat, data, pt, dst, src);
      if v >= MAXVPN {
        if v in flat[pt] {
          KeysBelow(tables, data, freelist, owners, flat, pt, v);
        }
        return 0;
      }
      var p := UserPage(pt, sz, v);
      WroteEmpty(old(flat), old(data), flat, data, pt, dst, src);
      if p == 0 {
        return 0;
      }
      var pte := Lookup(pt, v);
      if !HasFlag(pte, PTE_W) {
        return 0;
      }
      n := ChunkAt(dst, |src|);
      StoreView(tables, data, freelist, owners, flat, pt, dst, src[..n]);
      LeafOwner(tables, data, freelist, owners, flat, pt, v);
      RefillInv(tables, data, freelist, owners, flat, p, Splice(data[p], dst % PGSIZE, src[..n]));
      label L:
      data := data[p := Splice(data[p], dst % PGSIZE, src[..n])];
      assert src[0..0 + n] == src[..n] && dst + 0 == dst;
      WroteMore(old(flat), old(data), flat, old@L(data), flat, data, pt, dst, src, 0, n);
    }

    method Copyin(pt: nat, sz: nat, src: nat, len: nat) returns (ok: bool, dst: seq<byte>)
      requires Valid() && Space(flat, pt, sz)
      modifies this
      ensures Valid() && Space(flat, pt, sz) && Only(old(owners), owners, pt)
      ensures Wrote(old(flat), old(data), flat, data, pt, 0, [])
      ensures dst == ReadBytes(old(flat), old(data), pt, src, |dst|)
      ensures Progress(old(flat), pt, sz, src, len, |dst|, false, ok, |freelist|)
    {
      hide Inv, Only, Wrote, UserByte, ReadBytes;
      OnlyRefl(owners, pt);
      WroteNothing(flat, data, pt);
      dst := [];
      while |dst| < len
        invariant |dst| <= len
        invariant Valid() && Space(flat, pt, sz) && Only(old(owners), owners, pt) && flat.Keys == old(flat).Keys
        invariant Wrote(old(flat), old(data), flat, data, pt, 0, [])
        invariant dst == ReadBytes(old(flat), old(data), pt, src, |dst|)
        invariant forall u, w :: Refused(flat, pt, sz, u, w) <==> Refused(old(flat), pt, sz, u, w)
        invariant forall x :: src <= x < src + |dst| ==> !Refused(old(flat), pt, sz, x / PGSIZE, false)
        decreases len - |dst|
      {
        var va := src + |dst|;
        label L:
        var p := UserPage(pt, sz, va / PGSIZE);
        OnlyJoin(old(owners), old@L(owners), owners, pt);
        WroteMore(old(flat), old(data), old@L(flat), old@L(data), flat, data, pt, 0, [], 0, 0);
        if p == 0 {
          return false, dst;
        }
        var n := ChunkAt(va, len - |dst|);
        ReadChunk(flat, data, pt, va, n);
        ReadJoin(old(flat), old(data), flat, data, pt, src, |dst|, n);
        dst := dst + data[p][va % PGSIZE..va % PGSIZE + n];
      }
      ok := true;
    }

    // ----- whole address spaces -----

    method Uvmcreate() returns (pt: nat)
      requires Valid()
      modifies this
      ensures Valid() && data == old(data)
      ensures pt == 0 ==> flat == old(flat) && owners == old(owners)
      ensures pt != 0 ==>
          && OwnedAs(old(owners), pt, Free) && owners == old(owners)[pt := Root]
          && pt !in old(flat) && flat == old(flat)[pt := map[]]
    {
      hide Inv;
      pt := Kalloc();
      if pt != 0 {
        assert old(freelist)[0] == pt && old(freelist)[1..] == freelist;
        NewRoot(tables, old(data), old(freelist), old(owners), flat);
        data := data - {pt};
        tables := tables[pt := ZeroTable()];
        owners := owners[pt := Root];
        flat := flat[pt := map[]];
        assert data == old(data) && owners == old(owners)[pt := Root];
      }
    }

    /** Frees table p and all tables below it; the entry that points to p is the caller's to clear. */
    method Freewalk(p: nat)
      requires Tree(tables, owners) && PagesOk(freelist, data, owners)
      requires p in owners && IsTable(owners[p]) && NoLeaves(tables, owners, p)
      modifies `tables, `freelist, `data, `owners
      ensures PagesOk(freelist, data, owners) && data == old(data)
      ensures Gone(old(tables), old(owners), tables, owners, p)
      decreases Level(owners[p])
    {
      hide PagesOk, Tree, Gone, Freed, NoLeaves, Pruned;
      FreeingStart(tables, owners, p);
      var i := 0;
      while i < NPTE
        invariant 0 <= i <= NPTE
        invariant PagesOk(freelist, data, owners) && data == old(data)
        invariant Freeing(old(tables), old(owners), tables, owners, p, i)
      {
        FreeingEntry(old(tables), old(owners), tables, owners, p, i);
        var pte := tables[p][i];
        if IsValid(pte) {
          // an interior entry: PTE_R, PTE_W and PTE_X are clear, so the leaf panic is not taken
          assert !HasFlag(pte, PTE_R) && !HasFlag(pte, PTE_W) && !HasFlag(pte, PTE_X);
          ghost var t, o := tables, owners;
          NoLeavesBelow(old(tables), tables, old(owners), p, i, PageOf(pte));
          Freewalk(PageOf(pte));
          FreeingChild(old(tables), old(owners), t, o, p, i, tables, owners, PageOf(pte));
          tables := Put(tables, p, i, 0);
        } else {
          FreeingSkip(old(tables), old(owners), tables, owners, p, i);
        }
        i := i + 1;
      }
      FreeingDone(old(tables), old(owners), tables, owners, p);
      TableNoData(freelist, data, old(owners), owners, p, NPTE);
      Kfree(p);
      tables := tables - {p};
      assert data == old(data);
    }

    method Uvmfree(pt: nat, sz: nat)
      requires Valid() && pt in flat && Up(sz) <= USERTOP && forall v :: v in flat[pt] ==> v < Up(sz)
      modifies this
      ensures Valid() && flat == old(flat) - {pt} && Kept(old(data), data)
      ensures Destroyed(old(owners), owners, pt)
    {
      hide Inv, Gave, Destroyed, PagesOk, Gone, NoLeaves;
      GaveNone(owners, pt);
      if sz > 0 {
        Uvmunmap(pt, 0, Up(sz), true);
      }
      assert flat[pt] == map[];
      ghost var t, d, l, o := tables, data, freelist, owners;
      EmptySpace(tables, data, freelist, owners, flat, pt);
      InvPages(tables, data, freelist, owners, flat);
      InvTree(tables, data, freelist, owners, flat);
      Freewalk(pt);
      GoneInv(t, d, l, o, flat, pt, tables, freelist, owners);
      DestroyedLater(old(owners), o, owners, pt);
      flat := flat - {pt};
    }

    method ProcFreepagetable(pt: nat, sz: nat)
      requires Valid() && Space(flat, pt, sz)
      modifies this
      ensures Valid() && flat == old(flat) - {pt} && Kept(old(data), data)
      ensures Destroyed(old(owners), owners, pt)
    {
      hide Inv, Gave, Destroyed;
      forall v | v in flat[pt]
        ensures v < MAXVPN
      {
        KeysBelow(tables, data, freelist, owners, flat, pt, v);
      }
      Uvmunmap(pt, TRAMPOLINE, 1, false);
      Uvmunmap(pt, TRAPFRAME, 1, false);
      Uvmfree(pt, sz);
    }

    method ProcPagetable(trampoline: nat, trapframe: nat) returns (pt: nat)
      requires Valid()
      modifies this
      ensures Valid() && data == old(data)
      ensures pt == 0 ==> flat == old(flat) && owners == old(owners)
      ensures pt != 0 ==>
          && pt !in old(flat) && Space(flat, pt, 0)
          && flat == old(flat)[pt := map[TRAMPOLINE := MakePte(trampoline, PTE_R + PTE_X),
                                         TRAPFRAME := MakePte(trapframe, PTE_R + PTE_W)]]
          && OwnedAs(old(owners), pt, Free) && Took(old(owners)[pt := Root], owners, pt, 0, 0, 0)
    {
      hide Inv, Destroyed, PageTable.MakePte;
      KernelFlags(trampoline);
      KernelFlags(trapframe);
      pt := Uvmcreate();
      if pt == 0 {
        return;
      }
      var ok := MapKernel(pt, TRAMPOLINE, trampoline, PTE_R + PTE_X);
      if !ok {
        Discard(pt, old(tables), old(freelist), old(owners), old(flat));
        return 0;
      }
      ok := MapKernel(pt, TRAPFRAME, trapframe, PTE_R + PTE_W);
      if !ok {
        Uvmunmap(pt, TRAMPOLINE, 1, false);
        assert flat[pt] == map[];
        assert flat == old(flat)[pt := map[]];
        Discard(pt, old(tables), old(freelist), old(owners), old(flat));
        return 0;
      }
    }

    /** uvmfree of an address space that got no user page: as if it had never been built. */
    method Discard(pt: nat, ghost t: Tables, ghost l: seq<nat>, ghost o: Owners, ghost f: Flat)
      requires Valid() && Inv(t, data, l, o, f) && pt !in f && OwnedAs(o, pt, Free)
      requires flat == f[pt := map[]] && Took(o[pt := Root], owners, pt, 0, 0, 0)
      modifies this
      ensures Valid() && data == old(data) && flat == f && owners == o
    {
      hide Inv, Destroyed, Took;
      Uvmfree(pt, 0);
      assert flat == f;
      NeverBuilt(t, old(data), l, o, f, pt, old(owners), owners, 0, 0);
      SameKeys(t, old(data), l, o, tables, data, freelist, f);
    }

    /** mappages of one page above the user's, as proc_pagetable calls it. */
    method MapKernel(pt: nat, vpn: nat, page: nat, perm: nat) returns (ok: bool)
      requires Valid() && pt in flat && perm < 1024 && USERTOP <= vpn < MAXVPN && vpn !in flat[pt]
      modifies this
      ensures Valid() && data == old(data) && Took(old(owners), owners, pt, 0, 0, 0)
      ensures flat == if ok then Mapped(old(flat), pt, vpn, MakePte(page, perm)) else old(flat)
    {
      hide Inv, Mapped;
      ghost var done;
      ok, done := Mappages(pt, vpn, 1, page, perm);
      NothingMapped(old(flat), old(owners), pt, vpn, page, perm);
      MappedRangeNext(old(flat), pt, vpn, page, 0, perm);
      forall p | p in owners && owners[p].Leaf?
        ensures owners[p].vpn < USERTOP
      {
        LeafBelow(tables, data, freelist, owners, flat, p);
      }
    }

    /** sys_sbrk and growproc; sz + n is computed in 64 bits, so it wraps when -n > sz. */
    method Sbrk(pt: nat, sz: nat, n: int, eager: bool) returns (ok: bool, sz': nat)
      requires Valid() && Space(flat, pt, sz) && -0x8000_0000 <= n < 0x8000_0000
      modifies this
      ensures Valid() && Space(flat, pt, sz') && Only(old(owners), owners, pt)
      ensures !ok ==> sz' == sz && n > 0 && flat == old(flat) && data == old(data)
      ensures ok ==> sz' == if sz + n >= 0 then sz + n else sz
      ensures Dropped(old(flat), old(data), flat, data, pt, Up(sz'), Up(sz))
      ensures ok && eager ==> forall v :: Up(sz) <= v < Up(sz') ==> v in flat[pt]
      ensures n >= 0 && !eager ==> flat == old(flat) && (ok <==> sz + n <= TRAPFRAME * PGSIZE)
    {
      hide Inv, Only, Dropped, Wrote, Zeroed;
      OnlyRefl(owners, pt);
      WroteNothing(flat, data, pt);
      WroteDropped(flat, data, flat, data, pt, Up(sz), Up(sz));
      if n > 0 && sz + n > TRAPFRAME * PGSIZE {
        return false, sz;
      }
      if n < 0 {
        sz' := Uvmdealloc(pt, sz, if sz + n >= 0 then sz + n else sz + n + 0x1_0000_0000_0000_0000);
        if sz + n >= 0 {
          ShrinkView(old(tables), old(data), old(freelist), old(owners), old(flat), tables, data, freelist, owners, pt,
                     Up(sz'), Up(sz));
        }
      } else if eager && n > 0 {
        sz' := Uvmalloc(pt, sz, sz + n, PTE_W);
        if sz' == 0 {
          return false, sz;
        }
        ghost var flags := PTE_V + PTE_R + PTE_U + PTE_W;
        ZeroedView(old(tables), old(data), old(freelist), old(owners), old(flat), flat, data, pt, Up(sz), Up(sz'),
                   flags);
        GrownSpace(old(flat), flat, data, pt, sz, sz', flags);
        WroteDropped(old(flat), old(data), flat, data, pt, Up(sz'), Up(sz));
      } else {
        sz' := sz + n;
        WroteDropped(flat, data, flat, data, pt, Up(sz'), Up(sz));
      }
      ok := true;
    }
  }
}
