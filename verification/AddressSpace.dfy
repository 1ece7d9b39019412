/**
 User address spaces as values: the flat map a page-table tree stands for, an owner for
 every physical page, and what user memory reads as.
 */
module AddressSpace {
  import opened Bytes
  import opened PageTable

  /** Root page -> virtual page number -> valid entry. */
  type Flat = map<nat, map<nat, nat>>
  type Page = p: seq<byte> | |p| == PGSIZE witness seq<byte>(PGSIZE, _ => 0)
  type Data = map<nat, Page>

  function Fill(b: byte): (p: Page)
    ensures forall i :: 0 <= i < PGSIZE ==> p[i] == b
  {
    seq<byte>(PGSIZE, _ => b)
  }

  function Look(f: Flat, pt: nat, vpn: nat): (e: nat) {
    if pt in f && vpn in f[pt] then f[pt][vpn] else 0
  }

  function Mapped(f: Flat, pt: nat, vpn: nat, e: nat): (f': Flat)
    requires pt in f
  {
    var m: map<nat, nat> := f[pt][vpn := e];
    f[pt := m]
  }

  function Unmapped(f: Flat, pt: nat, vpn: nat): (f': Flat)
    requires pt in f
  {
    var m: map<nat, nat> := f[pt] - {vpn};
    f[pt := m]
  }

  // ----- the tree stands for the flat map -----

  ghost predicate Represents(t: Tables, o: Owners, f: Flat) {
    && (forall pt :: pt in f <==> OwnedAs(o, pt, Root))
    && (forall pt, vpn :: pt in f && vpn in f[pt] ==> vpn < MAXVPN && IsValid(f[pt][vpn]))
    && (forall pt, vpn :: pt in f && 0 <= vpn < MAXVPN ==> Pte(t, pt, vpn) == Look(f, pt, vpn))
  }

  lemma StoreLeaf(t: Tables, o: Owners, f: Flat, pt: nat, vpn: nat, e: nat)
    requires Tree(t, o) && Represents(t, o, f) && pt in f && vpn < MAXVPN && LowPage(t, pt, vpn) != 0
    requires IsValid(e) || e == 0
    ensures LowPage(t, pt, vpn) in t && |t[LowPage(t, pt, vpn)]| == NPTE
    ensures var t' := Put(t, LowPage(t, pt, vpn), I0(vpn), e);
      Tree(t', o) && Represents(t', o, if e == 0 then Unmapped(f, pt, vpn) else Mapped(f, pt, vpn, e))
  {
    hide Tree;
    assert OwnedAs(o, pt, Root);
    LowOwner(t, o, pt, vpn);
    var l := LowPage(t, pt, vpn);
    var t' := Put(t, l, I0(vpn), e);
    var f' := if e == 0 then Unmapped(f, pt, vpn) else Mapped(f, pt, vpn, e);
    StoreTree(t, o, l, I0(vpn), e);
    forall pt', vpn' | pt' in f' && 0 <= vpn' < MAXVPN
      ensures Pte(t', pt', vpn') == Look(f', pt', vpn')
    {
      assert OwnedAs(o, pt', Root);
      StoreSlot(t, o, pt, vpn, e, pt', vpn');
    }
  }

  lemma RootsFrame(t: Tables, o: Owners, o': Owners, f: Flat)
    requires Represents(t, o, f)
    requires forall p :: OwnedAs(o, p, Root) <==> OwnedAs(o', p, Root)
    ensures Represents(t, o', f)
  {
  }

  lemma RootOf(t: Tables, o: Owners, f: Flat, pt: nat)
    requires Represents(t, o, f) && pt in f
    ensures OwnedAs(o, pt, Root)
  {
  }

  lemma NoEntry(t: Tables, o: Owners, f: Flat, pt: nat, vpn: nat)
    requires Represents(t, o, f) && pt in f && vpn < MAXVPN && Pte(t, pt, vpn) == 0
    ensures vpn !in f[pt]
  {
  }

  lemma GrowRepresents(t: Tables, o: Owners, f: Flat, p: nat, i: nat, q: nat)
    requires Tree(t, o) && Represents(t, o, f) && CanGrow(t, o, p, i, q)
    ensures Represents(WithTable(t, p, i, q), o[q := Child(o[p], p, i)], f)
  {
    hide Tree, WithTable, Pte;
    var t', o' := WithTable(t, p, i, q), o[q := Child(o[p], p, i)];
    forall pt, vpn | pt in f && 0 <= vpn < MAXVPN
      ensures Pte(t', pt, vpn) == Look(f, pt, vpn)
    {
      assert OwnedAs(o, pt, Root);
      GrowKeeps(t, o, p, i, q, pt, vpn);
    }
  }

  // ----- user pages, the free list and the contents of pages -----

  /** A page mapped below TRAPFRAME belongs to exactly that mapping. */
  ghost predicate Leaves(f: Flat, o: Owners) {
    && (forall pt, vpn :: pt in f && vpn in f[pt] && vpn < USERTOP ==> OwnedAs(o, PageOf(f[pt][vpn]), Leaf(pt, vpn)))
    && (forall p :: p in o && o[p].Leaf? ==>
          o[p].vpn < USERTOP && Look(f, o[p].pt, o[p].vpn) != 0 && PageOf(Look(f, o[p].pt, o[p].vpn)) == p)
  }

  ghost predicate FreeOk(l: seq<nat>, o: Owners) {
    && (forall i :: 0 <= i < |l| ==> OwnedAs(o, l[i], Free))
    && (forall i, j :: 0 <= i < j < |l| ==> l[i] != l[j])
    && (forall p :: p in o && o[p].Free? ==> p in l)
  }

  predicate HasData(o: Owner) {
    o.Held? || o.Leaf?
  }

  ghost predicate DataOk(d: Data, o: Owners) {
    && (forall p :: p in d ==> p in o && HasData(o[p]))
    && (forall p :: p in o && HasData(o[p]) ==> p in d)
  }

  lemma LeavesFrame(f: Flat, o: Owners, o': Owners)
    requires Leaves(f, o) && o'.Keys == o.Keys
    requires forall p :: p in o && o'[p] != o[p] ==> !o[p].Leaf? && !o'[p].Leaf?
    ensures Leaves(f, o')
  {
  }

  function MappedOwners(o: Owners, pt: nat, vpn: nat, page: nat): (o': Owners) {
    if vpn < USERTOP then o[page := Leaf(pt, vpn)] else o
  }

  lemma MapLeaf(f: Flat, o: Owners, pt: nat, vpn: nat, e: nat)
    requires Leaves(f, o) && pt in f && vpn !in f[pt] && IsValid(e)
    requires vpn < USERTOP ==> OwnedAs(o, PageOf(e), Held)
    ensures Leaves(Mapped(f, pt, vpn, e), MappedOwners(o, pt, vpn, PageOf(e)))
  {
  }

  lemma UnmapLeaf(f: Flat, o: Owners, pt: nat, vpn: nat, who: Owner)
    requires Leaves(f, o) && pt in f && vpn in f[pt] && !who.Leaf?
    ensures var p := PageOf(f[pt][vpn]);
      Leaves(Unmapped(f, pt, vpn), if vpn < USERTOP then o[p := who] else o)
  {
  }

  ghost predicate PagesOk(l: seq<nat>, d: Data, o: Owners) {
    FreeOk(l, o) && DataOk(d, o)
  }

  ghost predicate Inv(t: Tables, d: Data, l: seq<nat>, o: Owners, f: Flat) {
    Tree(t, o) && Represents(t, o, f) && Leaves(f, o) && PagesOk(l, d, o)
  }

  lemma TakePage(l: seq<nat>, d: Data, o: Owners, who: Owner, page: Page)
    requires PagesOk(l, d, o) && l != [] && !who.Free?
    ensures OwnedAs(o, l[0], Free) && l[0] !in d
    ensures PagesOk(l[1..], if HasData(who) then d[l[0] := page] else d, o[l[0] := who])
  {
  }

  lemma GivePage(l: seq<nat>, d: Data, o: Owners, p: nat)
    requires PagesOk(l, d, o) && p != 0 && p in o && !o[p].Free?
    ensures PagesOk([p] + l, d - {p}, o[p := Free])
  {
    var l' := [p] + l;
    assert l'[0] == p;
    assert forall i :: 0 < i < |l'| ==> l'[i] == l[i - 1];
  }

  lemma NoData(t: Tables, d: Data, l: seq<nat>, o: Owners, f: Flat, p: nat)
    requires Inv(t, d, l, o, f) && OwnedAs(o, p, Free)
    ensures p !in d
  {
  }

  lemma InvPages(t: Tables, d: Data, l: seq<nat>, o: Owners, f: Flat)
    requires Inv(t, d, l, o, f)
    ensures PagesOk(l, d, o)
  {
  }

  /** Pages move between free and held without touching any address space. */
  lemma HoldInv(t: Tables, d: Data, l: seq<nat>, o: Owners, f: Flat, page: Page)
    requires Inv(t, d, l, o, f) && l != []
    ensures OwnedAs(o, l[0], Free) && Inv(t, d[l[0] := page], l[1..], o[l[0] := Held], f)
  {
    hide Tree, Represents, Leaves, PagesOk;
    TakePage(l, d, o, Held, page);
    LeavesFrame(f, o, o[l[0] := Held]);
    TreeFrame(t, o, o[l[0] := Held]);
    RootsFrame(t, o, o[l[0] := Held], f);
  }

  lemma FreeInv(t: Tables, d: Data, l: seq<nat>, o: Owners, f: Flat, p: nat)
    requires Inv(t, d, l, o, f) && OwnedAs(o, p, Held)
    ensures Inv(t, d - {p}, [p] + l, o[p := Free], f)
  {
    hide Tree, Represents, Leaves, PagesOk;
    GivePage(l, d, o, p);
    LeavesFrame(f, o, o[p := Free]);
    TreeFrame(t, o, o[p := Free]);
    RootsFrame(t, o, o[p := Free], f);
  }

  lemma GrowInv(t: Tables, d: Data, l: seq<nat>, o: Owners, f: Flat, p: nat, i: nat)
    requires Inv(t, d, l, o, f) && l != [] && CanGrow(t, o, p, i, l[0])
    ensures Inv(WithTable(t, p, i, l[0]), d, l[1..], o[l[0] := Child(o[p], p, i)], f)
  {
    hide WithTable, Tree, Represents, Leaves, PagesOk;
    GrowTree(t, o, p, i, l[0]);
    GrowRepresents(t, o, f, p, i, l[0]);
    TakePage(l, d, o, Child(o[p], p, i), Fill(0));
    LeavesFrame(f, o, o[l[0] := Child(o[p], p, i)]);
  }

  datatype Slot = NoSlot | Slot(page: nat, index: nat)

  predicate IsSlot(t: Tables, pt: nat, vpn: nat, s: Slot) {
    s.Slot? && s.page != 0 && s.page == LowPage(t, pt, vpn) && s.index == I0(vpn)
  }

  /** Who owns the table reached when the walk for vpn is about to use the index of level. */
  function PathOwner(pt: nat, vpn: nat, level: nat): (o: Owner) {
    if level == 2 then Root else if level == 1 then Mid(pt, I2(vpn)) else Low(pt, I2(vpn), I1(vpn))
  }

  function Index(vpn: nat, level: nat): (i: nat)
    ensures i < NPTE
  {
    if level == 2 then I2(vpn) else if level == 1 then I1(vpn) else I0(vpn)
  }

  /** p is the table that the walk for vpn uses at level. */
  predicate OnPath(o: Owners, pt: nat, vpn: nat, level: nat, p: nat) {
    OwnedAs(o, pt, Root) && OwnedAs(o, p, PathOwner(pt, vpn, level)) && (level == 2 ==> p == pt)
  }

  lemma PathTable(t: Tables, o: Owners, pt: nat, vpn: nat, level: nat, p: nat)
    requires Tree(t, o) && OnPath(o, pt, vpn, level, p)
    ensures p in t && |t[p]| == NPTE
    ensures level == 0 ==> LowPage(t, pt, vpn) == p
  {
    assert Reached(t, o, p);
  }

  lemma PathStep(t: Tables, o: Owners, pt: nat, vpn: nat, level: nat, p: nat)
    requires Tree(t, o) && OnPath(o, pt, vpn, level, p) && (level == 2 || level == 1)
    requires p in t && |t[p]| == NPTE
    ensures var e := t[p][Index(vpn, level)];
      && (IsValid(e) ==> OnPath(o, pt, vpn, level - 1, PageOf(e)))
      && (!IsValid(e) ==> e == 0 && LowPage(t, pt, vpn) == 0)
  {
    hide Tree, I2, I1, I0, PageOf, Flags, IsValid;
    TreeAt(t, o, p, Index(vpn, level));
    EntryValues(t[p][Index(vpn, level)], p);
  }

  lemma TreeAt(t: Tables, o: Owners, p: nat, i: nat)
    requires Tree(t, o) && p in t && i < NPTE
    ensures |t[p]| == NPTE && p in o && Reached(t, o, p) && EntryOk(o, o[p], p, i, Entry(t, p, i))
  {
  }

  lemma EntryValues(e: nat, p: nat)
    ensures !IsValid(0) && PageOf(0) == 0 && PageOf(p * 1024 + PTE_V) == p
    ensures Flags(e) == PTE_V ==> IsValid(e)
  {
    SameParity(e / 1024, e % 1024);
  }

  // ----- storing and clearing entries -----

  lemma MapInv(t: Tables, d: Data, l: seq<nat>, o: Owners, f: Flat, pt: nat, vpn: nat, e: nat)
    requires Inv(t, d, l, o, f) && pt in f && vpn < MAXVPN && LowPage(t, pt, vpn) != 0
    requires vpn !in f[pt] && IsValid(e)
    requires vpn < USERTOP ==> OwnedAs(o, PageOf(e), Held)
    ensures LowPage(t, pt, vpn) in t && |t[LowPage(t, pt, vpn)]| == NPTE
    ensures Inv(Put(t, LowPage(t, pt, vpn), I0(vpn), e), d, l,
                MappedOwners(o, pt, vpn, PageOf(e)), Mapped(f, pt, vpn, e))
  {
    hide Tree, Represents, Leaves;
    StoreLeaf(t, o, f, pt, vpn, e);
    MapLeaf(f, o, pt, vpn, e);
    var t', o' := Put(t, LowPage(t, pt, vpn), I0(vpn), e), MappedOwners(o, pt, vpn, PageOf(e));
    TreeFrame(t', o, o');
    RootsFrame(t', o, o', Mapped(f, pt, vpn, e));
  }

  lemma HeldPages(l: seq<nat>, d: Data, o: Owners, p: nat)
    requires PagesOk(l, d, o) && p in o && o[p].Leaf?
    ensures PagesOk(l, d, o[p := Held])
  {
  }

  lemma UnmapInv(t: Tables, d: Data, l: seq<nat>, o: Owners, f: Flat, pt: nat, vpn: nat)
    requires Inv(t, d, l, o, f) && pt in f && vpn < MAXVPN && LowPage(t, pt, vpn) != 0 && vpn in f[pt]
    ensures LowPage(t, pt, vpn) in t && |t[LowPage(t, pt, vpn)]| == NPTE
    ensures var p := PageOf(f[pt][vpn]);
      && Inv(Put(t, LowPage(t, pt, vpn), I0(vpn), 0), d, l,
             if vpn < USERTOP then o[p := Held] else o, Unmapped(f, pt, vpn))
      && (vpn < USERTOP ==> OwnedAs(o, p, Leaf(pt, vpn)))
  {
    hide Tree, Represents, Leaves, PagesOk;
    StoreLeaf(t, o, f, pt, vpn, 0);
    UnmapLeaf(f, o, pt, vpn, Held);
    var p := PageOf(f[pt][vpn]);
    if vpn < USERTOP {
      LeafOwner(t, d, l, o, f, pt, vpn);
      HeldPages(l, d, o, p);
    }
    var t' := Put(t, LowPage(t, pt, vpn), I0(vpn), 0);
    var o' := if vpn < USERTOP then o[p := Held] else o;
    TreeFrame(t', o, o');
    RootsFrame(t', o, o', Unmapped(f, pt, vpn));
  }

  lemma SlotEntry(t: Tables, d: Data, l: seq<nat>, o: Owners, f: Flat, pt: nat, vpn: nat)
    requires Inv(t, d, l, o, f) && pt in f && vpn < MAXVPN && LowPage(t, pt, vpn) != 0
    ensures LowPage(t, pt, vpn) in t && |t[LowPage(t, pt, vpn)]| == NPTE
    ensures t[LowPage(t, pt, vpn)][I0(vpn)] == Look(f, pt, vpn)
    ensures IsValid(Look(f, pt, vpn)) <==> vpn in f[pt]
  {
    hide Tree, Leaves, PagesOk;
    LowOwner(t, o, pt, vpn);
  }

  // ----- who may change hands -----

  /** Free pages became tables of pt, and held pages page.. became pt's pages vpn..; nothing else changed. */
  predicate Took(o: Owners, o': Owners, pt: nat, vpn: nat, page: nat, n: nat) {
    && o'.Keys == o.Keys
    && forall p :: p in o && o'[p] != o[p] ==>
         || (o[p].Free? && (o'[p].Mid? || o'[p].Low?) && o'[p].pt == pt)
         || (page <= p < page + n && o[p].Held? && o'[p] == Leaf(pt, vpn + (p - page)))
  }

  lemma TookHeld(o: Owners, o': Owners, pt: nat, vpn: nat, page: nat, n: nat, p: nat)
    requires Took(o, o', pt, vpn, page, n) && !(page <= p < page + n)
    ensures OwnedAs(o, p, Held) <==> OwnedAs(o', p, Held)
  {
  }

  lemma TookJoin(o: Owners, o': Owners, o'': Owners, pt: nat, vpn: nat, page: nat, n: nat, vpn': nat, page': nat,
                 n': nat)
    requires Took(o, o', pt, vpn, page, n) && Took(o', o'', pt, vpn', page', n')
    requires n' > 0 ==> page' == page + n && vpn' == vpn + n
    ensures Took(o, o'', pt, vpn, page, n + n')
  {
  }

  function MappedRange(f: Flat, pt: nat, vpn: nat, page: nat, n: nat, perm: nat): (f': Flat)
    requires pt in f && perm < 1024
    ensures pt in f'
  {
    if n == 0 then f
    else Mapped(MappedRange(f, pt, vpn, page, n - 1, perm), pt, vpn + n - 1, MakePte(page + n - 1, perm))
  }

  lemma NothingMapped(f: Flat, o: Owners, pt: nat, vpn: nat, page: nat, perm: nat)
    requires pt in f && perm < 1024
    ensures MappedRange(f, pt, vpn, page, 0, perm) == f && Took(o, o, pt, vpn, page, 0)
  {
  }

  lemma MappedRangeNext(f: Flat, pt: nat, vpn: nat, page: nat, n: nat, perm: nat)
    requires pt in f && perm < 1024
    ensures MappedRange(f, pt, vpn, page, n + 1, perm) ==
            Mapped(MappedRange(f, pt, vpn, page, n, perm), pt, vpn + n, MakePte(page + n, perm))
  {
  }

  /** The recursive form, entry by entry. */
  lemma {:induction false} MappedRangeLook(f: Flat, pt: nat, vpn: nat, page: nat, n: nat, perm: nat, pt': nat, v: nat)
    requires pt in f && perm < 1024
    ensures MappedRange(f, pt, vpn, page, n, perm).Keys == f.Keys
    ensures pt' in f ==>
      (v in MappedRange(f, pt, vpn, page, n, perm)[pt'] <==> v in f[pt'] || (pt' == pt && vpn <= v < vpn + n))
    ensures Look(MappedRange(f, pt, vpn, page, n, perm), pt', v) ==
            if pt' == pt && vpn <= v < vpn + n then MakePte(page + (v - vpn), perm) else Look(f, pt', v)
  {
    if n > 0 {
      MappedRangeLook(f, pt, vpn, page, n - 1, perm, pt', v);
    }
  }

  function UnmappedRange(f: Flat, pt: nat, vpn: nat, n: nat): (f': Flat)
    requires pt in f
  {
    var m: map<nat, nat> := map v | v in f[pt] && !(vpn <= v < vpn + n) :: f[pt][v];
    f[pt := m]
  }

  lemma UnmappedNone(f: Flat, pt: nat, vpn: nat, n: nat)
    requires pt in f && forall v :: vpn <= v < vpn + n ==> v !in f[pt]
    ensures UnmappedRange(f, pt, vpn, n) == f
  {
    assert UnmappedRange(f, pt, vpn, n)[pt] == f[pt];
  }

  lemma UnmappedNext(f: Flat, pt: nat, vpn: nat, n: nat)
    requires pt in f
    ensures var g := UnmappedRange(f, pt, vpn, n);
      && pt in g && (vpn + n in g[pt] <==> vpn + n in f[pt])
      && UnmappedRange(f, pt, vpn, n + 1) == if vpn + n in f[pt] then Unmapped(g, pt, vpn + n) else g
  {
    var g := UnmappedRange(f, pt, vpn, n);
    var h := UnmappedRange(f, pt, vpn, n + 1);
    assert h[pt] == if vpn + n in f[pt] then Unmapped(g, pt, vpn + n)[pt] else g[pt];
  }

  /** Pages of pt were given up, to the free list or to the caller. */
  predicate Gave(o: Owners, o': Owners, pt: nat, free: bool) {
    && o'.Keys == o.Keys
    && forall p :: p in o && o'[p] != o[p] ==> o[p].Leaf? && o[p].pt == pt && o'[p] == if free then Free else Held
  }

  lemma NothingUnmapped(f: Flat, o: Owners, pt: nat, vpn: nat, free: bool)
    requires pt in f
    ensures UnmappedRange(f, pt, vpn, 0) == f && Gave(o, o, pt, free)
  {
    UnmappedNone(f, pt, vpn, 0);
  }

  lemma GaveJoin(o: Owners, o': Owners, o'': Owners, pt: nat, free: bool)
    requires Gave(o, o', pt, free) && Gave(o', o'', pt, free)
    ensures Gave(o, o'', pt, free)
  {
  }

  predicate Kept(d: Data, d': Data) {
    forall p :: p in d' ==> p in d && d'[p] == d[p]
  }

  predicate Mine(who: Owner, pt: nat) {
    who.Free? || ((who.Mid? || who.Low? || who.Leaf?) && who.pt == pt)
  }

  /** Pages went only between the free list and the address space pt. */
  predicate Only(o: Owners, o': Owners, pt: nat) {
    o'.Keys == o.Keys && forall p :: p in o && o'[p] != o[p] ==> Mine(o[p], pt) && Mine(o'[p], pt)
  }

  lemma OnlyJoin(o: Owners, o': Owners, o'': Owners, pt: nat)
    requires Only(o, o', pt) && Only(o', o'', pt)
    ensures Only(o, o'', pt)
  {
  }

  lemma GaveOnly(o: Owners, o': Owners, pt: nat)
    requires Gave(o, o', pt, true)
    ensures Only(o, o', pt)
  {
  }

  /** Taking a free page p and then mapping it, or failing to and giving it back. */
  lemma FreshOnly(o: Owners, o': Owners, pt: nat, vpn: nat, p: nat, n: nat)
    requires OwnedAs(o, p, Free) && Took(o[p := Held], o', pt, vpn, p, n) && n <= 1
    requires n == 1 ==> OwnedAs(o', p, Leaf(pt, vpn))
    ensures if n == 1 then Only(o, o', pt) else Only(o, o'[p := Free], pt) && OwnedAs(o', p, Held)
  {
  }

  lemma OnlyRefl(o: Owners, pt: nat)
    ensures Only(o, o, pt)
  {
  }

  lemma MappedHere(f: Flat, pt: nat, vpn: nat, e: nat)
    requires pt in f
    ensures pt in Mapped(f, pt, vpn, e) && vpn in Mapped(f, pt, vpn, e)[pt] && Mapped(f, pt, vpn, e)[pt][vpn] == e
  {
  }

  lemma KeysBelow(t: Tables, d: Data, l: seq<nat>, o: Owners, f: Flat, pt: nat, vpn: nat)
    requires Inv(t, d, l, o, f) && pt in f && vpn in f[pt]
    ensures vpn < MAXVPN && IsValid(f[pt][vpn])
  {
  }

  lemma LeafBelow(t: Tables, d: Data, l: seq<nat>, o: Owners, f: Flat, p: nat)
    requires Inv(t, d, l, o, f) && p in o && o[p].Leaf?
    ensures o[p].vpn < USERTOP
  {
  }

  lemma InvTree(t: Tables, d: Data, l: seq<nat>, o: Owners, f: Flat)
    requires Inv(t, d, l, o, f)
    ensures Tree(t, o)
  {
  }

  lemma GaveNone(o: Owners, pt: nat)
    ensures Gave(o, o, pt, true)
  {
  }

  lemma SameKeys(t: Tables, d: Data, l: seq<nat>, o: Owners, t': Tables, d': Data, l': seq<nat>, f: Flat)
    requires Inv(t, d, l, o, f) && Inv(t', d', l', o, f) && Kept(d, d')
    ensures d' == d
  {
    hide Tree, Represents, Leaves, FreeOk;
  }

  lemma RefillInv(t: Tables, d: Data, l: seq<nat>, o: Owners, f: Flat, p: nat, page: Page)
    requires Inv(t, d, l, o, f) && p in o && HasData(o[p])
    ensures p in d && Inv(t, d[p := page], l, o, f)
  {
    hide Tree, Represents, Leaves;
  }

  lemma LeafOwner(t: Tables, d: Data, l: seq<nat>, o: Owners, f: Flat, pt: nat, vpn: nat)
    requires Inv(t, d, l, o, f) && pt in f && vpn in f[pt] && vpn < USERTOP
    ensures OwnedAs(o, PageOf(f[pt][vpn]), Leaf(pt, vpn)) && PageOf(f[pt][vpn]) in d
  {
  }

  // ----- growing and copying an address space -----

  /** PGROUNDUP(sz) / PGSIZE. */
  function Up(sz: nat): nat {
    (sz + PGSIZE - 1) / PGSIZE
  }

  ghost predicate Extended(f: Flat, f': Flat, pt: nat)
    requires pt in f
  {
    && f'.Keys == f.Keys
    && (forall q :: q in f && q != pt ==> f'[q] == f[q])
    && (forall v :: v in f[pt] ==> v in f'[pt] && f'[pt][v] == f[pt][v])
  }

  /** Exactly the pages lo..hi were added, each with these flags and its own zeroed page. */
  ghost predicate Zeroed(f: Flat, f': Flat, d': Data, pt: nat, lo: nat, hi: nat, flags: nat)
    requires pt in f
  {
    && Extended(f, f', pt)
    && (forall v :: v in f'[pt] ==> v in f[pt] || lo <= v < hi)
    && (forall v :: lo <= v < hi ==>
          v in f'[pt] && Flags(f'[pt][v]) == flags && PageOf(f'[pt][v]) in d' && d'[PageOf(f'[pt][v])] == Fill(0))
  }

  lemma ZeroedStart(f: Flat, d: Data, pt: nat, lo: nat, flags: nat)
    requires pt in f
    ensures Zeroed(f, f, d, pt, lo, lo, flags)
  {
  }

  lemma ZeroedNext(f: Flat, f': Flat, d': Data, pt: nat, lo: nat, hi: nat, perm: nat, p: nat)
    requires pt in f && perm < 1024 && perm % 2 == 0 && lo <= hi
    requires Zeroed(f, f', d', pt, lo, hi, perm + 1) && hi !in f'[pt] && p !in d'
    ensures Zeroed(f, Mapped(f', pt, hi, MakePte(p, perm)), d'[p := Fill(0)], pt, lo, hi + 1, perm + 1)
  {
    hide PageTable.MakePte, Fill;
  }

  /** Removing what was added gives the address spaces back as they were. */
  lemma ExtendedUndo(f: Flat, f': Flat, pt: nat, lo: nat, n: nat)
    requires pt in f && Extended(f, f', pt)
    requires forall v :: v in f'[pt] ==> v in f[pt] || lo <= v < lo + n
    requires forall v :: lo <= v < lo + n ==> v !in f[pt]
    ensures UnmappedRange(f', pt, lo, n) == f
  {
    assert UnmappedRange(f', pt, lo, n)[pt] == f[pt];
  }

  lemma ZeroedUndo(f: Flat, f': Flat, d': Data, pt: nat, lo: nat, hi: nat, flags: nat, top: nat)
    requires pt in f && lo <= hi < top && Zeroed(f, f', d', pt, lo, hi, flags)
    requires forall v :: lo <= v < top ==> v !in f[pt]
    ensures UnmappedRange(f', pt, lo, hi - lo) == f && f'.Keys == f.Keys && hi !in f'[pt]
    ensures lo == hi ==> f' == f
  {
    ExtendedUndo(f, f', pt, lo, hi - lo);
    if lo == hi {
      UnmappedNone(f', pt, lo, 0);
    }
  }

  lemma SameData(t: Tables, d: Data, l: seq<nat>, o: Owners, t': Tables, d': Data, l': seq<nat>, o': Owners,
                 f: Flat, pt: nat, d1: Data)
    requires Inv(t, d, l, o, f) && Inv(t', d', l', o', f) && Only(o, o', pt)
    requires Kept(d1, d) && Kept(d1, d')
    ensures d' == d
  {
    hide Tree, Represents, FreeOk;
    forall p
      ensures p in d <==> p in d'
    {
    }
  }

  /** Below k the child maps what the parent maps, with the same flags, in pages with the same contents. */
  ghost predicate Copied(f: Flat, f': Flat, d: Data, d': Data, parent: nat, child: nat, k: nat)
    requires parent in f && child in f
  {
    && Extended(f, f', child)
    && (forall v :: v in f'[child] ==> v in f[child] || (v < k && v in f[parent]))
    && (forall v :: v in f[parent] && v < k ==>
          && v in f'[child] && Flags(f'[child][v]) == Flags(f[parent][v])
          && PageOf(f'[child][v]) in d' && PageOf(f[parent][v]) in d
          && d'[PageOf(f'[child][v])] == d[PageOf(f[parent][v])])
  }

  lemma CopiedStart(f: Flat, d: Data, parent: nat, child: nat)
    requires parent in f && child in f
    ensures Copied(f, f, d, d, parent, child, 0)
  {
  }

  lemma CopiedFacts(f: Flat, f': Flat, d: Data, d': Data, parent: nat, child: nat, k: nat, top: nat)
    requires parent in f && child in f && parent != child && k < top && Copied(f, f', d, d', parent, child, k)
    requires forall v :: 0 <= v < top ==> v !in f[child]
    ensures f'.Keys == f.Keys && f'[parent] == f[parent] && k !in f'[child]
    ensures UnmappedRange(f', child, 0, k) == f
    ensures k !in f[parent] ==> Copied(f, f', d, d', parent, child, k + 1)
  {
    ExtendedUndo(f, f', child, 0, k);
  }

  lemma CopiedNext(f: Flat, f': Flat, d: Data, d': Data, parent: nat, child: nat, k: nat, p: nat)
    requires parent in f && child in f && parent != child
    requires Copied(f, f', d, d', parent, child, k) && k in f[parent] && k !in f'[child] && p !in d'
    requires PageOf(f[parent][k]) in d && IsValid(f[parent][k])
    ensures Copied(f, Mapped(f', child, k, MakePte(p, Flags(f[parent][k]))), d,
                   d'[p := d[PageOf(f[parent][k])]], parent, child, k + 1)
  {
    hide PageTable.MakePte, PageTable.Flags, PageTable.PageOf, PageTable.IsValid;
    KeepsFlags(f[parent][k], p);
  }

  lemma KeepsFlags(e: nat, p: nat)
    requires IsValid(e)
    ensures Flags(e) < 1024 && Flags(MakePte(p, Flags(e))) == Flags(e)
  {
    hide PageTable.MakePte, PageTable.PageOf;
    SameParity(e / 1024, e % 1024);
  }

  lemma SameParity(q: nat, r: nat)
    ensures (1024 * q + r) % 2 == r % 2
  {
    assert 1024 * q + r == 2 * (512 * q) + r;
  }

  // ----- what user memory reads as -----

  /** The byte at va of address space pt; a page not yet allocated reads as zeros. */
  function UserByte(f: Flat, d: Data, pt: nat, va: nat): byte {
    var e := Look(f, pt, va / PGSIZE);
    if IsValid(e) && PageOf(e) in d then d[PageOf(e)][va % PGSIZE] else 0
  }

  /** Bytes dst.. of pt now read as src, and every other byte of every address space as before. */
  ghost predicate Wrote(f: Flat, d: Data, f': Flat, d': Data, pt: nat, dst: nat, src: seq<byte>) {
    forall q, va :: q in f && 0 <= va && va / PGSIZE < USERTOP ==>
      UserByte(f', d', q, va) ==
      if q == pt && dst <= va < dst + |src| then src[va - dst] else UserByte(f, d, q, va)
  }

  /** The user pages of pt lie below sz, and the two pages above TRAPFRAME are not the user's. */
  ghost predicate Space(f: Flat, pt: nat, sz: nat) {
    && pt in f && Up(sz) <= USERTOP
    && forall v :: v in f[pt] ==> if v < USERTOP then v < Up(sz) else !HasFlag(f[pt][v], PTE_U)
  }

  /** Pages copyin (and, with write, copyout) will not touch. */
  predicate Refused(f: Flat, pt: nat, sz: nat, v: nat, write: bool) {
    if pt in f && v in f[pt] then !HasFlag(f[pt][v], PTE_U) || (write && !HasFlag(f[pt][v], PTE_W))
      else v * PGSIZE >= sz
  }

  const LAZY: nat := PTE_R + PTE_W + PTE_U

  lemma OddQuarter(h: nat)
    ensures HasFlag(4 * (2 * h + 1) + 3, PTE_W)
  {
    assert (4 * (2 * h + 1) + 3) / 4 == 2 * h + 1;
  }

  lemma OddSixteenth(h: nat)
    ensures HasFlag(16 * (2 * h + 1) + 7, PTE_U)
  {
    assert (16 * (2 * h + 1) + 7) / 16 == 2 * h + 1;
  }

  lemma LazyFlags(p: nat)
    ensures HasFlag(MakePte(p, LAZY), PTE_W) && HasFlag(MakePte(p, LAZY), PTE_U)
  {
    hide HasFlag, PageTable.PageOf, PageTable.Flags, PageTable.IsValid;
    OddQuarter(128 * p + 2);
    OddSixteenth(32 * p);
  }

  /** Allocating an unallocated page with zeros is invisible. */
  lemma FaultView(t: Tables, d: Data, l: seq<nat>, o: Owners, f: Flat, pt: nat, vpn: nat, p: nat)
    requires Inv(t, d, l, o, f) && pt in f && vpn !in f[pt] && p !in d
    ensures Wrote(f, d, Mapped(f, pt, vpn, MakePte(p, LAZY)), d[p := Fill(0)], pt, 0, [])
  {
    hide Tree, Represents, PagesOk, PageTable.MakePte;
    var f', d' := Mapped(f, pt, vpn, MakePte(p, LAZY)), d[p := Fill(0)];
    forall q, va | q in f && 0 <= va && va / PGSIZE < USERTOP
      ensures UserByte(f', d', q, va) == UserByte(f, d, q, va)
    {
      if va / PGSIZE in f[q] {
        LeafOwner(t, d, l, o, f, q, va / PGSIZE);
      }
    }
  }

  function Splice(page: Page, off: nat, bytes: seq<byte>): (r: Page)
    requires off + |bytes| <= PGSIZE
  {
    page[..off] + bytes + page[off + |bytes|..]
  }

  /** A page is mapped once, so storing into it changes one address space, one range. */
  lemma StoreView(t: Tables, d: Data, l: seq<nat>, o: Owners, f: Flat, pt: nat, va: nat, bytes: seq<byte>)
    requires Inv(t, d, l, o, f) && pt in f && va / PGSIZE in f[pt] && va / PGSIZE < USERTOP
    requires va % PGSIZE + |bytes| <= PGSIZE
    requires IsValid(f[pt][va / PGSIZE]) && PageOf(f[pt][va / PGSIZE]) in d
    ensures var p := PageOf(f[pt][va / PGSIZE]);
      Wrote(f, d, f, d[p := Splice(d[p], va % PGSIZE, bytes)], pt, va, bytes)
  {
    hide Tree, Represents, PagesOk;
    var p := PageOf(f[pt][va / PGSIZE]);
    var d' := d[p := Splice(d[p], va % PGSIZE, bytes)];
    forall q, x | q in f && 0 <= x && x / PGSIZE < USERTOP
      ensures UserByte(f, d', q, x) == if q == pt && va <= x < va + |bytes| then bytes[x - va] else UserByte(f, d, q, x)
    {
      if x / PGSIZE in f[q] {
        LeafOwner(t, d, l, o, f, q, x / PGSIZE);
        LeafOwner(t, d, l, o, f, pt, va / PGSIZE);
      }
    }
  }

  lemma WroteNothing(f: Flat, d: Data, pt: nat)
    ensures Wrote(f, d, f, d, pt, 0, [])
  {
  }

  lemma WroteEmpty(f: Flat, d: Data, f': Flat, d': Data, pt: nat, dst: nat, src: seq<byte>)
    requires Wrote(f, d, f', d', pt, 0, [])
    ensures Wrote(f, d, f', d', pt, dst, src[..0])
  {
  }

  lemma WroteMore(f: Flat, d: Data, f1: Flat, d1: Data, f2: Flat, d2: Data, pt: nat, dst: nat, src: seq<byte>, n: nat,
                  k: nat)
    requires f1.Keys == f.Keys && n + k <= |src|
    requires Wrote(f, d, f1, d1, pt, dst, src[..n]) && Wrote(f1, d1, f2, d2, pt, dst + n, src[n..n + k])
    ensures Wrote(f, d, f2, d2, pt, dst, src[..n + k])
  {
    forall q, va | q in f && 0 <= va && va / PGSIZE < USERTOP
      ensures UserByte(f2, d2, q, va) ==
              if q == pt && dst <= va < dst + n + k then src[va - dst] else UserByte(f, d, q, va)
    {
    }
  }

  lemma LazyKeepsRefused(f: Flat, pt: nat, sz: nat, vpn: nat, p: nat)
    requires pt in f && vpn !in f[pt] && vpn * PGSIZE < sz
    ensures forall v, w :: Refused(Mapped(f, pt, vpn, MakePte(p, LAZY)), pt, sz, v, w) <==> Refused(f, pt, sz, v, w)
  {
    LazyFlags(p);
  }

  /** What a copy of n bytes at va got to see: everything, or all up to a refused page or exhausted memory. */
  ghost predicate Progress(f: Flat, pt: nat, sz: nat, va: nat, len: nat, done: nat, write: bool, ok: bool, spare: nat) {
    && (forall x :: va <= x < va + done ==> !Refused(f, pt, sz, x / PGSIZE, write))
    && if ok then done == len else done < len && (Refused(f, pt, sz, (va + done) / PGSIZE, write) || spare <= 1)
  }

  function ChunkAt(va: nat, len: nat): (n: nat)
    requires len > 0
    ensures 0 < n <= len && va % PGSIZE + n <= PGSIZE
    ensures n == len || (va + n) % PGSIZE == 0
    ensures forall x :: va <= x < va + n ==> x / PGSIZE == va / PGSIZE
  {
    if PGSIZE - va % PGSIZE > len then len else PGSIZE - va % PGSIZE
  }

  function ReadBytes(f: Flat, d: Data, pt: nat, va: nat, n: nat): (r: seq<byte>)
    ensures |r| == n
  {
    seq<byte>(n, i requires 0 <= i < n => UserByte(f, d, pt, va + i))
  }

  /** Within one page of pt, the bytes of user memory are a slice of its data page. */
  lemma ReadChunk(f: Flat, d: Data, pt: nat, va: nat, n: nat)
    requires va % PGSIZE + n <= PGSIZE && IsValid(Look(f, pt, va / PGSIZE)) && PageOf(Look(f, pt, va / PGSIZE)) in d
    ensures ReadBytes(f, d, pt, va, n) == d[PageOf(Look(f, pt, va / PGSIZE))][va % PGSIZE..va % PGSIZE + n]
  {
    var page := d[PageOf(Look(f, pt, va / PGSIZE))];
    forall i | 0 <= i < n
      ensures ReadBytes(f, d, pt, va, n)[i] == page[va % PGSIZE + i]
    {
      assert (va + i) / PGSIZE == va / PGSIZE && (va + i) % PGSIZE == va % PGSIZE + i;
      assert UserByte(f, d, pt, va + i) == page[va % PGSIZE + i];
    }
  }

  lemma ReadJoin(f: Flat, d: Data, f': Flat, d': Data, pt: nat, va: nat, n: nat, k: nat)
    requires pt in f && Wrote(f, d, f', d', pt, 0, [])
    requires k > 0 ==> (va + n + k - 1) / PGSIZE < USERTOP
    ensures ReadBytes(f, d, pt, va, n) + ReadBytes(f', d', pt, va + n, k) == ReadBytes(f, d, pt, va, n + k)
  {
    var a, b, c := ReadBytes(f, d, pt, va, n), ReadBytes(f', d', pt, va + n, k), ReadBytes(f, d, pt, va, n + k);
    forall i | 0 <= i < n + k
      ensures (a + b)[i] == c[i]
    {
      if i >= n {
        assert (va + i) / PGSIZE <= (va + n + k - 1) / PGSIZE;
        assert b[i - n] == UserByte(f', d', pt, va + i);
      }
    }
  }

  /** After fork the child reads what the parent reads, and the parent what it read. */
  lemma CopiedView(t: Tables, d: Data, l: seq<nat>, o: Owners, f: Flat, t': Tables, d': Data, l': seq<nat>, o': Owners,
                   f': Flat, parent: nat, child: nat, sz: nat, va: nat)
    requires Inv(t, d, l, o, f) && Inv(t', d', l', o', f') && parent in f && child in f && parent != child
    requires Copied(f, f', d, d', parent, child, Up(sz)) && Kept(d', d) && Up(sz) <= USERTOP && va < sz
    requires forall v :: 0 <= v < Up(sz) ==> v !in f[child]
    ensures UserByte(f', d', child, va) == UserByte(f, d, parent, va) == UserByte(f', d', parent, va)
  {
    hide Tree, PagesOk, Leaves;
    assert va / PGSIZE < Up(sz);
    if va / PGSIZE in f[parent] {
      assert IsValid(f[parent][va / PGSIZE]) && IsValid(f'[child][va / PGSIZE]);
    }
  }

  /** Growing eagerly is as invisible to reads as growing lazily. */
  lemma ZeroedView(t: Tables, d: Data, l: seq<nat>, o: Owners, f: Flat, f': Flat, d': Data, pt: nat, lo: nat, hi: nat,
                   flags: nat)
    requires Inv(t, d, l, o, f) && pt in f && Zeroed(f, f', d', pt, lo, hi, flags) && Kept(d', d)
    requires forall v :: lo <= v < hi ==> v !in f[pt]
    ensures Wrote(f, d, f', d', pt, 0, [])
  {
    hide Tree, PagesOk, Represents;
    forall q, va | q in f && 0 <= va && va / PGSIZE < USERTOP
      ensures UserByte(f', d', q, va) == UserByte(f, d, q, va)
    {
      if va / PGSIZE in f[q] {
        LeafOwner(t, d, l, o, f, q, va / PGSIZE);
      }
    }
  }

  /** Bytes in pages lo..hi of pt read as zero, every other byte of every address space as before. */
  ghost predicate Dropped(f: Flat, d: Data, f': Flat, d': Data, pt: nat, lo: nat, hi: nat) {
    forall q, va :: q in f && 0 <= va && va / PGSIZE < USERTOP ==>
      UserByte(f', d', q, va) == if q == pt && lo <= va / PGSIZE < hi then 0 else UserByte(f, d, q, va)
  }

  lemma WroteDropped(f: Flat, d: Data, f': Flat, d': Data, pt: nat, lo: nat, hi: nat)
    requires Wrote(f, d, f', d', pt, 0, []) && hi <= lo
    ensures Dropped(f, d, f', d', pt, lo, hi)
  {
  }

  lemma GrownSpace(f: Flat, f': Flat, d': Data, pt: nat, sz: nat, sz': nat, flags: nat)
    requires Space(f, pt, sz) && sz <= sz' && Up(sz') <= USERTOP && Zeroed(f, f', d', pt, Up(sz), Up(sz'), flags)
    ensures Space(f', pt, sz') && forall v :: Up(sz) <= v < Up(sz') ==> v in f'[pt]
  {
  }

  lemma ShrinkView(t: Tables, d: Data, l: seq<nat>, o: Owners, f: Flat, t': Tables, d': Data, l': seq<nat>, o': Owners,
                   pt: nat, lo: nat, hi: nat)
    requires Inv(t, d, l, o, f) && pt in f && lo <= hi && Kept(d, d')
    requires Inv(t', d', l', o', UnmappedRange(f, pt, lo, hi - lo))
    ensures Dropped(f, d, UnmappedRange(f, pt, lo, hi - lo), d', pt, lo, hi)
  {
    hide Inv;
    var f' := UnmappedRange(f, pt, lo, hi - lo);
    forall q, va | q in f && 0 <= va && va / PGSIZE < USERTOP
      ensures UserByte(f', d', q, va) == if q == pt && lo <= va / PGSIZE < hi then 0 else UserByte(f, d, q, va)
    {
      var v := va / PGSIZE;
      if v in f[q] {
        LeafOwner(t, d, l, o, f, q, v);
        if v in f'[q] {
          LeafOwner(t', d', l', o', f', q, v);
        }
      }
    }
  }

  // ----- creating and destroying an address space -----

  lemma NewRoot(t: Tables, d: Data, l: seq<nat>, o: Owners, f: Flat)
    requires Inv(t, d, l, o, f) && l != []
    ensures OwnedAs(o, l[0], Free) && l[0] !in f && l[0] !in d
    ensures Inv(t[l[0] := ZeroTable()], d, l[1..], o[l[0] := Root], f[l[0] := map[]])
  {
    hide Represents, Leaves, PagesOk, Tree;
    var p := l[0];
    TakePage(l, d, o, Root, Fill(0));
    NewRootTree(t, o, p);
    NewRootFlat(t, o, f, p);
    assert Leaves(f[p := map[]], o[p := Root]) by {
      LeavesFrame(f, o, o[p := Root]);
      LeavesNew(f, o[p := Root], p);
    }
  }

  lemma LeavesNew(f: Flat, o: Owners, p: nat)
    requires Leaves(f, o) && p !in f
    ensures Leaves(f[p := map[]], o)
  {
  }

  lemma NewRootTree(t: Tables, o: Owners, p: nat)
    requires Tree(t, o) && p in o && !IsTable(o[p])
    ensures Tree(t[p := ZeroTable()], o[p := Root])
  {
    var t', o' := t[p := ZeroTable()], o[p := Root];
    forall q, k | q in t' && 0 <= k < NPTE
      ensures EntryOk(o', o'[q], q, k, Entry(t', q, k))
    {
      assert q != p ==> EntryOk(o, o[q], q, k, Entry(t, q, k));
    }
    forall q | q in o'
      ensures q != 0 && Reached(t', o', q)
    {
      assert Reached(t, o, q);
      if o[q].Low? {
        assert EntryOk(o, o[o[q].pt], o[q].pt, o[q].i, Entry(t, o[q].pt, o[q].i));
      }
    }
  }

  /** A table that leaves and enters the tree with its own root is invisible to the other roots. */
  lemma OtherPte(t: Tables, o: Owners, t': Tables, q: nat, v: nat)
    requires Tree(t, o) && OwnedAs(o, q, Root)
    requires forall p :: p in o && (p == q || ((o[p].Mid? || o[p].Low?) && o[p].pt == q)) && p in t ==>
      p in t' && t'[p] == t[p]
    ensures Pte(t', q, v) == Pte(t, q, v)
  {
    var e2 := Entry(t, q, I2(v));
    assert EntryOk(o, o[q], q, I2(v), e2);
    if e2 != 0 {
      var m := PageOf(e2);
      assert EntryOk(o, o[m], m, I1(v), Entry(t, m, I1(v)));
    }
  }

  lemma NewRootFlat(t: Tables, o: Owners, f: Flat, p: nat)
    requires Tree(t, o) && Represents(t, o, f) && OwnedAs(o, p, Free)
    ensures p !in f && Represents(t[p := ZeroTable()], o[p := Root], f[p := map[]])
  {
    hide Pte;
    var t', o', f' := t[p := ZeroTable()], o[p := Root], f[p := map[]];
    assert p !in f;
    forall q, v | q in f' && 0 <= v < MAXVPN
      ensures Pte(t', q, v) == Look(f', q, v)
    {
      if q == p {
        EmptyRoot(t', p, v);
      } else {
        OtherPte(t, o, t', q, v);
      }
    }
  }

  lemma EmptyRoot(t: Tables, p: nat, v: nat)
    requires p in t && t[p] == ZeroTable()
    ensures Pte(t, p, v) == 0
  {
  }

  /** With no page mapped, the level-0 tables are empty: freewalk will not meet a leaf. */
  lemma EmptySpace(t: Tables, d: Data, l: seq<nat>, o: Owners, f: Flat, pt: nat)
    requires Inv(t, d, l, o, f) && pt in f && f[pt] == map[]
    ensures OwnedAs(o, pt, Root) && NoLeaves(t, o, pt)
  {
    hide Leaves, PagesOk, Tree, Pte, Vpn;
    assert OwnedAs(o, pt, Root);
    forall q | q in o && o[q].Low? && (q == pt || Under(o[q], pt, o[pt], NPTE))
      ensures Empty(t, q)
    {
      LowTable(t, o, q);
      forall k | 0 <= k < NPTE
        ensures t[q][k] == 0
      {
        LowEntry(t, o, q, k);
      }
    }
  }

  lemma LowTable(t: Tables, o: Owners, q: nat)
    requires Tree(t, o) && q in o && o[q].Low?
    ensures q in t && |t[q]| == NPTE && Reached(t, o, q) && q != 0
  {
  }

  /** Entry k of a level-0 table is what the walk finds for the page at that position. */
  lemma LowEntry(t: Tables, o: Owners, q: nat, k: nat)
    requires Tree(t, o) && q in o && o[q].Low? && k < NPTE
    ensures q in t && |t[q]| == NPTE && Vpn(o[q].i, o[q].j, k) < MAXVPN
    ensures Pte(t, o[q].pt, Vpn(o[q].i, o[q].j, k)) == t[q][k]
  {
    hide Tree, I2, I1, I0, Vpn, PageOf;
    LowTable(t, o, q);
    IndicesOfVpn(o[q].i, o[q].j, k);
    EntryValues(0, q);
  }

  lemma TableNoData(l: seq<nat>, d: Data, o0: Owners, o: Owners, p: nat, i: nat)
    requires PagesOk(l, d, o) && p in o0 && o == Freed(o0, p, i) && IsTable(o0[p])
    ensures p !in d && p in o && !o[p].Free?
  {
  }

  /** pt and every page that belonged to it are free; every other page is as it was. */
  predicate Destroyed(o: Owners, o': Owners, pt: nat) {
    && o'.Keys == o.Keys
    && forall p :: p in o ==> o'[p] == if p == pt || Mine(o[p], pt) then Free else o[p]
  }

  lemma GoneInv(t: Tables, d: Data, l: seq<nat>, o: Owners, f: Flat, pt: nat, t': Tables, l': seq<nat>, o': Owners)
    requires Inv(t, d, l, o, f) && pt in f && f[pt] == map[]
    requires OwnedAs(o, pt, Root) && Gone(t, o, t', o', pt) && PagesOk(l', d, o')
    ensures Inv(t', d, l', o', f - {pt}) && Destroyed(o, o', pt)
  {
    hide PagesOk, Tree, Represents, Leaves;
    GoneOwners(t, d, l, o, f, pt, t', o');
    assert Represents(t', o', f - {pt}) by {
      GoneFlat(t, o, f, pt, t', o');
    }
    assert Leaves(f - {pt}, o') by {
      GoneLeaves(f, o, pt, o');
    }
  }

  lemma GoneOwners(t: Tables, d: Data, l: seq<nat>, o: Owners, f: Flat, pt: nat, t': Tables, o': Owners)
    requires Inv(t, d, l, o, f) && pt in f && f[pt] == map[]
    requires OwnedAs(o, pt, Root) && Gone(t, o, t', o', pt)
    ensures Destroyed(o, o', pt)
  {
    hide PagesOk, Represents, TablesOk, Put;
    forall p | p in o
      ensures o'[p] == if p == pt || Mine(o[p], pt) then Free else o[p]
    {
      assert Reached(t, o, p);
    }
  }

  lemma GoneFlat(t: Tables, o: Owners, f: Flat, pt: nat, t': Tables, o': Owners)
    requires Tree(t, o) && Represents(t, o, f) && pt in f && OwnedAs(o, pt, Root)
    requires Gone(t, o, t', o', pt) && Destroyed(o, o', pt)
    ensures Represents(t', o', f - {pt})
  {
    hide Pte, Tree, Gone;
    GoneKeeps(t, o, pt, t', o');
    forall q, v | q in f - {pt} && 0 <= v < MAXVPN
      ensures Pte(t', q, v) == Look(f - {pt}, q, v)
    {
      assert OwnedAs(o, q, Root);
      OtherPte(t, o, t', q, v);
    }
  }

  lemma GoneKeeps(t: Tables, o: Owners, pt: nat, t': Tables, o': Owners)
    requires Tree(t, o) && OwnedAs(o, pt, Root) && Gone(t, o, t', o', pt) && Destroyed(o, o', pt)
    ensures forall p :: p in o && p != pt && IsTable(o[p]) && !Mine(o[p], pt) ==> p in t && p in t' && t'[p] == t[p]
  {
  }

  lemma GoneLeaves(f: Flat, o: Owners, pt: nat, o': Owners)
    requires Leaves(f, o) && pt in f && OwnedAs(o, pt, Root) && Destroyed(o, o', pt)
    ensures Leaves(f - {pt}, o')
  {
  }

  lemma DestroyedLater(o: Owners, o1: Owners, o2: Owners, pt: nat)
    requires Gave(o, o1, pt, true) && Destroyed(o1, o2, pt)
    ensures Destroyed(o, o2, pt)
  {
  }

  lemma NoOrphans(t: Tables, d: Data, l: seq<nat>, o: Owners, f: Flat, p: nat)
    requires Inv(t, d, l, o, f) && p in o && (o[p].Mid? || o[p].Low? || o[p].Leaf?)
    ensures o[p].pt in f
  {
    assert Reached(t, o, p);
  }

  /** Building an address space and destroying it again leaves every page's owner as it was. */
  lemma NeverBuilt(t: Tables, d: Data, l: seq<nat>, o: Owners, f: Flat, pt: nat, o1: Owners, o2: Owners, vpn: nat,
                   page: nat)
    requires Inv(t, d, l, o, f) && pt !in f && OwnedAs(o, pt, Free)
    requires Took(o[pt := Root], o1, pt, vpn, page, 0) && Destroyed(o1, o2, pt)
    ensures o2 == o
  {
    hide Inv;
    forall p | p in o
      ensures o2[p] == o[p]
    {
      if o[p].Mid? || o[p].Low? || o[p].Leaf? {
        NoOrphans(t, d, l, o, f, p);
      }
    }
  }

  const TRAMPOLINE: nat := USERTOP + 1
  const TRAPFRAME: nat := USERTOP

  lemma KernelFlags(p: nat)
    ensures !HasFlag(MakePte(p, PTE_R + PTE_X), PTE_U) && !HasFlag(MakePte(p, PTE_R + PTE_W), PTE_U)
  {
    assert MakePte(p, PTE_R + PTE_X) / PTE_U == p * 64;
    assert MakePte(p, PTE_R + PTE_W) / PTE_U == p * 64;
  }
}
