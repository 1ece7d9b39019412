/**
 Sv39 page tables (kernel/vm.c, kernel/riscv.h; section 4.4 of the RISC-V Privileged
 Architecture, version 20211203): the three-level tree of 512-entry tables, the flat map
 it stands for, and who owns each physical page. Pages are named by page number.
 */
module PageTable {

  const PGSIZE: nat := 4096
  const NPTE: nat := 512
  const MAXVPN: nat := 0x400_0000      // MAXVA / PGSIZE = 2^26
  const ROOTHALF: nat := 256           // root entries below MAXVA
  const USERTOP: nat := MAXVPN - 2     // page number of TRAPFRAME; TRAMPOLINE is the last page

  type Tables = map<nat, seq<nat>>     // page number of a page-table page -> its PTEs

  /** What each managed physical page is for; Held pages are out of the free list but in no user table. */
  datatype Owner =
    | Free
    | Held
    | Root
    | Mid(pt: nat, i: nat)
    | Low(pt: nat, i: nat, j: nat)
    | Leaf(pt: nat, vpn: nat)

  type Owners = map<nat, Owner>

  // ----- virtual addresses -----

  /** PX(level, va): the 9-bit index of the page-table level. */
  function PX(level: nat, va: nat): (i: nat)
    requires level <= 2
    ensures i < NPTE
  {
    (if level == 0 then va / 0x1000 else if level == 1 then va / 0x20_0000 else va / 0x4000_0000) % NPTE
  }

  function Vpn(a: nat, b: nat, c: nat): nat {
    0x4_0000 * a + 0x200 * b + c
  }

  function I2(vpn: nat): nat {
    vpn / 0x4_0000 % NPTE
  }

  function I1(vpn: nat): nat {
    vpn / 0x200 % NPTE
  }

  function I0(vpn: nat): nat {
    vpn % NPTE
  }

  lemma IndicesByPage(va: nat)
    ensures var vpn := va / PGSIZE;
      PX(2, va) == I2(vpn) && PX(1, va) == I1(vpn) && PX(0, va) == I0(vpn)
  {
  }

  lemma IndicesFixPage(vpn: nat)
    ensures vpn < MAXVPN ==> Vpn(I2(vpn), I1(vpn), I0(vpn)) == vpn
  {
    var upper := vpn / 0x200;
    assert vpn == 0x200 * upper + I0(vpn);
    assert vpn / 0x4_0000 == upper / 0x200;
    assert upper == 0x200 * (upper / 0x200) + upper % 0x200;
  }

  lemma IndicesOfVpn(a: nat, b: nat, c: nat)
    requires a < ROOTHALF && b < NPTE && c < NPTE
    ensures var vpn := Vpn(a, b, c);
      vpn < MAXVPN && I2(vpn) == a && I1(vpn) == b && I0(vpn) == c
  {
  }

  /** Two addresses below MAXVA in different pages differ in some index. */
  lemma DistinctSlots(va: nat, wa: nat)
    requires va / PGSIZE < MAXVPN && wa / PGSIZE < MAXVPN && va / PGSIZE != wa / PGSIZE
    ensures PX(2, va) != PX(2, wa) || PX(1, va) != PX(1, wa) || PX(0, va) != PX(0, wa)
  {
    IndicesByPage(va);
    IndicesByPage(wa);
    IndicesFixPage(va / PGSIZE);
    IndicesFixPage(wa / PGSIZE);
  }

  // ----- page-table entries: page number * 1024 + flags -----

  const PTE_V: nat := 1
  const PTE_R: nat := 2
  const PTE_W: nat := 4
  const PTE_X: nat := 8
  const PTE_U: nat := 16

  predicate IsValid(e: nat) {
    e % 2 == 1
  }

  function PageOf(e: nat): nat {
    e / 1024
  }

  function Flags(e: nat): nat {
    e % 1024
  }

  /** PA2PTE(pa) | perm | PTE_V. */
  function MakePte(page: nat, perm: nat): (e: nat)
    requires perm < 1024
    ensures IsValid(e) && PageOf(e) == page && Flags(e) == perm - perm % 2 + 1
  {
    page * 1024 + (perm - perm % 2 + 1)
  }

  predicate HasFlag(e: nat, flag: nat)
    requires flag > 0
  {
    e / flag % 2 == 1
  }

  // ----- the tree and the flat map it stands for -----

  function Entry(t: Tables, p: nat, i: nat): (e: nat) {
    if p in t && i < |t[p]| then t[p][i] else 0
  }

  function Put(t: Tables, p: nat, i: nat, e: nat): (t': Tables)
    requires p in t && i < |t[p]|
  {
    var row: seq<nat> := t[p][i := e];
    t[p := row]
  }

  function ZeroTable(): (row: seq<nat>)
    ensures |row| == NPTE
  {
    seq<nat>(NPTE, _ => 0)
  }

  /** The level-0 table covering vpn, or 0. */
  function LowPage(t: Tables, pt: nat, vpn: nat): (p: nat) {
    var e := Entry(t, pt, I2(vpn));
    if e == 0 then 0 else PageOf(Entry(t, PageOf(e), I1(vpn)))
  }

  /** What the three-level walk finds for page vpn: its entry, or 0. */
  function Pte(t: Tables, pt: nat, vpn: nat): (e: nat) {
    if LowPage(t, pt, vpn) == 0 then 0 else Entry(t, LowPage(t, pt, vpn), I0(vpn))
  }

  predicate IsTable(o: Owner) {
    o.Root? || o.Mid? || o.Low?
  }

  predicate OwnedAs(o: Owners, p: nat, who: Owner) {
    p != 0 && p in o && o[p] == who
  }

  /** The owner of the table that entry i of table p leads to. */
  function Child(who: Owner, p: nat, i: nat): (c: Owner)
    requires who.Root? || who.Mid?
  {
    if who.Root? then Mid(p, i) else Low(who.pt, who.i, i)
  }

  /** An interior entry: absent, or valid with no permission bits and its table owned by this position. */
  predicate EntryOk(o: Owners, who: Owner, p: nat, i: nat, e: nat) {
    who.Root? || who.Mid? ==> e == 0 || (Flags(e) == PTE_V && OwnedAs(o, PageOf(e), Child(who, p, i)))
  }

  predicate Shapes(t: Tables, o: Owners) {
    && (forall p :: p in t ==> p != 0 && p in o && IsTable(o[p]) && |t[p]| == NPTE)
    && (forall p :: p in o && IsTable(o[p]) ==> p in t)
  }

  predicate TablesOk(t: Tables, o: Owners) {
    Shapes(t, o) && forall p, i :: p in t && 0 <= i < NPTE ==> EntryOk(o, o[p], p, i, Entry(t, p, i))
  }

  /** Every table below the root is reached from where its owner says. */
  predicate Reached(t: Tables, o: Owners, p: nat)
    requires p in o
  {
    && (o[p].Mid? ==> o[p].i < ROOTHALF && OwnedAs(o, o[p].pt, Root) && Entry(t, o[p].pt, o[p].i) == p * 1024 + PTE_V)
    && (o[p].Low? ==>
          && o[p].i < ROOTHALF && o[p].j < NPTE && OwnedAs(o, o[p].pt, Root)
          && Entry(t, o[p].pt, o[p].i) != 0
          && Entry(t, PageOf(Entry(t, o[p].pt, o[p].i)), o[p].j) == p * 1024 + PTE_V)
  }

  predicate AllReached(t: Tables, o: Owners) {
    forall p :: p in o ==> p != 0 && Reached(t, o, p)
  }

  predicate Tree(t: Tables, o: Owners) {
    TablesOk(t, o) && AllReached(t, o)
  }

  lemma TreeFrame(t: Tables, o: Owners, o': Owners)
    requires Tree(t, o) && o'.Keys == o.Keys
    requires forall p :: p in o && o'[p] != o[p] ==> !IsTable(o[p]) && !IsTable(o'[p])
    ensures Tree(t, o')
  {
    forall p, i | p in t && 0 <= i < NPTE
      ensures EntryOk(o', o'[p], p, i, Entry(t, p, i))
    {
      assert EntryOk(o, o[p], p, i, Entry(t, p, i));
    }
    forall p | p in o'
      ensures p != 0 && Reached(t, o', p)
    {
      assert Reached(t, o, p);
    }
  }

  // ----- one slot per page -----

  lemma LowOwner(t: Tables, o: Owners, pt: nat, vpn: nat)
    requires Tree(t, o) && OwnedAs(o, pt, Root) && LowPage(t, pt, vpn) != 0
    ensures OwnedAs(o, LowPage(t, pt, vpn), Low(pt, I2(vpn), I1(vpn)))
    ensures LowPage(t, pt, vpn) in t && |t[LowPage(t, pt, vpn)]| == NPTE
    ensures Pte(t, pt, vpn) == t[LowPage(t, pt, vpn)][I0(vpn)]
  {
    var e2 := Entry(t, pt, I2(vpn));
    assert EntryOk(o, o[pt], pt, I2(vpn), e2);
    var m := PageOf(e2);
    var e1 := Entry(t, m, I1(vpn));
    assert EntryOk(o, o[m], m, I1(vpn), e1);
  }

  /** Storing e in the slot of (pt, vpn) changes what the walk finds there and nowhere else. */
  lemma StoreSlot(t: Tables, o: Owners, pt: nat, vpn: nat, e: nat, pt': nat, vpn': nat)
    requires Tree(t, o) && OwnedAs(o, pt, Root) && vpn < MAXVPN && LowPage(t, pt, vpn) != 0
    requires OwnedAs(o, pt', Root) && vpn' < MAXVPN
    requires LowPage(t, pt, vpn) in t && |t[LowPage(t, pt, vpn)]| == NPTE
    ensures var t' := Put(t, LowPage(t, pt, vpn), I0(vpn), e);
      Pte(t', pt', vpn') == if pt' == pt && vpn' == vpn then e else Pte(t, pt', vpn')
  {
    LowOwner(t, o, pt, vpn);
    var l := LowPage(t, pt, vpn);
    var t' := Put(t, l, I0(vpn), e);
    var e2 := Entry(t, pt', I2(vpn'));
    assert EntryOk(o, o[pt'], pt', I2(vpn'), e2);
    assert LowPage(t', pt', vpn') == LowPage(t, pt', vpn');
    if LowPage(t, pt', vpn') != 0 {
      LowOwner(t, o, pt', vpn');
      if LowPage(t, pt', vpn') == l {
        IndicesFixPage(vpn);
        IndicesFixPage(vpn');
      }
    }
  }

  lemma StoreTree(t: Tables, o: Owners, l: nat, i: nat, e: nat)
    requires Tree(t, o) && l in o && o[l].Low? && i < NPTE
    ensures l in t && |t[l]| == NPTE && Tree(Put(t, l, i, e), o)
  {
    var t' := Put(t, l, i, e);
    forall p, k | p in t' && 0 <= k < NPTE
      ensures EntryOk(o, o[p], p, k, Entry(t', p, k))
    {
      assert EntryOk(o, o[p], p, k, Entry(t, p, k));
    }
    forall p | p in o
      ensures p != 0 && Reached(t', o, p)
    {
      assert Reached(t, o, p);
      if o[p].Low? {
        assert EntryOk(o, o[o[p].pt], o[p].pt, o[p].i, Entry(t, o[p].pt, o[p].i));
      }
    }
  }

  // ----- growing the tree -----

  function WithTable(t: Tables, p: nat, i: nat, q: nat): (t': Tables)
    requires p in t && i < |t[p]| && q != p
  {
    Put(t[q := ZeroTable()], p, i, q * 1024 + PTE_V)
  }

  predicate CanGrow(t: Tables, o: Owners, p: nat, i: nat, q: nat) {
    && p in o && (o[p].Root? || o[p].Mid?) && i < (if o[p].Root? then ROOTHALF else NPTE)
    && p in t && |t[p]| == NPTE && t[p][i] == 0
    && q in o && !IsTable(o[q])
  }

  lemma EntryGrown(t: Tables, p: nat, i: nat, q: nat, r: nat, k: nat)
    requires p in t && |t[p]| == NPTE && i < NPTE && q != p
    ensures Entry(WithTable(t, p, i, q), r, k) ==
            if r == p && k == i then q * 1024 + PTE_V else if r == q then 0 else Entry(t, r, k)
  {
  }

  lemma GrowEntry(t: Tables, o: Owners, p: nat, i: nat, q: nat, r: nat, k: nat)
    requires Tree(t, o) && CanGrow(t, o, p, i, q) && k < NPTE && (r in t || r == q)
    ensures var o' := o[q := Child(o[p], p, i)];
      EntryOk(o', o'[r], r, k, Entry(WithTable(t, p, i, q), r, k))
  {
    hide Put, WithTable;
    EntryGrown(t, p, i, q, r, k);
    assert q != 0;
    if r != q {
      assert EntryOk(o, o[r], r, k, Entry(t, r, k));
    }
  }

  lemma GrowReached(t: Tables, o: Owners, p: nat, i: nat, q: nat, r: nat)
    requires Tree(t, o) && CanGrow(t, o, p, i, q) && r in o
    ensures r != 0 && Reached(WithTable(t, p, i, q), o[q := Child(o[p], p, i)], r)
  {
    hide Put, WithTable;
    assert Reached(t, o, r) && Reached(t, o, p);
    var c := if r == q then Child(o[p], p, i) else o[r];
    if c.Mid? {
      EntryGrown(t, p, i, q, c.pt, c.i);
    } else if c.Low? {
      var e := Entry(t, c.pt, c.i);
      assert EntryOk(o, o[c.pt], c.pt, c.i, e);
      EntryGrown(t, p, i, q, c.pt, c.i);
      EntryGrown(t, p, i, q, PageOf(e), c.j);
    }
  }

  lemma GrowShapes(t: Tables, o: Owners, p: nat, i: nat, q: nat)
    requires Shapes(t, o) && CanGrow(t, o, p, i, q) && q != 0
    ensures var t' := WithTable(t, p, i, q);
      Shapes(t', o[q := Child(o[p], p, i)]) && t'.Keys == t.Keys + {q} && t'.Keys <= o.Keys
  {
  }

  lemma GrowTree(t: Tables, o: Owners, p: nat, i: nat, q: nat)
    requires Tree(t, o) && CanGrow(t, o, p, i, q)
    ensures Tree(WithTable(t, p, i, q), o[q := Child(o[p], p, i)])
  {
    hide Entry, EntryOk, Reached, WithTable, Shapes;
    var t', o' := WithTable(t, p, i, q), o[q := Child(o[p], p, i)];
    GrowShapes(t, o, p, i, q);
    forall r, k | r in t' && 0 <= k < NPTE
      ensures EntryOk(o', o'[r], r, k, Entry(t', r, k))
    {
      GrowEntry(t, o, p, i, q, r, k);
    }
    forall r | r in o'
      ensures r != 0 && Reached(t', o', r)
    {
      GrowReached(t, o, p, i, q, r);
    }
  }

  /** A new, empty table changes nothing that any walk finds. */
  lemma GrowKeeps(t: Tables, o: Owners, p: nat, i: nat, q: nat, pt: nat, vpn: nat)
    requires Tree(t, o) && CanGrow(t, o, p, i, q) && OwnedAs(o, pt, Root)
    ensures Pte(WithTable(t, p, i, q), pt, vpn) == Pte(t, pt, vpn)
  {
    hide Put, WithTable;
    var e2 := Entry(t, pt, I2(vpn));
    assert EntryOk(o, o[pt], pt, I2(vpn), e2);
    EntryGrown(t, p, i, q, pt, I2(vpn));
    if e2 == 0 {
      EntryGrown(t, p, i, q, q, I1(vpn));
    } else {
      var m := PageOf(e2);
      var e1 := Entry(t, m, I1(vpn));
      assert EntryOk(o, o[m], m, I1(vpn), e1);
      EntryGrown(t, p, i, q, m, I1(vpn));
      EntryGrown(t, p, i, q, q, I0(vpn));
      EntryGrown(t, p, i, q, PageOf(e1), I0(vpn));
    }
  }

  // ----- taking a tree apart -----

  /** Tables reached through entries below i of table p, whose owner is pw. */
  predicate Under(who: Owner, p: nat, pw: Owner, i: nat) {
    || (pw.Root? && (who.Mid? || who.Low?) && who.pt == p && who.i < i)
    || (pw.Mid? && who.Low? && who.pt == pw.pt && who.i == pw.i && who.j < i)
  }

  /** The owners once everything below entries ..i of p is freed. */
  function Freed(o: Owners, p: nat, i: nat): (o': Owners)
    requires p in o
    ensures o'.Keys == o.Keys
  {
    map q | q in o :: if Under(o[q], p, o[p], i) then Free else o[q]
  }

  /** Tables changed only by losing what was freed, and by clearing entries ..i of p. */
  ghost predicate Pruned(t: Tables, t': Tables, o: Owners, p: nat, i: nat)
    requires p in o
  {
    && (forall q :: q in t' ==> q in t && (q != p ==> t'[q] == t[q]))
    && p in t && p in t' && |t[p]| == NPTE && |t'[p]| == NPTE
    && (forall k :: 0 <= k < NPTE ==> t'[p][k] == if k < i then 0 else t[p][k])
  }

  predicate Empty(t: Tables, p: nat) {
    p in t && |t[p]| == NPTE && forall k :: 0 <= k < NPTE ==> t[p][k] == 0
  }

  /** The table and index that point to table p. */
  function ParentOf(t: Tables, who: Owner): (r: (nat, nat)) {
    if who.Mid? then (who.pt, who.i)
    else if who.Low? then (PageOf(Entry(t, who.pt, who.i)), who.j)
    else (0, 0)
  }

  /** An empty table can go, once the entry that points to it is cleared. */
  lemma DropTable(t: Tables, o: Owners, p: nat)
    requires Tree(t, o) && p in o && (o[p].Mid? || o[p].Low?) && Empty(t, p)
    ensures var (r, i) := ParentOf(t, o[p]);
      && r != p && r in t && |t[r]| == NPTE && i < NPTE && t[r][i] == p * 1024 + PTE_V
      && Tree(Put(t - {p}, r, i, 0), o[p := Free])
  {
    hide ParentOf, Entry, EntryOk, Reached, Put, Shapes, Empty;
    DropParent(t, o, p);
    var (r, i) := ParentOf(t, o[p]);
    var t', o' := Put(t - {p}, r, i, 0), o[p := Free];
    DropShapes(t, o, p, r, i);
    forall q, k | q in t' && 0 <= k < NPTE
      ensures EntryOk(o', o'[q], q, k, Entry(t', q, k))
    {
      DropEntry(t, o, p, r, i, q, k);
    }
    forall q | q in o'
      ensures q != 0 && Reached(t', o', q)
    {
      DropReached(t, o, p, r, i, q);
    }
  }

  lemma DropParent(t: Tables, o: Owners, p: nat)
    requires Tree(t, o) && p in o && (o[p].Mid? || o[p].Low?)
    ensures var (r, i) := ParentOf(t, o[p]);
      r != p && r in t && |t[r]| == NPTE && i < NPTE && t[r][i] == p * 1024 + PTE_V
  {
    assert Reached(t, o, p);
    if o[p].Low? {
      assert EntryOk(o, o[o[p].pt], o[p].pt, o[p].i, Entry(t, o[p].pt, o[p].i));
    }
  }

  lemma DropShapes(t: Tables, o: Owners, p: nat, r: nat, i: nat)
    requires Shapes(t, o) && p in o && r != p && r in t && |t[r]| == NPTE && i < NPTE
    ensures var t' := Put(t - {p}, r, i, 0);
      Shapes(t', o[p := Free]) && t'.Keys == t.Keys - {p} && t'.Keys <= o.Keys
  {
  }

  lemma DropEntry(t: Tables, o: Owners, p: nat, r: nat, i: nat, q: nat, k: nat)
    requires Tree(t, o) && p in o && (o[p].Mid? || o[p].Low?) && (r, i) == ParentOf(t, o[p])
    requires r != p && r in t && |t[r]| == NPTE && i < NPTE
    requires q in t && q != p && k < NPTE
    ensures EntryOk(o[p := Free], o[q], q, k, Entry(Put(t - {p}, r, i, 0), q, k))
  {
    assert EntryOk(o, o[q], q, k, Entry(t, q, k));
    assert Reached(t, o, p) && Reached(t, o, q);
  }

  lemma EntryDropped(t: Tables, p: nat, r: nat, i: nat, q: nat, k: nat)
    requires r != p && r in t && |t[r]| == NPTE && i < NPTE
    ensures Entry(Put(t - {p}, r, i, 0), q, k) == if q == p || (q == r && k == i) then 0 else Entry(t, q, k)
  {
  }

  lemma DropReached(t: Tables, o: Owners, p: nat, r: nat, i: nat, q: nat)
    requires Tree(t, o) && p in o && (o[p].Mid? || o[p].Low?) && Empty(t, p) && (r, i) == ParentOf(t, o[p])
    requires r != p && r in t && |t[r]| == NPTE && i < NPTE
    requires q in o
    ensures q != 0 && Reached(Put(t - {p}, r, i, 0), o[p := Free], q)
  {
    hide Put;
    assert Reached(t, o, p) && Reached(t, o, q);
    if q != p && (o[q].Mid? || o[q].Low?) {
      var (a, k) := (o[q].pt, o[q].i);
      assert EntryOk(o, o[a], a, k, Entry(t, a, k));
      EntryDropped(t, p, r, i, a, k);
      if o[q].Low? {
        EntryDropped(t, p, r, i, PageOf(Entry(t, a, k)), o[q].j);
      }
    }
    if o[p].Low? {
      assert EntryOk(o, o[o[p].pt], o[p].pt, o[p].i, Entry(t, o[p].pt, o[p].i));
    }
  }

  lemma DropRoot(t: Tables, o: Owners, p: nat)
    requires Tree(t, o) && p in o && o[p].Root? && Empty(t, p)
    ensures Tree(t - {p}, o[p := Free])
  {
    var t', o' := t - {p}, o[p := Free];
    forall q, k | q in t' && 0 <= k < NPTE
      ensures EntryOk(o', o'[q], q, k, Entry(t', q, k))
    {
      assert EntryOk(o, o[q], q, k, Entry(t, q, k));
    }
    forall q | q in o'
      ensures q != 0 && Reached(t', o', q)
    {
      assert Reached(t, o, q);
      if o[q].Low? {
        assert EntryOk(o, o[o[q].pt], o[q].pt, o[q].i, Entry(t, o[q].pt, o[q].i));
      }
    }
  }

  /** The only table with the owner that entry i of p stands for is the one entry i points to. */
  lemma ChildUnique(t: Tables, o: Owners, p: nat, i: nat, q: nat)
    requires Tree(t, o) && p in o && (o[p].Root? || o[p].Mid?) && i < NPTE && q in o
    requires o[q] == Child(o[p], p, i) || (Under(o[q], p, o[p], i + 1) && !Under(o[q], p, o[p], i))
    ensures Entry(t, p, i) != 0
    ensures o[q] == Child(o[p], p, i) ==> q == PageOf(Entry(t, p, i))
  {
    assert Reached(t, o, p) && Reached(t, o, q);
  }

  lemma FreedSkip(t: Tables, o: Owners, p: nat, i: nat)
    requires p in o && IsTable(o[p]) && i < NPTE && Tree(t, Freed(o, p, i))
    requires o[p].Low? || Entry(t, p, i) == 0
    ensures Freed(o, p, i + 1) == Freed(o, p, i)
  {
    forall q | q in o
      ensures Freed(o, p, i + 1)[q] == Freed(o, p, i)[q]
    {
      if Under(o[q], p, o[p], i + 1) && !Under(o[q], p, o[p], i) {
        ChildUnique(t, Freed(o, p, i), p, i, q);
      }
    }
  }

  lemma FreedSame(o: Owners, p: nat, i: nat)
    requires p in o
    ensures Freed(o, p, i)[p] == o[p]
  {
  }

  lemma ParentOfChild(t: Tables, o: Owners, p: nat, i: nat, c: nat)
    requires Tree(t, o) && p in o && (o[p].Root? || o[p].Mid?) && c in o && o[c] == Child(o[p], p, i)
    ensures ParentOf(t, o[c]) == (p, i)
  {
    assert Reached(t, o, p);
  }

  lemma UnderNext(who: Owner, p: nat, pw: Owner, i: nat, c: nat)
    requires pw.Root? || pw.Mid?
    requires who.Low? ==> who.j < NPTE
    ensures Under(who, p, pw, i + 1) <==>
            Under(who, p, pw, i) || who == Child(pw, p, i) || Under(who, c, Child(pw, p, i), NPTE)
  {
  }

  lemma FreedChild(t: Tables, o: Owners, p: nat, i: nat, c: nat)
    requires p in o && (o[p].Root? || o[p].Mid?) && i < NPTE && Tree(t, Freed(o, p, i))
    requires c in o && Freed(o, p, i)[c] == Child(o[p], p, i)
    ensures Freed(o, p, i + 1) == Freed(Freed(o, p, i), c, NPTE)[c := Free]
    ensures ParentOf(t, Freed(o, p, i)[c]) == (p, i)
  {
    hide Tree, Freed, Under, ParentOf;
    var o1 := Freed(o, p, i);
    FreedSame(o, p, i);
    ParentOfChild(t, o1, p, i, c);
    forall q | q in o
      ensures Freed(o, p, i + 1)[q] == Freed(o1, c, NPTE)[c := Free][q]
    {
      FreedChildAt(t, o, p, i, c, q);
    }
  }

  lemma FreedChildAt(t: Tables, o: Owners, p: nat, i: nat, c: nat, q: nat)
    requires p in o && (o[p].Root? || o[p].Mid?) && i < NPTE && Tree(t, Freed(o, p, i))
    requires c in o && Freed(o, p, i)[c] == Child(o[p], p, i) && q in o
    ensures Freed(o, p, i + 1)[q] == Freed(Freed(o, p, i), c, NPTE)[c := Free][q]
  {
    hide TablesOk, Under;
    var o1 := Freed(o, p, i);
    FreedSame(o, p, i);
    assert Reached(t, o1, q);
    ChildUnique(t, o1, p, i, c);
    if o1[q] == Child(o[p], p, i) {
      ChildUnique(t, o1, p, i, q);
    }
    if !Under(o[q], p, o[p], i) {
      UnderNext(o[q], p, o[p], i, c);
    } else {
      UnderMore(o[q], p, o[p], i);
      UnderFree(c, Child(o[p], p, i));
    }
  }

  lemma UnderMore(who: Owner, p: nat, pw: Owner, i: nat)
    requires Under(who, p, pw, i)
    ensures Under(who, p, pw, i + 1)
  {
  }

  lemma UnderFree(p: nat, pw: Owner)
    ensures !Under(Free, p, pw, NPTE)
  {
  }

  /** All leaf mappings below table p have been removed. */
  ghost predicate NoLeaves(t: Tables, o: Owners, p: nat)
    requires p in o
  {
    forall q :: q in o && o[q].Low? && (q == p || Under(o[q], p, o[p], NPTE)) ==> Empty(t, q)
  }

  function Level(who: Owner): nat {
    if who.Root? then 2 else if who.Mid? then 1 else 0
  }

  lemma NoLeavesBelow(t: Tables, t': Tables, o: Owners, p: nat, i: nat, c: nat)
    requires p in o && NoLeaves(t, o, p) && Pruned(t, t', o, p, i) && (o[p].Root? || o[p].Mid?) && i < NPTE
    requires c in o && Freed(o, p, i)[c] == Child(o[p], p, i) && Tree(t', Freed(o, p, i))
    ensures NoLeaves(t', Freed(o, p, i), c)
  {
    var o1 := Freed(o, p, i);
    forall q | q in o1 && o1[q].Low? && (q == c || Under(o1[q], c, o1[c], NPTE))
      ensures Empty(t', q)
    {
      assert o[q] == o1[q] && Under(o[q], p, o[p], NPTE);
      assert Empty(t, q) && q != p;
    }
  }

  /** freewalk(p) has dealt with entries ..i. */
  ghost predicate Freeing(t0: Tables, o0: Owners, t: Tables, o: Owners, p: nat, i: nat) {
    p in o0 && IsTable(o0[p]) && o == Freed(o0, p, i) && Pruned(t0, t, o0, p, i) && Tree(t, o)
  }

  /** freewalk(p) is done: p and everything below it are free, and the rest is a tree once p's entry is cleared. */
  ghost predicate Gone(t0: Tables, o0: Owners, t: Tables, o: Owners, p: nat)
    requires p in o0
  {
    && o == Freed(o0, p, NPTE)[p := Free]
    && (forall q :: q in t ==> q in t0 && t[q] == t0[q])
    && if o0[p].Root? then Tree(t, o) else
         var (r, i) := ParentOf(t0, o0[p]);
         r in t && |t[r]| == NPTE && i < NPTE && Tree(Put(t, r, i, 0), o)
  }

  lemma FreeingStart(t: Tables, o: Owners, p: nat)
    requires Tree(t, o) && p in o && IsTable(o[p])
    ensures Freeing(t, o, t, o, p, 0)
  {
    assert Freed(o, p, 0) == o;
  }

  lemma FreeingEntry(t0: Tables, o0: Owners, t: Tables, o: Owners, p: nat, i: nat)
    requires Freeing(t0, o0, t, o, p, i) && NoLeaves(t0, o0, p) && i < NPTE
    ensures p in t && |t[p]| == NPTE
    ensures IsValid(t[p][i]) ==>
        && (o0[p].Root? || o0[p].Mid?) && Flags(t[p][i]) == PTE_V
        && OwnedAs(o, PageOf(t[p][i]), Child(o0[p], p, i)) && p in o && o[p] == o0[p]
  {
    FreedSame(o0, p, i);
    assert EntryOk(o, o[p], p, i, Entry(t, p, i));
    assert o0[p].Low? ==> Empty(t0, p);
  }

  lemma FreeingSkip(t0: Tables, o0: Owners, t: Tables, o: Owners, p: nat, i: nat)
    requires Freeing(t0, o0, t, o, p, i) && NoLeaves(t0, o0, p) && i < NPTE
    requires p in t && |t[p]| == NPTE && !IsValid(t[p][i])
    ensures Freeing(t0, o0, t, o, p, i + 1)
  {
    FreedSame(o0, p, i);
    assert EntryOk(o, o[p], p, i, Entry(t, p, i));
    assert o0[p].Low? ==> Empty(t0, p);
    hide Tree, Freed;
    FreedSkip(t, o0, p, i);
  }

  lemma FreeingChild(t0: Tables, o0: Owners, t: Tables, o: Owners, p: nat, i: nat, t': Tables, o': Owners, c: nat)
    requires Freeing(t0, o0, t, o, p, i) && NoLeaves(t0, o0, p) && i < NPTE && (o0[p].Root? || o0[p].Mid?)
    requires c in o && o[c] == Child(o0[p], p, i) && Gone(t, o, t', o', c)
    ensures p in t' && |t'[p]| == NPTE && Freeing(t0, o0, Put(t', p, i, 0), o', p, i + 1)
  {
    hide Tree, Freed;
    FreedChild(t, o0, p, i, c);
  }

  lemma FreeingDone(t0: Tables, o0: Owners, t: Tables, o: Owners, p: nat)
    requires Freeing(t0, o0, t, o, p, NPTE)
    ensures p != 0 && Gone(t0, o0, t - {p}, o[p := Free], p)
  {
    FreedSame(o0, p, NPTE);
    hide Freed;
    assert Empty(t, p);
    if o0[p].Root? {
      DropRoot(t, o, p);
    } else {
      assert Reached(t, o, p);
      hide Tree;
      DropTable(t, o, p);
    }
  }
}
