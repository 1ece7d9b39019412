/**
 The user-level allocator (user/umalloc.c; section 8.7 of The C Programming Language,
 second edition). Addresses count header-sized units. Headers live in memory and the free
 blocks form one circular list in address order; base, of size 0, lies below the heap.
 */
module Umalloc {

  const UNIT: nat := 16          // sizeof(Header)
  const BASE: nat := 1           // &base; 0 is the null pointer

  datatype Blk = Blk(a: nat, s: nat)

  /** Whose each unit obtained from sbrk is. */
  datatype Owner = Free | Live(a: nat)

  // ----- the list as a value: base first, then by address, no two blocks touching -----

  ghost predicate Sorted(l: seq<Blk>) {
    && |l| >= 1 && l[0] == Blk(BASE, 0)
    && (forall i :: 0 < i < |l| ==> l[i].s >= 1)
    && forall i, j :: 0 <= i < j < |l| ==> l[i].a + l[i].s < l[j].a
  }

  function Next(l: seq<Blk>, i: nat): (n: nat)
    requires i < |l|
    ensures n < |l|
  {
    if i + 1 < |l| then i + 1 else 0
  }

  /** The headers in memory say the same as the list. */
  ghost predicate Ring(ptr: map<nat, nat>, size: map<nat, nat>, l: seq<Blk>) {
    forall i :: 0 <= i < |l| ==> Node(ptr, size, l, i)
  }

  predicate Node(ptr: map<nat, nat>, size: map<nat, nat>, l: seq<Blk>, i: nat)
    requires i < |l|
  {
    l[i].a in ptr && l[i].a in size && ptr[l[i].a] == l[Next(l, i)].a && size[l[i].a] == l[i].s
  }

  predicate InBlk(b: Blk, u: nat) {
    b.a <= u < b.a + b.s
  }

  ghost predicate InList(l: seq<Blk>, u: nat) {
    exists i :: 0 <= i < |l| && InBlk(l[i], u)
  }

  /** The free units are exactly those of the listed blocks: with Sorted, the list is their maximal runs. */
  ghost predicate Covers(l: seq<Blk>, own: map<nat, Owner>) {
    && (forall u :: u in own ==> u > BASE)
    && forall u :: InList(l, u) <==> u in own && own[u].Free?
  }

  ghost predicate LiveOk(size: map<nat, nat>, live: map<nat, nat>, own: map<nat, Owner>) {
    && (forall a :: a in live ==> live[a] >= 1 && a in size && size[a] == live[a])
    && (forall a, u :: a in live && InBlk(Blk(a, live[a]), u) ==> u in own && own[u] == Live(a))
    && (forall u :: u in own && own[u].Live? ==> own[u].a in live && InBlk(Blk(own[u].a, live[own[u].a]), u))
  }

  // ----- inserting a block between neighbours -----

  predicate Fits(l: seq<Blk>, k: nat, b: Blk) {
    && k < |l| && b.s >= 1 && l[k].a + l[k].s <= b.a && l[k].a < b.a
    && (k + 1 < |l| ==> b.a + b.s <= l[k + 1].a)
  }

  predicate JoinsUp(l: seq<Blk>, k: nat, b: Blk) {
    k + 1 < |l| && b.a + b.s == l[k + 1].a
  }

  predicate JoinsDown(l: seq<Blk>, k: nat, b: Blk)
    requires k < |l|
  {
    l[k].a + l[k].s == b.a
  }

  // ----- replacing blocks m..skip of the list by mid -----

  function Spliced(l: seq<Blk>, m: nat, mid: seq<Blk>, skip: nat): (l': seq<Blk>)
    requires m <= skip <= |l| && |mid| <= 1
    ensures |l'| == m + |mid| + |l| - skip
    ensures forall i :: 0 <= i < |l'| ==>
      l'[i] == if i < m then l[i] else if i < m + |mid| then mid[0] else l[i - m - |mid| + skip]
  {
    l[..m] + mid + l[skip..]
  }

  /** mid lies strictly between its new neighbours. */
  predicate Between(l: seq<Blk>, m: nat, mid: seq<Blk>, skip: nat) {
    && 1 <= m <= skip <= |l| && |mid| <= 1
    && (mid != [] ==> mid[0].s >= 1 && l[m - 1].a + l[m - 1].s < mid[0].a)
    && (mid != [] && skip < |l| ==> mid[0].a + mid[0].s < l[skip].a)
  }

  lemma SplicedPair(l: seq<Blk>, m: nat, mid: seq<Blk>, skip: nat, i: nat, j: nat)
    requires Sorted(l) && Between(l, m, mid, skip) && i < j < |Spliced(l, m, mid, skip)|
    ensures var l' := Spliced(l, m, mid, skip); l'[i].a + l'[i].s < l'[j].a
  {
    var l' := Spliced(l, m, mid, skip);
    if mid != [] && j == m && i < m - 1 {
      assert l[i].a + l[i].s < l[m - 1].a;
    } else if mid != [] && i == m && j > m + 1 {
      assert l[skip].a + l[skip].s < l[j - m - 1 + skip].a;
    }
  }

  lemma SplicedSorted(l: seq<Blk>, m: nat, mid: seq<Blk>, skip: nat)
    requires Sorted(l) && Between(l, m, mid, skip)
    ensures Sorted(Spliced(l, m, mid, skip))
  {
    var l' := Spliced(l, m, mid, skip);
    forall i, j | 0 <= i < j < |l'|
      ensures l'[i].a + l'[i].s < l'[j].a
    {
      SplicedPair(l, m, mid, skip, i, j);
    }
  }

  /** A unit is in the new list when it is in a kept block or in mid. */
  lemma SplicedUnits(l: seq<Blk>, m: nat, mid: seq<Blk>, skip: nat, u: nat)
    requires m <= skip <= |l| && |mid| <= 1
    ensures InList(Spliced(l, m, mid, skip), u) <==>
      (exists i :: 0 <= i < |l| && !(m <= i < skip) && InBlk(l[i], u)) || (mid != [] && InBlk(mid[0], u))
  {
    var l' := Spliced(l, m, mid, skip);
    if i :| 0 <= i < |l| && !(m <= i < skip) && InBlk(l[i], u) {
      assert InBlk(l'[if i < m then i else i - skip + m + |mid|], u);
    }
    if mid != [] && InBlk(mid[0], u) {
      assert InBlk(l'[m], u);
    }
    if i :| 0 <= i < |l'| && InBlk(l'[i], u) {
      if i < m {
        assert InBlk(l[i], u);
      } else if i >= m + |mid| {
        assert InBlk(l[i - m - |mid| + skip], u);
      }
    }
  }

  // ----- inserting a block -----

  function From(l: seq<Blk>, k: nat, b: Blk): nat
    requires k < |l|
  {
    if JoinsDown(l, k, b) then k else k + 1
  }

  function To(l: seq<Blk>, k: nat, b: Blk): nat
    requires k < |l|
  {
    if JoinsUp(l, k, b) then k + 2 else k + 1
  }

  /** b joined with the neighbours it touches. */
  function Joined(l: seq<Blk>, k: nat, b: Blk): Blk
    requires k < |l|
  {
    var s := b.s + if JoinsUp(l, k, b) then l[k + 1].s else 0;
    if JoinsDown(l, k, b) then Blk(l[k].a, l[k].s + s) else Blk(b.a, s)
  }

  function Inserted(l: seq<Blk>, k: nat, b: Blk): (l': seq<Blk>)
    requires k < |l|
  {
    Spliced(l, From(l, k, b), [Joined(l, k, b)], To(l, k, b))
  }

  lemma InsertedSorted(l: seq<Blk>, k: nat, b: Blk)
    requires Sorted(l) && Fits(l, k, b)
    ensures Between(l, From(l, k, b), [Joined(l, k, b)], To(l, k, b)) && Sorted(Inserted(l, k, b))
  {
    SplicedSorted(l, From(l, k, b), [Joined(l, k, b)], To(l, k, b));
  }

  lemma InsertedUnits(l: seq<Blk>, k: nat, b: Blk, u: nat)
    requires Sorted(l) && Fits(l, k, b)
    ensures InList(Inserted(l, k, b), u) <==> InList(l, u) || InBlk(b, u)
  {
    var m, j, skip := From(l, k, b), Joined(l, k, b), To(l, k, b);
    SplicedUnits(l, m, [j], skip, u);
    assert InBlk(j, u) <==>
      InBlk(b, u) || (JoinsDown(l, k, b) && InBlk(l[k], u)) || (JoinsUp(l, k, b) && InBlk(l[k + 1], u));
    if i :| 0 <= i < |l| && InBlk(l[i], u) {
      assert m <= i < skip ==> InBlk(j, u);
    }
  }

  /** free's pointer updates, as maps; n is the successor of l[k]. */
  function LinkedPtr(ptr: map<nat, nat>, l: seq<Blk>, k: nat, b: Blk): map<nat, nat>
    requires k < |l|
  {
    var n := l[Next(l, k)].a;
    var p1: map<nat, nat> := ptr[b.a := if JoinsUp(l, k, b) && n in ptr then ptr[n] else n];
    if JoinsDown(l, k, b) then p1[l[k].a := p1[b.a]] else p1[l[k].a := b.a]
  }

  function LinkedSize(size: map<nat, nat>, l: seq<Blk>, k: nat, b: Blk): map<nat, nat>
    requires k < |l|
  {
    var n := l[Next(l, k)].a;
    var s1: map<nat, nat> := size[b.a := b.s + if JoinsUp(l, k, b) && n in size then size[n] else 0];
    if JoinsDown(l, k, b) && l[k].a in size then s1[l[k].a := size[l[k].a] + s1[b.a]] else s1
  }

  function At(l: seq<Blk>, i: nat): nat
    requires |l| > 0
  {
    if i < |l| then l[i].a else l[0].a
  }

  /** The headers after blocks m..skip have been replaced by mid. */
  ghost predicate Relinked(ptr: map<nat, nat>, size: map<nat, nat>, ptr': map<nat, nat>, size': map<nat, nat>,
                           l: seq<Blk>, m: nat, mid: seq<Blk>, skip: nat) {
    && 1 <= m <= skip <= |l| && |mid| <= 1
    && (forall j :: 0 <= j < |l| && !(m - 1 <= j < skip) ==>
        l[j].a in ptr' && l[j].a in ptr && ptr'[l[j].a] == ptr[l[j].a])
    && (forall j :: 0 <= j < |l| && !(m <= j < skip) ==>
        l[j].a in size' && l[j].a in size && size'[l[j].a] == size[l[j].a])
    && l[m - 1].a in ptr' && ptr'[l[m - 1].a] == (if mid == [] then At(l, skip) else mid[0].a)
    && (mid != [] ==>
        mid[0].a in ptr' && mid[0].a in size' && ptr'[mid[0].a] == At(l, skip) && size'[mid[0].a] == mid[0].s)
  }

  lemma RelinkedRing(ptr: map<nat, nat>, size: map<nat, nat>, ptr': map<nat, nat>, size': map<nat, nat>,
                     l: seq<Blk>, m: nat, mid: seq<Blk>, skip: nat)
    requires Ring(ptr, size, l) && Relinked(ptr, size, ptr', size', l, m, mid, skip)
    ensures Ring(ptr', size', Spliced(l, m, mid, skip))
  {
    var l' := Spliced(l, m, mid, skip);
    forall i | 0 <= i < |l'|
      ensures Node(ptr', size', l', i)
    {
      if i < m {
        assert Node(ptr, size, l, i) && l'[i] == l[i];
      } else if i >= m + |mid| {
        var j := i - m - |mid| + skip;
        assert Node(ptr, size, l, j) && l'[i] == l[j] && (j + 1 < |l| ==> l'[i + 1] == l[j + 1]);
      }
    }
  }

  lemma LinkedRelinks(ptr: map<nat, nat>, size: map<nat, nat>, l: seq<Blk>, k: nat, b: Blk)
    requires Sorted(l) && Ring(ptr, size, l) && Fits(l, k, b)
    ensures Relinked(ptr, size, LinkedPtr(ptr, l, k, b), LinkedSize(size, l, k, b),
                     l, From(l, k, b), [Joined(l, k, b)], To(l, k, b))
  {
    hide Sorted, LinkedPtr, LinkedSize, Joined;
    LinkedPtrs(ptr, size, l, k, b);
    LinkedSizes(ptr, size, l, k, b);
  }

  lemma Apart(ptr: map<nat, nat>, size: map<nat, nat>, l: seq<Blk>, k: nat, b: Blk)
    requires Sorted(l) && Ring(ptr, size, l) && Fits(l, k, b)
    ensures forall j :: 0 <= j < |l| ==>
      l[j].a != b.a && (j != k ==> l[j].a != l[k].a) && l[j].a in ptr && l[j].a in size
  {
    forall j | 0 <= j < |l|
      ensures l[j].a != b.a && (j != k ==> l[j].a != l[k].a) && l[j].a in ptr && l[j].a in size
    {
      assert Node(ptr, size, l, j);
    }
  }

  lemma LinkedPtrs(ptr: map<nat, nat>, size: map<nat, nat>, l: seq<Blk>, k: nat, b: Blk)
    requires Sorted(l) && Ring(ptr, size, l) && Fits(l, k, b)
    ensures var ptr', m, skip, a := LinkedPtr(ptr, l, k, b), From(l, k, b), To(l, k, b), Joined(l, k, b).a;
      && 1 <= m <= skip <= |l| && l[m - 1].a in ptr' && ptr'[l[m - 1].a] == a
      && a in ptr' && ptr'[a] == At(l, skip)
      && forall j :: 0 <= j < |l| && !(m - 1 <= j < skip) ==>
           l[j].a in ptr' && l[j].a in ptr && ptr'[l[j].a] == ptr[l[j].a]
  {
    hide Sorted, Ring;
    Apart(ptr, size, l, k, b);
    HeadFirst(l, k, b);
    NodeAt(ptr, size, l, k);
    NodeAt(ptr, size, l, Next(l, k));
    if k > 0 {
      NodeAt(ptr, size, l, k - 1);
    }
  }

  lemma HeadFirst(l: seq<Blk>, k: nat, b: Blk)
    requires Sorted(l) && Fits(l, k, b)
    ensures JoinsDown(l, k, b) ==> k > 0
  {
  }

  lemma LinkedSizes(ptr: map<nat, nat>, size: map<nat, nat>, l: seq<Blk>, k: nat, b: Blk)
    requires Sorted(l) && Ring(ptr, size, l) && Fits(l, k, b)
    ensures var size', m, skip, j := LinkedSize(size, l, k, b), From(l, k, b), To(l, k, b), Joined(l, k, b);
      && j.a in size' && size'[j.a] == j.s
      && forall j :: 0 <= j < |l| && !(m <= j < skip) ==>
           l[j].a in size' && l[j].a in size && size'[l[j].a] == size[l[j].a]
  {
    hide Sorted, Ring;
    Apart(ptr, size, l, k, b);
    NodeAt(ptr, size, l, k);
    NodeAt(ptr, size, l, Next(l, k));
  }

  lemma LinkedRing(ptr: map<nat, nat>, size: map<nat, nat>, l: seq<Blk>, k: nat, b: Blk)
    requires Sorted(l) && Ring(ptr, size, l) && Fits(l, k, b)
    ensures Ring(LinkedPtr(ptr, l, k, b), LinkedSize(size, l, k, b), Inserted(l, k, b))
  {
    hide Ring, Relinked, Sorted;
    LinkedRelinks(ptr, size, l, k, b);
    RelinkedRing(ptr, size, LinkedPtr(ptr, l, k, b), LinkedSize(size, l, k, b), l, From(l, k, b), [Joined(l, k, b)],
                 To(l, k, b));
  }

  /** A block that is not free has a place in the list. */
  lemma Place(l: seq<Blk>, own: map<nat, Owner>, b: Blk, k: nat)
    requires Sorted(l) && Covers(l, own) && b.s >= 1 && k < |l|
    requires forall u :: InBlk(b, u) ==> u in own && !own[u].Free?
    requires l[k].a < b.a && (k + 1 < |l| ==> b.a <= l[k + 1].a)
    ensures Fits(l, k, b) && (k + 1 < |l| ==> b.a < l[k + 1].a)
  {
    if l[k].a + l[k].s > b.a {
      assert InBlk(l[k], b.a) && InBlk(b, b.a);
      assert InList(l, b.a);
    }
    if k + 1 < |l| && b.a + b.s > l[k + 1].a {
      assert InBlk(l[k + 1], l[k + 1].a) && InBlk(b, l[k + 1].a);
      assert InList(l, l[k + 1].a);
    }
  }

  lemma {:induction false} FindPlace(l: seq<Blk>, a: nat, n: nat) returns (k: nat)
    requires Sorted(l) && a > BASE && 1 <= n <= |l|
    ensures k < n && l[k].a < a && (k + 1 < n ==> a <= l[k + 1].a)
    decreases n
  {
    if n == 1 || l[n - 1].a < a {
      k := n - 1;
    } else {
      k := FindPlace(l, a, n - 1);
    }
  }

  // ----- units changing hands -----

  ghost function Units(b: Blk): set<nat> {
    set u | b.a <= u < b.a + b.s && InBlk(b, u)
  }

  ghost function Given(own: map<nat, Owner>, b: Blk, who: Owner): map<nat, Owner> {
    map u | u in own.Keys + Units(b) :: if InBlk(b, u) then who else own[u]
  }

  /** What morecore asks sbrk for, at the address it is given. */
  ghost function Granted(brk: nat, nu: nat): (b: Blk)
    ensures b.s >= nu
  {
    Blk(brk, if nu < 4096 then 4096 else nu)
  }

  ghost predicate Heaped(ptr: map<nat, nat>, size: map<nat, nat>, l: seq<Blk>, live: map<nat, nat>,
                         own: map<nat, Owner>)
  {
    Sorted(l) && Ring(ptr, size, l) && Covers(l, own) && LiveOk(size, live, own)
  }

  /** Header writes outside a live block leave it alone. */
  lemma LiveFrame(size: map<nat, nat>, live: map<nat, nat>, own: map<nat, Owner>, size': map<nat, nat>,
                  live': map<nat, nat>, own': map<nat, Owner>, b: Blk, who: Owner)
    requires LiveOk(size, live, own) && own' == Given(own, b, who) && b.s >= 1
    requires forall u :: InBlk(b, u) && u in own && own[u].Live? ==> own[u].a == b.a && b.s == live[b.a]
    requires who == Free || who == Live(b.a)
    requires live' == if who == Free then live - {b.a} else live[b.a := b.s]
    requires b.a in live ==> live[b.a] == b.s
    requires forall a :: a in live' ==> a in size' && size'[a] == live'[a]
    ensures LiveOk(size', live', own')
  {
    forall a, u | a in live' && InBlk(Blk(a, live'[a]), u)
      ensures u in own' && own'[u] == Live(a)
    {
      if a != b.a {
        assert own[u] == Live(a);
      }
    }
    forall u | u in own' && own'[u].Live?
      ensures own'[u].a in live' && InBlk(Blk(own'[u].a, live'[own'[u].a]), u)
    {
      assert !InBlk(b, u) ==> u in own && InBlk(Blk(own[u].a, live[own[u].a]), u);
    }
  }

  lemma FreeHeap(ptr: map<nat, nat>, size: map<nat, nat>, l: seq<Blk>, live: map<nat, nat>, own: map<nat, Owner>,
                 k: nat, a: nat)
    requires Heaped(ptr, size, l, live, own) && a in live && Fits(l, k, Blk(a, live[a]))
    ensures var b := Blk(a, live[a]);
      Heaped(LinkedPtr(ptr, l, k, b), LinkedSize(size, l, k, b), Inserted(l, k, b), live - {a}, Given(own, b, Free))
  {
    var b := Blk(a, live[a]);
    InsertedSorted(l, k, b);
    LinkedRing(ptr, size, l, k, b);
    FreeCovers(l, own, k, b);
    FreeLive(ptr, size, l, live, own, k, a);
    hide Sorted, Ring, Covers, LiveOk;
  }

  lemma FreeCovers(l: seq<Blk>, own: map<nat, Owner>, k: nat, b: Blk)
    requires Sorted(l) && Covers(l, own) && Fits(l, k, b)
    ensures Covers(Inserted(l, k, b), Given(own, b, Free))
  {
    hide Inserted, InList;
    var own' := Given(own, b, Free);
    forall u
      ensures InList(Inserted(l, k, b), u) <==> u in own' && own'[u].Free?
    {
      InsertedUnits(l, k, b, u);
    }
    assert b.a > BASE by {
      assert k > 0 ==> l[0].a + l[0].s < l[k].a;
    }
  }

  lemma FreeLive(ptr: map<nat, nat>, size: map<nat, nat>, l: seq<Blk>, live: map<nat, nat>, own: map<nat, Owner>,
                 k: nat, a: nat)
    requires Heaped(ptr, size, l, live, own) && a in live && Fits(l, k, Blk(a, live[a]))
    ensures var b := Blk(a, live[a]);
      LiveOk(LinkedSize(size, l, k, b), live - {a}, Given(own, b, Free))
  {
    var b := Blk(a, live[a]);
    var size' := LinkedSize(size, l, k, b);
    forall x | x in live && x != a
      ensures x in size' && size'[x] == live[x]
    {
      NotListed(l, live, own, size, x, k);
    }
    assert forall u :: InBlk(b, u) ==> u in own && own[u] == Live(a);
    hide Sorted, Ring, Covers;
    LiveFrame(size, live, own, size', live - {a}, Given(own, b, Free), b, Free);
  }

  /** A live block's header is not a listed block's. */
  lemma NotListed(l: seq<Blk>, live: map<nat, nat>, own: map<nat, Owner>, size: map<nat, nat>, x: nat, i: nat)
    requires Sorted(l) && Covers(l, own) && LiveOk(size, live, own) && x in live && i < |l|
    ensures x != l[i].a
  {
    assert InBlk(Blk(x, live[x]), x);
    assert x in own && own[x] == Live(x);
    assert i > 0 ==> InBlk(l[i], l[i].a);
    assert i > 0 ==> InList(l, l[i].a);
  }

  // ----- taking a block out -----

  /** malloc cuts n units off block j: all of it, or its tail. */
  function Cut(l: seq<Blk>, j: nat, n: nat): seq<Blk>
    requires j < |l| && n <= l[j].s
  {
    Spliced(l, j, if l[j].s == n then [] else [Blk(l[j].a, l[j].s - n)], j + 1)
  }

  function CutAt(b: Blk, n: nat): nat
    requires n <= b.s
  {
    b.a + b.s - n
  }

  lemma CutSorted(l: seq<Blk>, j: nat, n: nat)
    requires Sorted(l) && 1 <= j < |l| && 1 <= n <= l[j].s
    ensures Sorted(Cut(l, j, n))
  {
    assert l[j - 1].a + l[j - 1].s < l[j].a && (j + 1 < |l| ==> l[j].a + l[j].s < l[j + 1].a);
    SplicedSorted(l, j, if l[j].s == n then [] else [Blk(l[j].a, l[j].s - n)], j + 1);
  }

  lemma CutUnits(l: seq<Blk>, j: nat, n: nat, u: nat)
    requires Sorted(l) && 1 <= j < |l| && 1 <= n <= l[j].s
    ensures InList(Cut(l, j, n), u) <==> InList(l, u) && !InBlk(Blk(CutAt(l[j], n), n), u)
  {
    var mid := if l[j].s == n then [] else [Blk(l[j].a, l[j].s - n)];
    SplicedUnits(l, j, mid, j + 1, u);
    if i :| 0 <= i < |l| && InBlk(l[i], u) {
      if i != j {
        Disjoint(l, i, j, u);
      }
    }
    if i :| 0 <= i < |l| && i != j && InBlk(l[i], u) {
      Disjoint(l, i, j, u);
      assert InList(l, u);
    }
    if mid != [] && InBlk(mid[0], u) {
      assert InBlk(l[j], u);
    }
  }

  lemma Disjoint(l: seq<Blk>, i: nat, j: nat, u: nat)
    requires Sorted(l) && i < |l| && j < |l| && i != j && InBlk(l[i], u)
    ensures !InBlk(l[j], u)
  {
  }

  lemma CutCovers(l: seq<Blk>, own: map<nat, Owner>, j: nat, n: nat)
    requires Sorted(l) && Covers(l, own) && 1 <= j < |l| && 1 <= n <= l[j].s
    ensures var b := Blk(CutAt(l[j], n), n);
      && (forall u :: InBlk(b, u) ==> u in own && own[u].Free?)
      && Covers(Cut(l, j, n), Given(own, b, Live(b.a)))
  {
    var b := Blk(CutAt(l[j], n), n);
    forall u | InBlk(b, u)
      ensures u in own && own[u].Free?
    {
      assert InBlk(l[j], u);
      assert InList(l, u);
    }
    var own' := Given(own, b, Live(b.a));
    forall u
      ensures InList(Cut(l, j, n), u) <==> u in own' && own'[u].Free?
    {
      CutUnits(l, j, n, u);
    }
  }

  lemma CutDistinct(ptr: map<nat, nat>, size: map<nat, nat>, l: seq<Blk>, j: nat, i: nat)
    requires Sorted(l) && Ring(ptr, size, l) && j < |l| && i < |l|
    ensures l[i].a in ptr && l[i].a in size && (i != j ==> l[i].a != l[j].a && !InBlk(l[j], l[i].a))
  {
    assert Node(ptr, size, l, i);
  }

  lemma CutWhole(ptr: map<nat, nat>, size: map<nat, nat>, l: seq<Blk>, j: nat, ptr': map<nat, nat>)
    requires Sorted(l) && Ring(ptr, size, l) && 1 <= j < |l| && l[j].a in ptr && ptr' == ptr[l[j - 1].a := ptr[l[j].a]]
    ensures Ring(ptr', size, Spliced(l, j, [], j + 1))
  {
    assert Node(ptr, size, l, j);
    assert Relinked(ptr, size, ptr', size, l, j, [], j + 1) by {
      hide Sorted, Ring;
      forall i | 0 <= i < |l|
        ensures l[i].a in ptr && l[i].a in size && (i != j - 1 ==> l[i].a != l[j - 1].a)
      {
        CutDistinct(ptr, size, l, j - 1, i);
      }
    }
    hide Sorted, Ring, Relinked;
    RelinkedRing(ptr, size, ptr', size, l, j, [], j + 1);
  }

  lemma CutTail(ptr: map<nat, nat>, size: map<nat, nat>, l: seq<Blk>, j: nat, n: nat, size': map<nat, nat>)
    requires Sorted(l) && Ring(ptr, size, l) && 1 <= j < |l| && 1 <= n < l[j].s
    requires size' == size[l[j].a := l[j].s - n][CutAt(l[j], n) := n]
    ensures Ring(ptr, size', Spliced(l, j, [Blk(l[j].a, l[j].s - n)], j + 1))
  {
    assert Node(ptr, size, l, j) && Node(ptr, size, l, j - 1);
    var mid := [Blk(l[j].a, l[j].s - n)];
    assert Relinked(ptr, size, ptr, size', l, j, mid, j + 1) by {
      hide Sorted, Ring;
      forall i | 0 <= i < |l|
        ensures l[i].a in ptr && l[i].a in size && (i != j ==> l[i].a != CutAt(l[j], n) && l[i].a != l[j].a)
      {
        CutDistinct(ptr, size, l, j, i);
      }
    }
    hide Sorted, Ring, Relinked;
    RelinkedRing(ptr, size, ptr, size', l, j, mid, j + 1);
  }

  lemma CutRing(ptr: map<nat, nat>, size: map<nat, nat>, l: seq<Blk>, j: nat, n: nat, ptr': map<nat, nat>,
                size': map<nat, nat>)
    requires Sorted(l) && Ring(ptr, size, l) && 1 <= j < |l| && 1 <= n <= l[j].s && l[j].a in ptr && l[j].a in size
    requires var a := CutAt(l[j], n);
      if l[j].s == n then ptr' == ptr[l[j - 1].a := ptr[l[j].a]] && size' == size
      else ptr' == ptr && size' == size[l[j].a := l[j].s - n][a := n]
    ensures Ring(ptr', size', Cut(l, j, n))
  {
    hide Sorted, Ring;
    if l[j].s == n {
      CutWhole(ptr, size, l, j, ptr');
    } else {
      CutTail(ptr, size, l, j, n, size');
    }
  }

  lemma CutHeap(ptr: map<nat, nat>, size: map<nat, nat>, l: seq<Blk>, live: map<nat, nat>, own: map<nat, Owner>,
                j: nat, n: nat, ptr': map<nat, nat>, size': map<nat, nat>)
    requires Heaped(ptr, size, l, live, own) && 1 <= j < |l| && 1 <= n <= l[j].s && l[j].a in ptr && l[j].a in size
    requires var a := CutAt(l[j], n);
      if l[j].s == n then ptr' == ptr[l[j - 1].a := ptr[l[j].a]] && size' == size
      else ptr' == ptr && size' == size[l[j].a := l[j].s - n][a := n]
    ensures var b := Blk(CutAt(l[j], n), n);
      b.a !in live && Heaped(ptr', size', Cut(l, j, n), live[b.a := n], Given(own, b, Live(b.a)))
  {
    var b := Blk(CutAt(l[j], n), n);
    CutSorted(l, j, n);
    CutCovers(l, own, j, n);
    CutRing(ptr, size, l, j, n, ptr', size');
    assert InBlk(b, b.a);
    assert forall a :: a in live ==> InBlk(Blk(a, live[a]), a);
    assert b.a !in live;
    assert Node(ptr, size, l, j);
    forall x | x in live
      ensures x in size' && size'[x] == live[x]
    {
      NotListed(l, live, own, size, x, j);
    }
    hide Sorted, Ring, Covers;
    LiveFrame(size, live, own, size', live[b.a := n], Given(own, b, Live(b.a)), b, Live(b.a));
  }

  // ----- the allocator -----

  /** Steps along the ring of n nodes from j to k. */
  function Dist(j: nat, k: nat, n: nat): nat
    requires j < n && k < n
  {
    if j <= k then k - j else k - j + n
  }

  /** nbytes rounded up to units, plus the header. */
  function NUnits(nbytes: nat): (n: nat)
    ensures n >= 1 && nbytes <= (n - 1) * UNIT < nbytes + UNIT
  {
    (nbytes + UNIT - 1) / UNIT + 1
  }

  lemma NodeAt(ptr: map<nat, nat>, size: map<nat, nat>, l: seq<Blk>, i: nat)
    requires Ring(ptr, size, l) && i < |l|
    ensures Node(ptr, size, l, i)
  {
  }

  /** Where free's search stops: exactly at the block's place. */
  lemma SearchStops(l: seq<Blk>, a: nat, k: nat, j: nat)
    requires Sorted(l) && k < |l| && j < |l| && l[k].a < a && (k + 1 < |l| ==> a < l[k + 1].a)
    ensures var p, n := l[j].a, l[Next(l, j)].a;
      j == k <==> (a > p && a < n) || (p >= n && (a > p || a < n))
  {
    if j < k {
      assert l[j].a + l[j].s < l[k].a && l[j + 1].a <= l[k].a;
    } else if j > k {
      assert l[k + 1].a <= l[j].a && l[0].a < l[j].a;
    } else {
      assert 0 < k ==> l[0].a + l[0].s < l[k].a;
    }
  }

  lemma TakeFacts(ptr: map<nat, nat>, size: map<nat, nat>, l: seq<Blk>, live: map<nat, nat>, own: map<nat, Owner>,
                  j: nat, n: nat)
    requires Heaped(ptr, size, l, live, own) && 1 <= j < |l| && 1 <= n <= l[j].s
    ensures Node(ptr, size, l, j) && l[j - 1].a > 0
    ensures forall u :: InBlk(Blk(CutAt(l[j], n), n), u) ==> u in own && own[u].Free?
    ensures j <= |Cut(l, j, n)| && Cut(l, j, n)[j - 1] == l[j - 1]
  {
    hide LiveOk;
    CutCovers(l, own, j, n);
  }

  class Heap {
    var ptr: map<nat, nat>       // s.ptr of every header in memory
    var size: map<nat, nat>      // s.size
    var freep: nat
    ghost var l: seq<Blk>
    ghost var f: nat             // freep is l[f]
    ghost var live: map<nat, nat>
    ghost var own: map<nat, Owner>

    ghost predicate Valid()
      reads this
    {
      if freep == 0 then live == map[] && own == map[]
      else f < |l| && freep == l[f].a && Heaped(ptr, size, l, live, own)
    }

    /** freep starts as 0: the first malloc makes the list. */
    constructor ()
      ensures Valid() && freep == 0 && live == map[] && own == map[]
    {
      ptr, size, freep := map[], map[], 0;
      l, f, live, own := [], 0, map[], map[];
    }

    /** a is the header of a block malloc returned and free has not had back. */
    method Free(a: nat)
      requires Valid() && freep != 0 && a in live
      modifies this
      ensures Valid() && freep != 0
      ensures live == old(live) - {a} && own == Given(old(own), Blk(a, old(live)[a]), Owner.Free)
      ensures l[f].a <= a
      ensures own.Keys == old(own).Keys && ListSize(l) + LiveSize(live) == old(ListSize(l) + LiveSize(live))
    {
      hide Ring, Covers, LiveOk, Sorted;
      ghost var b := Blk(a, live[a]);
      ghost var k := PlaceOf(ptr, size, l, live, own, a);
      ghost var j: nat := f;
      var p := freep;
      NodeAt(ptr, size, l, j);
      SearchStops(l, a, k, j);
      while !(a > p && a < ptr[p])
        invariant j < |l| && p == l[j].a && Node(ptr, size, l, j)
        invariant j == k <==> (a > p && a < ptr[p]) || (p >= ptr[p] && (a > p || a < ptr[p]))
        decreases Dist(j, k, |l|)
        modifies {}
      {
        if p >= ptr[p] && (a > p || a < ptr[p]) {
          break;
        }
        j := Next(l, j);
        NodeAt(ptr, size, l, j);
        SearchStops(l, a, k, j);
        p := ptr[p];
      }
      SizesAddUp(ptr, size, l, live, own);
      LiveUnits(size, live, own, a);
      GivenKeys(own, b, Owner.Free);
      Link(a, p, k, b);
      SizesAddUp(ptr, size, l, live, own);
    }

    /** The second half of free: join with the neighbours it touches, or link in between. */
    method Link(bp: nat, p: nat, ghost k: nat, ghost b: Blk)
      requires freep != 0 && Heaped(ptr, size, l, live, own) && bp in live && b == Blk(bp, live[bp])
      requires Fits(l, k, b) && p == l[k].a
      modifies this
      ensures Valid() && freep == p
      ensures live == old(live) - {bp} && own == Given(old(own), b, Owner.Free)
    {
      hide Heaped, Sorted, Inserted, Given;
      LinkFacts(ptr, size, l, live, own, k, bp);
      FreeHeap(ptr, size, l, live, own, k, bp);
      InsertedKeeps(l, k, b);
      if bp + size[bp] == ptr[p] {
        size := size[bp := size[bp] + size[ptr[p]]];
        ptr := ptr[bp := ptr[ptr[p]]];
      } else {
        ptr := ptr[bp := ptr[p]];
      }
      if p + size[p] == bp {
        size := size[p := size[p] + size[bp]];
        ptr := ptr[p := ptr[bp]];
      } else {
        ptr := ptr[p := bp];
      }
      freep := p;
      assert ptr == LinkedPtr(old(ptr), l, k, b);
      assert size == LinkedSize(old(size), l, k, b);
      l := Inserted(l, k, b);
      f := k;
      live := live - {bp};
      own := Given(own, b, Owner.Free);
    }

    /** sbrk is asked for max(nu, 4096) units: grant says whether it gives them, brk where they start. */
    method Morecore(nu: nat, grant: bool, brk: nat) returns (p: nat)
      requires Valid() && freep != 0 && nu >= 1
      requires grant ==> brk > BASE && forall u :: u in own ==> u < brk
      modifies this
      ensures Valid() && freep != 0 && live == old(live)
      ensures !grant ==> p == 0 && own == old(own) && l == old(l) && f == old(f)
      ensures grant ==>
          && p == freep && own == Given(old(own), Granted(brk, nu), Owner.Free)
          && exists i :: 0 <= i < |l| && l[i].s >= nu
    {
      hide Ring, Covers, LiveOk, Sorted;
      var n := if nu < 4096 then 4096 else nu;
      if !grant {
        return 0;
      }
      ghost var b := Granted(brk, nu);
      GrowHeap(ptr, size, l, live, own, b);
      size := size[brk := n];
      live := live[brk := n];
      own := Given(own, b, Live(brk));
      Free(brk);
      assert live == old(live);
      assert own == Given(old(own), b, Owner.Free);
      BigRun(l, own, b);
      p := freep;
    }

    /** The block cut from l[j]; prevp is its predecessor. */
    method Take(p: nat, prevp: nat, n: nat, ghost j: nat) returns (a: nat)
      requires freep != 0 && Heaped(ptr, size, l, live, own) && 1 <= j < |l| && p == l[j].a && prevp == l[j - 1].a
      requires 1 <= n <= l[j].s
      modifies this
      ensures Valid() && freep != 0 && a == CutAt(old(l)[j], n) && a !in old(live)
      ensures live == old(live)[a := n] && own == Given(old(own), Blk(a, n), Live(a))
      ensures forall u :: InBlk(Blk(a, n), u) ==> u in old(own) && old(own)[u].Free?
    {
      hide Heaped, Sorted, Covers, Cut, Given;
      TakeFacts(ptr, size, l, live, own, j, n);
      a := p;
      ghost var ptr', size';
      ptr' := if l[j].s == n then ptr[prevp := ptr[p]] else ptr;
      size' := if l[j].s == n then size else size[p := l[j].s - n][CutAt(l[j], n) := n];
      CutHeap(ptr, size, l, live, own, j, n, ptr', size');
      if size[p] == n {
        ptr := ptr[prevp := ptr[p]];
      } else {
        size := size[p := size[p] - n];
        a := p + size[p];
        size := size[a := n];
      }
      freep := prevp;
      l := Cut(l, j, n);
      f := j - 1;
      live := live[a := n];
      own := Given(own, Blk(a, n), Live(a));
    }

    /** malloc's loop: the first block from freep on with n units, asking sbrk for more when it comes round to freep. */
    method Search(n: nat, grant: bool, brk: nat) returns (r: nat, ghost grew: bool)
      requires Valid() && freep != 0 && n >= 1 && (grant ==> brk > BASE && forall u :: u in own ==> u < brk)
      modifies this
      ensures Valid() && freep != 0
      ensures grew ==> grant
      ensures r == 0 <==> !grant && old(forall i :: 0 <= i < |l| ==> l[i].s < n)
      ensures r == 0 ==> !grew && live == old(live) && own == old(own)
      ensures r != 0 ==>
          var o := if grew then Given(old(own), Granted(brk, n), Owner.Free) else old(own);
          && r - 1 !in old(live) && live == old(live)[r - 1 := n] && own == Given(o, Blk(r - 1, n), Live(r - 1))
          && forall u :: InBlk(Blk(r - 1, n), u) ==> u in o && o[u].Free?
    {
      hide Ring, Covers, LiveOk, Heaped, Sorted, Passed, Given, Dist, Granted;
      var prevp := freep;
      ghost var l0 := l;
      grew := false;
      ghost var i: nat := f;
      PassNone(l, f, n);
      NodesAt(ptr, size, l, live, own, i);
      var p := ptr[prevp];
      while true
        invariant Valid() && freep != 0 && i < |l| && prevp == l[i].a && p == l[Next(l, i)].a
        invariant Heaped(ptr, size, l, live, own) && live == old(live)
        invariant own == if grew then Given(old(own), Granted(brk, n), Owner.Free) else old(own)
        invariant grew ==> grant && exists x :: 0 <= x < |l| && l[x].s >= n
        invariant !grew ==> l == l0
        invariant Passed(l, f, Next(l, i), n)
        decreases !grew, |l| - Dist(Next(l, f), Next(l, i), |l|)
      {
        ghost var j := Next(l, i);
        NodesAt(ptr, size, l, live, own, j);
        NodesAt(ptr, size, l, live, own, f);
        Distinct(ptr, size, l, live, own, j, f);
        if size[p] >= n {
          BasePassed(ptr, size, l, live, own, j, n);
          r := Take(p, prevp, n, j);
          r := r + 1;
          return;
        }
        PassOne(l, f, j, n);
        if p == freep {
          p := Morecore(n, grant, brk);
          if p == 0 {
            return 0, grew;
          }
          grew := true;
          j := f;
          PassNone(l, f, n);
          NodesAt(ptr, size, l, live, own, j);
        }
        prevp := p;
        i := j;
        p := ptr[p];
      }
    }

    /** Returns a block of enough units for nbytes, or 0 when no free block fits and sbrk refuses. */
    method Malloc(nbytes: nat, grant: bool, brk: nat) returns (r: nat, ghost grew: bool)
      requires Valid() && (grant ==> brk > BASE && forall u :: u in own ==> u < brk)
      modifies this
      ensures Valid() && freep != 0
      ensures grew ==> grant
      ensures r == 0 <==> !grant && old(freep != 0 ==> forall i :: 0 <= i < |l| ==> l[i].s < NUnits(nbytes))
      ensures r == 0 ==> live == old(live) && own == old(own)
      ensures r != 0 ==>
          var n := NUnits(nbytes);
          var o := if grew then Given(old(own), Granted(brk, n), Owner.Free) else old(own);
          && r - 1 !in old(live) && live == old(live)[r - 1 := n] && own == Given(o, Blk(r - 1, n), Live(r - 1))
          && forall u :: InBlk(Blk(r - 1, n), u) ==> u in o && o[u].Free?
      ensures own.Keys == old(own).Keys + if grew then Units(Granted(brk, NUnits(nbytes))) else {}
      ensures ListSize(l) + LiveSize(live) == |own| == |old(own)| + if grew then Granted(brk, NUnits(nbytes)).s else 0
    {
      hide Ring, Covers, LiveOk, Heaped, Sorted, Given, ListSize, LiveSize, Units, Granted;
      var n := NUnits(nbytes);
      if freep == 0 {
        ptr, size, freep := ptr[BASE := BASE], size[BASE := 0], BASE;
        l, f := [Blk(BASE, 0)], 0;
        EmptyHeap(ptr, size);
      }
      ghost var own0 := own;
      r, grew := Search(n, grant, brk);
      if r != 0 {
        MallocKeys(own0, if grew then Given(own0, Granted(brk, n), Owner.Free) else own0, brk, n, grew, Blk(r - 1, n));
      }
      SizesAddUp(ptr, size, l, live, own);
    }
  }

  // ----- malloc's search -----

  /** Every node from after freep up to, not including, node j is too small. */
  ghost predicate Passed(l: seq<Blk>, f: nat, j: nat, n: nat)
    requires f < |l| && j < |l|
  {
    forall x :: 0 <= x < |l| && Dist(Next(l, f), x, |l|) < Dist(Next(l, f), j, |l|) ==> l[x].s < n
  }

  lemma PassOne(l: seq<Blk>, f: nat, j: nat, n: nat)
    requires f < |l| && j < |l| && Passed(l, f, j, n) && l[j].s < n
    ensures j != f ==> Passed(l, f, Next(l, j), n) && Dist(Next(l, f), Next(l, j), |l|) == Dist(Next(l, f), j, |l|) + 1
    ensures j == f ==> forall x :: 0 <= x < |l| ==> l[x].s < n
    ensures Dist(Next(l, f), j, |l|) < |l|
  {
    forall x | 0 <= x < |l| && Dist(Next(l, f), x, |l|) <= Dist(Next(l, f), j, |l|)
      ensures l[x].s < n
    {
      assert x == j || Dist(Next(l, f), x, |l|) < Dist(Next(l, f), j, |l|);
    }
  }

  lemma PassNone(l: seq<Blk>, f: nat, n: nat)
    requires f < |l|
    ensures Passed(l, f, Next(l, f), n) && Dist(Next(l, f), Next(l, f), |l|) == 0
  {
  }

  /** Joining or not, the predecessor keeps its place and address. */
  lemma InsertedKeeps(l: seq<Blk>, k: nat, b: Blk)
    requires k < |l|
    ensures k < |Inserted(l, k, b)| && Inserted(l, k, b)[k].a == l[k].a
  {
  }

  lemma LinkFacts(ptr: map<nat, nat>, size: map<nat, nat>, l: seq<Blk>, live: map<nat, nat>, own: map<nat, Owner>,
                  k: nat, a: nat)
    requires Heaped(ptr, size, l, live, own) && a in live && Fits(l, k, Blk(a, live[a]))
    ensures Node(ptr, size, l, k) && Node(ptr, size, l, Next(l, k)) && a in size && size[a] == live[a]
    ensures a + live[a] == l[Next(l, k)].a <==> JoinsUp(l, k, Blk(a, live[a]))
    ensures BASE <= l[k].a
    ensures a != l[k].a && a != l[Next(l, k)].a && (JoinsUp(l, k, Blk(a, live[a])) ==> l[k].a != l[Next(l, k)].a)
  {
    assert 0 < k ==> l[0].a + l[0].s < l[k].a;
  }

  lemma PlaceOf(ptr: map<nat, nat>, size: map<nat, nat>, l: seq<Blk>, live: map<nat, nat>, own: map<nat, Owner>, a: nat)
    returns (k: nat)
    requires Heaped(ptr, size, l, live, own) && a in live
    ensures Fits(l, k, Blk(a, live[a])) && l[k].a < a && (k + 1 < |l| ==> a < l[k + 1].a)
  {
    var b := Blk(a, live[a]);
    assert InBlk(b, a);
    assert a in own && own[a] == Live(a);
    k := FindPlace(l, a, |l|);
    Place(l, own, b, k);
  }

  lemma NodesAt(ptr: map<nat, nat>, size: map<nat, nat>, l: seq<Blk>, live: map<nat, nat>, own: map<nat, Owner>, i: nat)
    requires Heaped(ptr, size, l, live, own) && i < |l|
    ensures Node(ptr, size, l, i) && l[i].a >= BASE
  {
    assert Node(ptr, size, l, i);
    assert 0 < i ==> l[0].a + l[0].s < l[i].a;
  }

  lemma Distinct(ptr: map<nat, nat>, size: map<nat, nat>, l: seq<Blk>, live: map<nat, nat>, own: map<nat, Owner>,
                 i: nat, j: nat)
    requires Heaped(ptr, size, l, live, own) && i < |l| && j < |l|
    ensures l[i].a == l[j].a <==> i == j
  {
  }

  lemma BasePassed(ptr: map<nat, nat>, size: map<nat, nat>, l: seq<Blk>, live: map<nat, nat>, own: map<nat, Owner>,
                   j: nat, n: nat)
    requires Heaped(ptr, size, l, live, own) && j < |l| && l[j].s >= n >= 1
    ensures j >= 1
  {
  }

  lemma EmptyHeap(ptr: map<nat, nat>, size: map<nat, nat>)
    requires BASE in ptr && ptr[BASE] == BASE && BASE in size && size[BASE] == 0
    ensures Heaped(ptr, size, [Blk(BASE, 0)], map[], map[])
  {
  }

  lemma LiveIn(size: map<nat, nat>, live: map<nat, nat>, own: map<nat, Owner>, a: nat)
    requires LiveOk(size, live, own) && a in live
    ensures a in own && own[a] == Live(a)
  {
    assert InBlk(Blk(a, live[a]), a);
  }

  lemma ListIn(l: seq<Blk>, own: map<nat, Owner>, i: nat)
    requires Sorted(l) && Covers(l, own) && 0 < i < |l|
    ensures l[i].a in own
  {
    assert InBlk(l[i], l[i].a);
    assert InList(l, l[i].a);
  }

  /** A fresh region above everything joins as one live block. */
  lemma GrowHeap(ptr: map<nat, nat>, size: map<nat, nat>, l: seq<Blk>, live: map<nat, nat>, own: map<nat, Owner>,
                 b: Blk)
    requires Heaped(ptr, size, l, live, own) && b.s >= 1 && b.a > BASE && forall u :: u in own ==> u < b.a
    ensures b.a !in live && Heaped(ptr, size[b.a := b.s], l, live[b.a := b.s], Given(own, b, Live(b.a)))
  {
    hide Sorted, Ring, Covers, LiveOk, Given;
    forall a | a in live
      ensures a < b.a
    {
      LiveIn(size, live, own, a);
    }
    GrowRing(ptr, size, l, own, b);
    GrowCovers(l, own, b);
    GrowLive(size, live, own, b);
  }

  lemma GrowRing(ptr: map<nat, nat>, size: map<nat, nat>, l: seq<Blk>, own: map<nat, Owner>, b: Blk)
    requires Sorted(l) && Ring(ptr, size, l) && Covers(l, own) && b.a > BASE && forall u :: u in own ==> u < b.a
    ensures Ring(ptr, size[b.a := b.s], l)
  {
    var size': map<nat, nat> := size[b.a := b.s];
    forall i | 0 <= i < |l|
      ensures Node(ptr, size', l, i)
    {
      assert Node(ptr, size, l, i);
      if i > 0 {
        ListIn(l, own, i);
      }
    }
  }

  lemma GrowCovers(l: seq<Blk>, own: map<nat, Owner>, b: Blk)
    requires Covers(l, own) && b.a > BASE && forall u :: u in own ==> u < b.a
    ensures Covers(l, Given(own, b, Live(b.a)))
  {
    hide InList;
  }

  lemma GrowLive(size: map<nat, nat>, live: map<nat, nat>, own: map<nat, Owner>, b: Blk)
    requires LiveOk(size, live, own) && b.s >= 1 && b.a !in live && forall u :: u in own ==> u < b.a
    ensures LiveOk(size[b.a := b.s], live[b.a := b.s], Given(own, b, Live(b.a)))
  {
    LiveFrame(size, live, own, size[b.a := b.s], live[b.a := b.s], Given(own, b, Live(b.a)), b, Live(b.a));
  }

  /** A run of free units lies in one listed block, so a fresh region makes a big one. */
  lemma BigRun(l: seq<Blk>, own: map<nat, Owner>, b: Blk)
    requires Sorted(l) && Covers(l, own) && b.s >= 1 && forall u :: InBlk(b, u) ==> u in own && own[u].Free?
    ensures exists i :: 0 <= i < |l| && l[i].s >= b.s
  {
    assert InBlk(b, b.a);
    assert InList(l, b.a);
    var i :| 0 <= i < |l| && InBlk(l[i], b.a);
    RunIn(l, own, b, i, b.s);
    assert InBlk(l[i], b.a + b.s - 1);
  }

  lemma {:induction false} RunIn(l: seq<Blk>, own: map<nat, Owner>, b: Blk, i: nat, n: nat)
    requires Sorted(l) && Covers(l, own) && forall u :: InBlk(b, u) ==> u in own && own[u].Free?
    requires i < |l| && InBlk(l[i], b.a) && 1 <= n <= b.s
    ensures InBlk(l[i], b.a + n - 1)
  {
    if n > 1 {
      RunIn(l, own, b, i, n - 1);
      var u := b.a + n - 1;
      assert InBlk(b, u);
      assert InList(l, u);
      var j :| 0 <= j < |l| && InBlk(l[j], u);
    }
  }

  // ----- what the invariant means -----

  /** Two live blocks share no unit, and a live block shares none with a listed one. */
  lemma BlocksApart(ptr: map<nat, nat>, size: map<nat, nat>, l: seq<Blk>, live: map<nat, nat>, own: map<nat, Owner>,
                    a: nat, b: nat, i: nat, u: nat)
    requires Heaped(ptr, size, l, live, own) && a in live && b in live && i < |l| && InBlk(Blk(a, live[a]), u)
    ensures InBlk(Blk(b, live[b]), u) ==> a == b
    ensures !InBlk(l[i], u)
  {
    assert u in own && own[u] == Live(a);
    assert InBlk(l[i], u) ==> InList(l, u);
  }

  // ----- conservation: the units of listed and live blocks are all that sbrk gave -----

  ghost function ListSize(l: seq<Blk>): nat {
    if l == [] then 0 else ListSize(l[..|l| - 1]) + l[|l| - 1].s
  }

  ghost function LiveSize(live: map<nat, nat>): nat
    decreases |live|
  {
    if live == map[] then 0 else var a :| a in live; live[a] + LiveSize(live - {a})
  }

  lemma {:induction false} UnitsCount(b: Blk)
    ensures |Units(b)| == b.s && forall u :: u in Units(b) <==> InBlk(b, u)
    decreases b.s
  {
    if b.s > 0 {
      var c := Blk(b.a, b.s - 1);
      UnitsCount(c);
      assert Units(b) == Units(c) + {b.a + b.s - 1};
    } else {
      assert Units(b) == {};
    }
  }

  lemma SizeOfUnion(a: set<nat>, b: set<nat>, c: set<nat>)
    requires a == b + c && b !! c
    ensures |a| == |b| + |c|
  {
  }

  /** Blocks in a row hold as many units as their sizes say. */
  lemma {:induction false} ListCount(l: seq<Blk>, units: set<nat>)
    requires forall i, j :: 0 <= i < j < |l| ==> l[i].a + l[i].s <= l[j].a
    requires forall u :: u in units <==> InList(l, u)
    ensures |units| == ListSize(l)
    decreases |l|
  {
    if l == [] {
      assert units == {};
    } else {
      var n := |l| - 1;
      var init, last := l[..n], Units(l[n]);
      UnitsCount(l[n]);
      var rest := units - last;
      forall u
        ensures u in rest <==> InList(init, u)
      {
        InListLast(l, u);
      }
      ListCount(init, rest);
      forall u | u in last
        ensures u in units
      {
        InListLast(l, u);
      }
      assert units == rest + last;
      SizeOfUnion(units, rest, last);
    }
  }

  lemma InListLast(l: seq<Blk>, u: nat)
    requires l != [] && forall i, j :: 0 <= i < j < |l| ==> l[i].a + l[i].s <= l[j].a
    ensures InList(l, u) <==> InList(l[..|l| - 1], u) || InBlk(l[|l| - 1], u)
    ensures InBlk(l[|l| - 1], u) ==> !InList(l[..|l| - 1], u)
  {
    var init := l[..|l| - 1];
    if InList(l, u) {
      var i :| 0 <= i < |l| && InBlk(l[i], u);
      assert i < |l| - 1 ==> InBlk(init[i], u);
    }
    if InList(init, u) {
      var i :| 0 <= i < |init| && InBlk(init[i], u);
      assert InBlk(l[i], u);
    }
  }

  ghost predicate InLive(live: map<nat, nat>, u: nat) {
    exists a :: a in live && InBlk(Blk(a, live[a]), u)
  }

  /** Live blocks that share no unit hold as many units as their sizes say. */
  lemma {:induction false} LiveCount(live: map<nat, nat>, units: set<nat>)
    requires forall a, b, u :: a in live && b in live && InBlk(Blk(a, live[a]), u) && InBlk(Blk(b, live[b]), u) ==>
      a == b
    requires forall u :: u in units <==> InLive(live, u)
    ensures |units| == LiveSize(live)
    decreases |live|
  {
    if live == map[] {
      assert units == {};
    } else {
      var a :| a in live && LiveSize(live) == live[a] + LiveSize(live - {a});
      var b := Blk(a, live[a]);
      UnitsCount(b);
      var rest := units - Units(b);
      forall u
        ensures u in rest <==> InLive(live - {a}, u)
      {
        LiveWithout(live, a, u);
      }
      assert (live - {a}).Keys == live.Keys - {a};
      LiveCount(live - {a}, rest);
      assert forall u :: u in Units(b) ==> InLive(live, u);
      assert units == rest + Units(b);
      SizeOfUnion(units, rest, Units(b));
    }
  }

  lemma LiveWithout(live: map<nat, nat>, a: nat, u: nat)
    requires forall a, b, u :: a in live && b in live && InBlk(Blk(a, live[a]), u) && InBlk(Blk(b, live[b]), u) ==>
      a == b
    requires a in live
    ensures InLive(live - {a}, u) <==> InLive(live, u) && !InBlk(Blk(a, live[a]), u)
  {
    if c :| c in live && InBlk(Blk(c, live[c]), u) {
      if c != a {
        assert c in live - {a} && InBlk(Blk(c, (live - {a})[c]), u);
      }
    }
    if c :| c in live - {a} && InBlk(Blk(c, (live - {a})[c]), u) {
      assert c in live && InBlk(Blk(c, live[c]), u);
    }
  }

  /** The sizes of the listed blocks and of the live ones add up to the units obtained from sbrk. */
  lemma SizesAddUp(ptr: map<nat, nat>, size: map<nat, nat>, l: seq<Blk>, live: map<nat, nat>, own: map<nat, Owner>)
    requires Heaped(ptr, size, l, live, own)
    ensures ListSize(l) + LiveSize(live) == |own|
  {
    hide Sorted, Ring, Covers, LiveOk;
    var free := set u | u in own && own[u].Free?;
    var taken := set u | u in own && own[u].Live?;
    FreeListed(l, own, free);
    LiveTaken(size, live, own, taken);
    assert own.Keys == free + taken;
    SizeOfUnion(own.Keys, free, taken);
  }

  lemma FreeListed(l: seq<Blk>, own: map<nat, Owner>, free: set<nat>)
    requires Sorted(l) && Covers(l, own) && forall u :: u in free <==> u in own && own[u].Free?
    ensures |free| == ListSize(l)
  {
    hide InList;
    ListCount(l, free);
  }

  lemma LiveTaken(size: map<nat, nat>, live: map<nat, nat>, own: map<nat, Owner>, taken: set<nat>)
    requires LiveOk(size, live, own) && forall u :: u in taken <==> u in own && own[u].Live?
    ensures |taken| == LiveSize(live)
  {
    forall a, b, u | a in live && b in live && InBlk(Blk(a, live[a]), u) && InBlk(Blk(b, live[b]), u)
      ensures a == b
    {
      assert own[u] == Live(a);
    }
    forall u
      ensures u in taken <==> InLive(live, u)
    {
      assert u in own && own[u].Live? ==> own[u].a in live && InBlk(Blk(own[u].a, live[own[u].a]), u);
    }
    LiveCount(live, taken);
  }

  lemma GivenKeys(own: map<nat, Owner>, b: Blk, who: Owner)
    ensures Given(own, b, who).Keys == own.Keys + Units(b)
    ensures (forall u :: InBlk(b, u) ==> u in own) ==> Given(own, b, who).Keys == own.Keys
  {
    UnitsCount(b);
  }

  lemma LiveUnits(size: map<nat, nat>, live: map<nat, nat>, own: map<nat, Owner>, a: nat)
    requires LiveOk(size, live, own) && a in live
    ensures forall u :: InBlk(Blk(a, live[a]), u) ==> u in own
  {
  }

  /** The units before and after a malloc: those it had, and those sbrk granted. */
  lemma MallocKeys(own0: map<nat, Owner>, own: map<nat, Owner>, brk: nat, n: nat, grew: bool, b: Blk)
    requires own == if grew then Given(own0, Granted(brk, n), Owner.Free) else own0
    requires grew ==> forall u :: u in own0 ==> u < brk
    requires forall u :: InBlk(b, u) ==> u in own
    ensures Given(own, b, Live(b.a)).Keys == own0.Keys + if grew then Units(Granted(brk, n)) else {}
    ensures |Given(own, b, Live(b.a))| == |own0| + if grew then Granted(brk, n).s else 0
  {
    var g := Granted(brk, n);
    GivenKeys(own, b, Live(b.a));
    GivenKeys(own0, g, Owner.Free);
    UnitsCount(g);
    if grew {
      SizeOfUnion(own.Keys, own0.Keys, Units(g));
    }
    assert |Given(own, b, Live(b.a)).Keys| == |own.Keys|;
  }

  /** Each listed block is a maximal run of free units: no two free blocks touch. */
  lemma MaximalRuns(l: seq<Blk>, own: map<nat, Owner>, i: nat, u: nat)
    requires Sorted(l) && Covers(l, own) && 0 < i < |l|
    ensures InBlk(l[i], u) ==> u in own && own[u].Free?
    ensures u + 1 == l[i].a || u == l[i].a + l[i].s ==> !(u in own && own[u].Free?)
  {
    assert InBlk(l[i], u) ==> InList(l, u);
    assert l[0].a + l[0].s < l[i].a;
    forall j | 0 <= j < |l|
      ensures u + 1 == l[i].a || u == l[i].a + l[i].s ==> !InBlk(l[j], u)
    {
    }
  }
}
