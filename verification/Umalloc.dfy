/** malloc and free over a circular, address-ordered free list (Kernighan and Ritchie, 2nd ed., section 8.7).

    Addresses count Header units of 16 bytes. `ptr` and `size` are the two fields of the headers, by address;
    `base` is the address of the static header that starts the list, below every unit that sbrk returns. The
    ghost state is the free list as a sequence, the set of live blocks, and for every unit obtained from sbrk
    the block that it lies in. */
module Umalloc {
  const UNIT: nat := 16
  const MINUNITS: nat := 4096
  const INT32: nat := 0x8000_0000

  datatype Option<T> = None | Some(value: T)

  /** The header after the last one is base again. */
  ghost function Nth(order: seq<int>, i: int, base: int): int {
    if 0 <= i < |order| then order[i] else base
  }

  /** The circular list through `order` starts at base, ascends, and leaves a gap after every block. */
  ghost predicate ListOk(order: seq<int>, ptr: map<int, int>, size: map<int, nat>, base: int) {
    && |order| > 0 && order[0] == base
    && (forall i :: 0 <= i < |order| ==> order[i] in ptr && order[i] in size)
    && size[base] == 0 && (forall i {:trigger size[order[i]]} :: 1 <= i < |order| ==> size[order[i]] > 0)
    && (forall i {:trigger size[order[i]]} :: 0 <= i < |order| - 1 ==> order[i] + size[order[i]] < order[i + 1])
    && (forall i {:trigger ptr[order[i]]} :: 0 <= i < |order| ==> ptr[order[i]] == Nth(order, i + 1, base))
  }

  ghost predicate IsFree(order: seq<int>, base: int, b: int) {
    b in order && b != base
  }

  ghost predicate InBlock(order: seq<int>, live: set<int>, size: map<int, nat>, base: int, b: int, u: int) {
    (IsFree(order, base, b) || b in live) && b in size && b <= u < b + size[b]
  }

  /** Every unit lies in exactly one block, free or live. */
  ghost predicate CellsOk(order: seq<int>, live: set<int>, size: map<int, nat>, cell: map<int, int>, base: int) {
    && (forall b :: b in live ==> b in size && size[b] > 0 && b !in order && b > base)
    && (forall b, u :: InBlock(order, live, size, base, b, u) ==> u in cell && cell[u] == b)
    && (forall u :: u in cell ==> InBlock(order, live, size, base, cell[u], u) && u > base)
  }

  /** Conservation: the blocks, free and live together, are disjoint and make up exactly the units obtained. */
  lemma Partition(order: seq<int>, live: set<int>, size: map<int, nat>, cell: map<int, int>, base: int, b: int, c: int)
    requires CellsOk(order, live, size, cell, base) && b != c && b in size && c in size && size[b] > 0 && size[c] > 0
    requires (IsFree(order, base, b) || b in live) && (IsFree(order, base, c) || c in live)
    ensures b + size[b] <= c || c + size[c] <= b
    ensures forall u :: u in cell <==> exists a :: InBlock(order, live, size, base, a, u)
  {
    assert InBlock(order, live, size, base, b, b) && InBlock(order, live, size, base, c, c);
    assert b <= c < b + size[b] ==> InBlock(order, live, size, base, b, c);
    assert c <= b < c + size[c] ==> InBlock(order, live, size, base, c, b);
  }

  /** bp lies between order[j] and what follows it. */
  ghost predicate Between(order: seq<int>, j: int, bp: int) {
    0 <= j < |order| && order[j] < bp && (j + 1 < |order| ==> bp < order[j + 1])
  }

  /** Where bp belongs in the list. */
  ghost function Spot(order: seq<int>, bp: int): (t: nat)
    requires |order| > 0 && order[0] < bp && bp !in order && forall i, j :: 0 <= i < j < |order| ==> order[i] < order[j]
    ensures Between(order, t, bp) && forall i :: 0 <= i < |order| ==> (order[i] < bp <==> i <= t)
  {
    if order[|order| - 1] < bp then |order| - 1 else Spot(order[..|order| - 1], bp)
  }

  lemma {:induction false} Gaps(order: seq<int>, ptr: map<int, int>, size: map<int, nat>, base: int, i: nat, j: nat)
    requires ListOk(order, ptr, size, base) && i < j < |order|
    ensures order[i] + size[order[i]] < order[j]
    decreases j
  {
    if i + 1 < j { Gaps(order, ptr, size, base, i, j - 1); }
  }

  lemma Ascending(order: seq<int>, ptr: map<int, int>, size: map<int, nat>, base: int)
    requires ListOk(order, ptr, size, base)
    ensures forall i, j :: 0 <= i < j < |order| ==> order[i] < order[j]
  {
    forall i, j | 0 <= i < j < |order| ensures order[i] < order[j] { Gaps(order, ptr, size, base, i, j); }
  }

  lemma StepFrom(order: seq<int>, ptr: map<int, int>, size: map<int, nat>, base: int, j: nat)
    requires ListOk(order, ptr, size, base) && j < |order|
    ensures order[0] == base && order[j] in ptr && ptr[order[j]] == if j + 1 < |order| then order[j + 1] else base
  {
    assert ptr[order[j]] == Nth(order, j + 1, base);
  }

  // ---- free on the list: bp goes behind order[j], and may join either neighbour ------------------------

  /** order' is order with bp behind order[j]. */
  ghost predicate Behind(order: seq<int>, j: nat, bp: int, order': seq<int>) {
    && j < |order| && |order'| == |order| + 1
    && forall i {:trigger order'[i]} :: 0 <= i < |order'| ==> order'[i] == if i <= j then order[i] else if i == j + 1
                                                              then bp else order[i - 1]
  }

  lemma InsertLinks(order: seq<int>, ptr: map<int, int>, base: int, j: nat, bp: int, order': seq<int>,
                    ptr': map<int, int>, i: nat)
    requires Behind(order, j, bp, order') && i < |order'| && bp !in order
    requires forall k :: 0 <= k < |order| ==> order[k] in ptr
    requires forall k {:trigger ptr[order[k]]} :: 0 <= k < |order| ==> ptr[order[k]] == Nth(order, k + 1, base)
    requires forall k, l :: 0 <= k < l < |order| ==> order[k] < order[l]
    requires ptr' == ptr[bp := ptr[order[j]]][order[j] := bp]
    ensures order'[i] in ptr' && ptr'[order'[i]] == Nth(order', i + 1, base)
  {
    var k := if i <= j then i else i - 1;
    assert order[k] in ptr && ptr[order[k]] == Nth(order, k + 1, base);
  }

  lemma InsertAlone(order: seq<int>, ptr: map<int, int>, size: map<int, nat>, base: int, j: nat, bp: int,
                    order': seq<int>)
    requires ListOk(order, ptr, size, base) && Between(order, j, bp) && bp in size && size[bp] > 0 && bp !in order
    requires order[j] + size[order[j]] < bp && (j + 1 < |order| ==> bp + size[bp] < order[j + 1])
    requires Behind(order, j, bp, order')
    ensures ListOk(order', ptr[bp := ptr[order[j]]][order[j] := bp], size, base)
  {
    Ascending(order, ptr, size, base);
    var ptr' := ptr[bp := ptr[order[j]]][order[j] := bp];
    forall i | 0 <= i < |order'| ensures order'[i] in ptr' && ptr'[order'[i]] == Nth(order', i + 1, base) {
      InsertLinks(order, ptr, base, j, bp, order', ptr', i);
    }
    hide Nth;
    forall i | 0 <= i < |order'|
      ensures order'[i] in size && (i > 0 ==> size[order'[i]] > 0)
      ensures (i + 1 < |order'| ==> order'[i] + size[order'[i]] < order'[i + 1])
    {
      InsertGaps(order, size, j, bp, order', i);
    }
    assert order'[0] == order[0];
    hide Behind;
  }

  lemma InsertGaps(order: seq<int>, size: map<int, nat>, j: nat, bp: int, order': seq<int>, i: nat)
    requires Behind(order, j, bp, order') && i < |order'| && bp in size && size[bp] > 0
    requires forall k :: 0 <= k < |order| ==> order[k] in size
    requires forall k {:trigger size[order[k]]} :: 1 <= k < |order| ==> size[order[k]] > 0
    requires forall k {:trigger size[order[k]]} :: 0 <= k < |order| - 1 ==> order[k] + size[order[k]] < order[k + 1]
    requires order[j] + size[order[j]] < bp && (j + 1 < |order| ==> bp + size[bp] < order[j + 1])
    ensures order'[i] in size && (i > 0 ==> size[order'[i]] > 0)
    ensures (i + 1 < |order'| ==> order'[i] + size[order'[i]] < order'[i + 1])
  {
    var k := if i <= j then i else i - 1;
    assert order[k] in size && (k > 0 ==> size[order[k]] > 0);
    assert k + 1 < |order| ==> order[k] + size[order[k]] < order[k + 1];
  }

  /** Fields of a header that is not on the list do not matter. */
  lemma OffList(order: seq<int>, ptr: map<int, int>, size: map<int, nat>, base: int, b: int, x: int, n: nat)
    requires ListOk(order, ptr, size, base) && b !in order
    ensures ListOk(order, ptr[b := x], size, base) && ListOk(order, ptr, size[b := n], base)
    ensures ListOk(order, ptr[b := x], size[b := n], base)
  {
  }

  /** A block may grow as long as it leaves a gap. */
  lemma Resize(order: seq<int>, ptr: map<int, int>, size: map<int, nat>, base: int, j: nat, n: nat)
    requires ListOk(order, ptr, size, base) && 1 <= j < |order| && n > 0
    requires (j + 1 < |order| ==> order[j] + n < order[j + 1])
    ensures ListOk(order, ptr, size[order[j] := n], base)
  {
    Ascending(order, ptr, size, base);
  }

  lemma InsertUp(order: seq<int>, ptr: map<int, int>, size: map<int, nat>, base: int, j: nat, bp: int)
    requires ListOk(order, ptr, size, base) && Between(order, j, bp) && bp in size && size[bp] > 0 && bp !in order
    requires order[j] + size[order[j]] < bp && j + 1 < |order| && bp + size[bp] == order[j + 1]
    ensures ListOk(order[j + 1 := bp], ptr[bp := ptr[order[j + 1]]][order[j] := bp],
                   size[bp := size[bp] + size[order[j + 1]]], base)
  {
    Ascending(order, ptr, size, base);
    var order', ptr' := order[j + 1 := bp], ptr[bp := ptr[order[j + 1]]][order[j] := bp];
    forall i | 0 <= i < |order'| ensures order'[i] in ptr' && ptr'[order'[i]] == Nth(order', i + 1, base) {
      assert ptr[order[i]] == Nth(order, i + 1, base);
    }
  }

  lemma InsertDown(order: seq<int>, ptr: map<int, int>, size: map<int, nat>, base: int, j: nat, bp: int)
    requires ListOk(order, ptr, size, base) && Between(order, j, bp) && bp in size && size[bp] > 0 && bp !in order
    requires j > 0
    requires order[j] + size[order[j]] == bp && (j + 1 < |order| ==> bp + size[bp] < order[j + 1])
    ensures ListOk(order, ptr[bp := ptr[order[j]]][order[j] := ptr[order[j]]],
                   size[order[j] := size[order[j]] + size[bp]], base)
  {
    OffList(order, ptr, size, base, bp, ptr[order[j]], 0);
    var ptr' := ptr[bp := ptr[order[j]]];
    assert ptr'[order[j] := ptr[order[j]]] == ptr';
    Resize(order, ptr', size, base, j, size[order[j]] + size[bp]);
  }

  lemma AfterDrop(order: seq<int>, ptr: map<int, int>, size: map<int, nat>, base: int, j: nat, bp: int,
                  order': seq<int>)
    requires ListOk(order, ptr, size, base) && j + 1 < |order| && DroppedAt(order, j + 1, order') && bp !in order
    ensures |order'| == |order| - 1 && order'[j] == order[j] && (j + 1 < |order'| ==> order'[j + 1] == order[j + 2])
    ensures bp !in order'
    ensures order[j + 1] in ptr && order[j + 1] in size && order[j] in ptr && order[j] in size && size[order[j + 1]] > 0
    ensures j + 2 < |order| ==> order[j + 1] + size[order[j + 1]] < order[j + 2]
  {
    assert size[order[j + 1]] > 0;
  }

  lemma InsertBoth(order: seq<int>, ptr: map<int, int>, size: map<int, nat>, base: int, j: nat, bp: int,
                   order': seq<int>)
    requires ListOk(order, ptr, size, base) && Between(order, j, bp) && bp in size && size[bp] > 0 && bp !in order
    requires j > 0
    requires order[j] + size[order[j]] == bp && j + 1 < |order| && bp + size[bp] == order[j + 1]
    requires DroppedAt(order, j + 1, order')
    ensures var up := order[j + 1];
            ListOk(order', ptr[bp := ptr[up]][order[j] := ptr[up]],
                   size[bp := size[bp] + size[up]][order[j] := size[order[j]] + size[bp] + size[up]], base)
  {
    hide ListOk, DroppedAt;
    var up := order[j + 1];
    RemoveExact(order, ptr, size, base, j + 1, order');
    AfterDrop(order, ptr, size, base, j, bp, order');
    var ptr1, size1 := ptr[order[j] := ptr[up]], size[order[j] := size[order[j]] + size[bp] + size[up]];
    Resize(order', ptr1, size, base, j, size1[order[j]]);
    OffList(order', ptr1, size1, base, bp, ptr[up], size[bp] + size[up]);
    assert ptr[bp := ptr[up]][order[j] := ptr[up]] == ptr1[bp := ptr[up]];
    assert size[bp := size[bp] + size[up]][order[j] := size1[order[j]]] == size1[bp := size[bp] + size[up]];
  }

  /** order' is order without order[k]. */
  ghost predicate DroppedAt(order: seq<int>, k: nat, order': seq<int>) {
    && k < |order| && |order'| == |order| - 1
    && forall i {:trigger order'[i]} :: 0 <= i < |order'| ==> order'[i] == if i < k then order[i] else order[i + 1]
  }

  /** The list after free, and the block that bp becomes part of. */
  ghost function Inserted(order: seq<int>, j: nat, bp: int, up: bool, down: bool): seq<int>
    requires j < |order| && (up ==> j + 1 < |order|)
  {
    if down then (if up then order[..j + 1] + order[j + 2..] else order)
    else if up then order[j + 1 := bp] else order[..j + 1] + [bp] + order[j + 1..]
  }

  ghost function Joined(b: int, p: int, bp: int, u: int, up: bool, down: bool): int {
    if b == bp || (up && b == u) then (if down then p else bp) else b
  }

  /** Freeing moves the units of bp, and of an absorbed neighbour, to the joined block. */
  lemma FreeCells(order: seq<int>, live: set<int>, size: map<int, nat>, cell: map<int, int>, base: int, j: nat, bp: int,
                  up: bool, down: bool, order': seq<int>, size': map<int, nat>)
    requires CellsOk(order, live, size, cell, base) && bp in live && j < |order| && (up ==> j + 1 < |order|)
    requires base in order
    requires forall i, k :: 0 <= i < k < |order| ==> order[i] != order[k]
    requires order[0] == base && forall i :: 0 <= i < |order| ==> order[i] in size
    requires order' == Inserted(order, j, bp, up, down)
    requires up ==> bp + size[bp] == order[j + 1]
    requires down ==> order[j] + size[order[j]] == bp && order[j] != base
    requires size'.Keys == size.Keys
    requires var nb := if down then order[j] else bp;
             && size'[nb] == size[bp] + (if up then size[order[j + 1]] else 0) + (if down then size[order[j]] else 0)
             && forall b :: b in size && b != nb && b != bp ==> size'[b] == size[b]
    ensures CellsOk(order', live - {bp}, size', map x | x in cell ::
                      Joined(cell[x], order[j], bp, if up then order[j + 1] else bp, up, down), base)
  {
    var u := if up then order[j + 1] else bp;
    var p := order[j];
    var nb := if down then p else bp;
    var live' := live - {bp};
    var cell' := map x | x in cell :: Joined(cell[x], p, bp, u, up, down);
    forall b ensures IsFree(order', base, b) <==> (IsFree(order, base, b) && !(up && b == u)) || (!down && b == bp) {
      InsertedMembers(order, j, bp, up, down, b);
    }
    forall b, x | InBlock(order', live', size', base, b, x) ensures x in cell' && cell'[x] == b {
      var o := if b != nb then b else if x < bp then p else if up && x >= u then u else bp;
      assert InBlock(order, live, size, base, o, x);
    }
    forall x | x in cell' ensures InBlock(order', live', size', base, cell'[x], x) && x > base {
      assert InBlock(order, live, size, base, cell[x], x);
    }
  }

  lemma InsertedMembers(order: seq<int>, j: nat, bp: int, up: bool, down: bool, b: int)
    requires j < |order| && (up ==> j + 1 < |order|) && forall i, k :: 0 <= i < k < |order| ==> order[i] != order[k]
    requires bp !in order
    ensures b in Inserted(order, j, bp, up, down) <==> (b in order && !(up && b == order[j + 1])) || (!down && b == bp)
  {
    var r := Inserted(order, j, bp, up, down);
    assert order == order[..j + 1] + order[j + 1..];
    if up { assert order[j + 1..] == [order[j + 1]] + order[j + 2..]; }
    if up && !down { assert r == order[..j + 1] + [bp] + order[j + 2..]; }
  }

  // ---- malloc on the list -------------------------------------------------------------------------------

  lemma RemoveExact(order: seq<int>, ptr: map<int, int>, size: map<int, nat>, base: int, k: nat, order': seq<int>)
    requires ListOk(order, ptr, size, base) && 1 <= k < |order|
    requires DroppedAt(order, k, order')
    ensures ListOk(order', ptr[order[k - 1] := ptr[order[k]]], size, base)
  {
    Ascending(order, ptr, size, base);
    var ptr' := ptr[order[k - 1] := ptr[order[k]]];
    forall i | 0 <= i < |order'| ensures order'[i] in ptr' && ptr'[order'[i]] == Nth(order', i + 1, base) {
      var o := if i < k - 1 then i else i + 1;
      assert ptr[order[o]] == Nth(order, o + 1, base);
      assert order'[i] == order[if i < k then i else i + 1];
      assert i + 1 < |order'| ==> order'[i + 1] == order[o + 1];
    }
    forall i | 0 <= i < |order'| ensures order'[i] in size && (i >= 1 ==> size[order'[i]] > 0) {
      assert order'[i] == order[if i < k then i else i + 1];
    }
    forall i | 0 <= i < |order'| - 1 ensures order'[i] + size[order'[i]] < order'[i + 1] {
      var a, b := if i < k then i else i + 1, if i + 1 < k then i + 1 else i + 2;
      Gaps(order, ptr, size, base, a, b);
      assert order'[i] == order[a] && order'[i + 1] == order[b];
    }
  }

  lemma ExactCells(order: seq<int>, live: set<int>, size: map<int, nat>, cell: map<int, int>, base: int, k: nat)
    requires CellsOk(order, live, size, cell, base) && 1 <= k < |order| && order[k] in size && size[order[k]] > 0
    requires order[0] == base
    requires forall i, j :: 0 <= i < j < |order| ==> order[i] < order[j]
    ensures CellsOk(order[..k] + order[k + 1..], live + {order[k]}, size, cell, base)
  {
    var order', live' := order[..k] + order[k + 1..], live + {order[k]};
    assert order == order[..k] + [order[k]] + order[k + 1..];
    forall b, x ensures InBlock(order', live', size, base, b, x) <==> InBlock(order, live, size, base, b, x) {
    }
  }

  lemma ShrinkList(order: seq<int>, ptr: map<int, int>, size: map<int, nat>, base: int, k: nat, n: nat, q: int)
    requires ListOk(order, ptr, size, base) && 1 <= k < |order| && n < size[order[k]] && q !in order
    ensures ListOk(order, ptr, size[order[k] := size[order[k]] - n][q := n], base)
  {
    assert k + 1 < |order| ==> order[k] + size[order[k]] < order[k + 1];
    Resize(order, ptr, size, base, k, size[order[k]] - n);
    OffList(order, ptr, size[order[k] := size[order[k]] - n], base, q, 0, n);
  }

  ghost function TailCells(cell: map<int, int>, q: int, n: nat): (r: map<int, int>)
    ensures r.Keys == cell.Keys
  {
    map x | x in cell :: if q <= x < q + n then q else cell[x]
  }

  lemma SplitCells(order: seq<int>, live: set<int>, size: map<int, nat>, cell: map<int, int>, base: int, k: nat, n: nat)
    requires CellsOk(order, live, size, cell, base) && 1 <= k < |order| && order[k] in size && 0 < n < size[order[k]]
    requires order[0] == base
    requires forall i :: 1 <= i < |order| ==> order[i] in size && size[order[i]] > 0
    requires forall i, j :: 0 <= i < j < |order| ==> order[i] < order[j]
    ensures var q := order[k] + size[order[k]] - n;
            && q !in order && q !in live
            && CellsOk(order, live + {q}, size[order[k] := size[order[k]] - n][q := n],
                       TailCells(cell, q, n), base)
  {
    var p := order[k];
    var q := p + size[p] - n;
    assert IsFree(order, base, p);
    assert InBlock(order, live, size, base, p, q);
    assert q in live ==> InBlock(order, live, size, base, q, q);
    assert q in order ==> IsFree(order, base, q) && InBlock(order, live, size, base, q, q);
    var size' := size[p := size[p] - n][q := n];
    var cell' := TailCells(cell, q, n);
    forall b, x | InBlock(order, live + {q}, size', base, b, x) ensures x in cell' && cell'[x] == b {
      assert InBlock(order, live, size, base, if b == q then p else b, x);
      assert q <= x < q + n ==> InBlock(order, live, size, base, p, x);
    }
    forall x | x in cell' ensures InBlock(order, live + {q}, size', base, cell'[x], x) && x > base {
      assert InBlock(order, live, size, base, cell[x], x);
      if q <= x < q + n { assert InBlock(order, live, size, base, p, x); }
    }
  }

  /** A live block overlaps neither of the free blocks around it. */
  lemma NoOverlap(order: seq<int>, ptr: map<int, int>, live: set<int>, size: map<int, nat>, cell: map<int, int>,
                  base: int, j: nat, bp: int)
    requires ListOk(order, ptr, size, base) && CellsOk(order, live, size, cell, base) && Between(order, j, bp)
    requires bp in live
    ensures order[j] + size[order[j]] <= bp && (order[j] + size[order[j]] == bp ==> j > 0)
    ensures j + 1 < |order| ==> bp + size[bp] <= order[j + 1]
  {
    Ascending(order, ptr, size, base);
    assert InBlock(order, live, size, base, bp, bp);
    if j > 0 && order[j] + size[order[j]] > bp {
      assert InBlock(order, live, size, base, order[j], bp);
    }
    if j + 1 < |order| && bp + size[bp] > order[j + 1] {
      assert size[order[j + 1]] > 0;
      assert InBlock(order, live, size, base, bp, order[j + 1]) &&
          InBlock(order, live, size, base, order[j + 1], order[j + 1]);
    }
  }

  ghost function JoinedCells(cell: map<int, int>, p: int, bp: int, u: int, up: bool, down: bool): (r: map<int, int>)
    ensures r.Keys == cell.Keys
  {
    map x | x in cell :: Joined(cell[x], p, bp, u, up, down)
  }

  /** The two header updates of free, with both tests. */
  ghost predicate Freed(ptr: map<int, int>, size: map<int, nat>, p: int, bp: int, up: bool, down: bool,
                        ptr': map<int, int>, size': map<int, nat>) {
    && p in ptr && p in size && bp in size && (up ==> ptr[p] in ptr && ptr[p] in size)
    && ptr' == (if up then ptr[bp := ptr[ptr[p]]][p := if down then ptr[ptr[p]] else bp]
                else ptr[bp := ptr[p]][p := if down then ptr[p] else bp])
    && var n := size[bp] + (if up then size[ptr[p]] else 0);
       size' == if down then (if up then size[bp := n][p := size[p] + n] else size[p := size[p] + n])
                else if up then size[bp := n] else size
  }

  /** What free finds around the place of bp. */
  lemma Around(order: seq<int>, ptr: map<int, int>, live: set<int>, size: map<int, nat>, cell: map<int, int>, base: int,
               j: nat, bp: int)
    requires ListOk(order, ptr, size, base) && CellsOk(order, live, size, cell, base) && Between(order, j, bp)
    requires bp in live
    ensures order[j] in ptr && order[j] in size && bp in size && size[bp] > 0 && bp !in order && bp > base
    ensures ptr[order[j]] == Nth(order, j + 1, base) && ptr[order[j]] in ptr && ptr[order[j]] in size
    ensures order[j] >= base
    ensures order[j] + size[order[j]] <= bp && (order[j] + size[order[j]] == bp ==> j > 0)
    ensures j + 1 < |order| ==> bp + size[bp] <= order[j + 1]
  {
    NoOverlap(order, ptr, live, size, cell, base, j, bp);
    if j > 0 { Gaps(order, ptr, size, base, 0, j); }
  }

  lemma BehindIs(order: seq<int>, j: nat, bp: int)
    requires j < |order|
    ensures Behind(order, j, bp, order[..j + 1] + [bp] + order[j + 1..])
  {
  }

  lemma DroppedIs(order: seq<int>, k: nat)
    requires k < |order|
    ensures DroppedAt(order, k, order[..k] + order[k + 1..])
  {
  }

  lemma FreeKeepsList(order: seq<int>, ptr: map<int, int>, live: set<int>, size: map<int, nat>, cell: map<int, int>,
                      base: int, j: nat, bp: int,
                      up: bool, down: bool, ptr': map<int, int>, size': map<int, nat>)
    requires ListOk(order, ptr, size, base) && CellsOk(order, live, size, cell, base) && Between(order, j, bp)
    requires bp in live
    requires bp in size && j < |order| && order[j] in size
    requires up == (bp + size[bp] == Nth(order, j + 1, base)) && down == (order[j] + size[order[j]] == bp)
    requires Freed(ptr, size, order[j], bp, up, down, ptr', size')
    ensures (up ==> j + 1 < |order|) && ListOk(Inserted(order, j, bp, up, down), ptr', size', base)
  {
    hide ListOk, CellsOk, Behind, DroppedAt;
    Around(order, ptr, live, size, cell, base, j, bp);
    if down {
      if up {
        DroppedIs(order, j + 1);
        InsertBoth(order, ptr, size, base, j, bp, order[..j + 1] + order[j + 2..]);
      } else {
        InsertDown(order, ptr, size, base, j, bp);
      }
    } else {
      if up {
        InsertUp(order, ptr, size, base, j, bp);
      } else {
        BehindIs(order, j, bp);
        InsertAlone(order, ptr, size, base, j, bp, order[..j + 1] + [bp] + order[j + 1..]);
      }
    }
  }

  lemma FreeKeepsCells(order: seq<int>, ptr: map<int, int>, live: set<int>, size: map<int, nat>, cell: map<int, int>,
                       base: int, j: nat, bp: int,
                       up: bool, down: bool, ptr': map<int, int>, size': map<int, nat>)
    requires ListOk(order, ptr, size, base) && CellsOk(order, live, size, cell, base) && Between(order, j, bp)
    requires bp in live
    requires up == (bp + size[bp] == Nth(order, j + 1, base)) && down == (order[j] + size[order[j]] == bp)
    requires (up ==> j + 1 < |order|)
    requires Freed(ptr, size, order[j], bp, up, down, ptr', size')
    ensures CellsOk(Inserted(order, j, bp, up, down), live - {bp}, size',
                    JoinedCells(cell, order[j], bp, if up then order[j + 1] else bp, up, down), base)
    ensures forall b :: b in live && b != bp ==> b in size' && size'[b] == size[b]
  {
    NoOverlap(order, ptr, live, size, cell, base, j, bp);
    Ascending(order, ptr, size, base);
    assert ptr[order[j]] == Nth(order, j + 1, base);
    hide ListOk;
    FreeCells(order, live, size, cell, base, j, bp, up, down, Inserted(order, j, bp, up, down), size');
  }

  lemma FreeBlock(order: seq<int>, size: map<int, nat>, base: int, j: nat, bp: int, up: bool, down: bool,
                  ptr: map<int, int>, ptr': map<int, int>, size': map<int, nat>)
    requires ListOk(order, ptr, size, base) && Between(order, j, bp) && bp in size
    requires (down ==> j > 0 && order[j] + size[order[j]] == bp) && (up ==> j + 1 < |order|)
    requires Freed(ptr, size, order[j], bp, up, down, ptr', size')
    ensures var r, b := Inserted(order, j, bp, up, down), if down then order[j] else bp;
            && order[j] in r && IsFree(r, base, b) && b in size' && b <= bp && bp + size[bp] <= b + size'[b]
  {
    var r := Inserted(order, j, bp, up, down);
    Ascending(order, ptr, size, base);
    assert r[j] == order[j];
    assert !down ==> r[j + 1] == bp;
  }

  /** hp lies above everything obtained so far. */
  ghost predicate Above(base: int, cell: map<int, int>, hp: int) {
    hp > base && forall u :: u in cell ==> u < hp
  }

  ghost function Span(hp: int, nu: nat): (s: set<int>)
    ensures forall x :: x in s <==> hp <= x < hp + nu
  {
    if nu == 0 then {} else Span(hp, nu - 1) + {hp + nu - 1}
  }

  /** The units morecore obtains. */
  ghost function CoreUnits(hp: int, nunits: nat): set<int> {
    Span(hp, CoreSize(nunits))
  }

  ghost function Extended(cell: map<int, int>, hp: int, nu: nat): (r: map<int, int>)
    ensures r.Keys == cell.Keys + Span(hp, nu)
  {
    map x | x in cell.Keys + Span(hp, nu) :: if hp <= x < hp + nu then hp else cell[x]
  }

  /** Units fresh from sbrk make one more live block. */
  lemma NewCells(order: seq<int>, ptr: map<int, int>, live: set<int>, size: map<int, nat>, cell: map<int, int>,
                 base: int, hp: int, nu: nat)
    requires ListOk(order, ptr, size, base) && CellsOk(order, live, size, cell, base) && Above(base, cell, hp) && nu > 0
    ensures hp !in order && hp !in live && ListOk(order, ptr, size[hp := nu], base)
    ensures CellsOk(order, live + {hp}, size[hp := nu], Extended(cell, hp, nu), base)
  {
    forall b | IsFree(order, base, b) || b in live
      ensures b in size && size[b] > 0 && InBlock(order, live, size, base, b, b)
    {
      if b in order {
        var i :| 0 <= i < |order| && order[i] == b;
        assert size[order[i]] > 0;
      }
    }
    OffList(order, ptr, size, base, hp, 0, nu);
    var size', cell' := size[hp := nu], Extended(cell, hp, nu);
    forall b, x | InBlock(order, live + {hp}, size', base, b, x) ensures x in cell' && cell'[x] == b {
      assert b != hp ==> InBlock(order, live, size, base, b, x);
    }
    forall x | x in cell' ensures InBlock(order, live + {hp}, size', base, cell'[x], x) && x > base {
      assert x < hp ==> InBlock(order, live, size, base, cell[x], x);
    }
  }

  /** No block of the list has n units. */
  ghost predicate NoneFits(order: seq<int>, size: map<int, nat>, n: nat) {
    forall i :: 0 <= i < |order| && order[i] in size ==> size[order[i]] < n
  }

  lemma LiveSized(order: seq<int>, live: set<int>, size: map<int, nat>, cell: map<int, int>, base: int)
    requires CellsOk(order, live, size, cell, base)
    ensures forall b :: b in live ==> b in size
  {
  }

  lemma FitsNow(order: seq<int>, size: map<int, nat>, base: int, bp: int, n: nat, nunits: nat)
    requires exists b :: IsFree(order, base, b) && b in size && b <= bp && bp + n <= b + size[b]
    requires nunits <= n
    ensures !NoneFits(order, size, nunits)
  {
    var b :| IsFree(order, base, b) && b in size && b <= bp && bp + n <= b + size[b];
    var i :| 0 <= i < |order| && order[i] == b;
    assert size[order[i]] >= nunits;
  }

  /** Position e, counted round the circle from the header after position f. */
  ghost function Round(f: nat, e: nat, n: nat): (i: int)
    requires f < n && e < n
    ensures 0 <= i < n && (i == f <==> e == n - 1)
  {
    if f + 1 + e < n then f + 1 + e else f + 1 + e - n
  }

  /** p is the header e steps after the one behind position f, and prevp the one before it. */
  ghost predicate Here(order: seq<int>, f: nat, e: nat, p: int, prevp: int) {
    && f < |order| && e < |order| && p == order[Round(f, e, |order|)]
    && prevp == order[if Round(f, e, |order|) == 0 then |order| - 1 else Round(f, e, |order|) - 1]
  }

  /** The first e blocks after position f are too small. */
  ghost predicate Small(order: seq<int>, size: map<int, nat>, n: nat, f: nat, e: nat) {
    f < |order| && e <= |order| && forall d: nat :: d < e && order[Round(f, d, |order|)] in size ==>
                                                    size[order[Round(f, d, |order|)]] < n
  }

  /** Next fit: the blocks from the one after freep on are looked at in the order of the list, r points behind
      the header of the tail of the first that has n units, and the search will go on in front of it. */
  ghost predicate NextFit(order: seq<int>, size: map<int, nat>, freep: int, n: nat, f: nat, e: nat, r: int,
                          freep': int) {
    && f < |order| && order[f] == freep && e < |order| && Small(order, size, n, f, e)
    && var p := order[Round(f, e, |order|)];
       p in size && size[p] >= n && r == p + size[p] - n + 1 && Here(order, f, e, p, freep')
  }

  lemma Standing(order: seq<int>, f: nat, e: nat, p: int, prevp: int)
    requires f < |order| && e < |order| && Here(order, f, e, p, prevp)
    ensures var k := Round(f, e, |order|); p == order[k] && (k > 0 ==> prevp == order[k - 1])
  {
  }

  lemma FitsNext(order: seq<int>, size: map<int, nat>, freep: int, n: nat, f: nat, e: nat, p: int, prevp: int)
    requires f < |order| && order[f] == freep && Small(order, size, n, f, e) && Here(order, f, e, p, prevp)
    requires p in size && size[p] >= n
    ensures NextFit(order, size, freep, n, f, e, p + size[p] - n + 1, prevp)
  {
  }

  /** One step of malloc's walk, from position f itself when e is -1. */
  lemma Advance(order: seq<int>, ptr: map<int, int>, size: map<int, nat>, base: int, f: nat, e: int, p: int)
    requires ListOk(order, ptr, size, base) && f < |order| && -1 <= e < |order| - 1
    requires p == order[if e < 0 then f else Round(f, e, |order|)]
    ensures p in ptr && Here(order, f, e + 1, ptr[p], p)
  {
    StepFrom(order, ptr, size, base, if e < 0 then f else Round(f, e, |order|));
  }

  lemma NoneYet(order: seq<int>, size: map<int, nat>, n: nat, f: nat)
    requires f < |order|
    ensures Small(order, size, n, f, 0)
  {
  }

  lemma SmallMore(order: seq<int>, size: map<int, nat>, n: nat, f: nat, e: nat)
    requires Small(order, size, n, f, e) && e < |order| && order[Round(f, e, |order|)] in size
    requires size[order[Round(f, e, |order|)]] < n
    ensures Small(order, size, n, f, e + 1)
  {
  }

  lemma FitsHere(order: seq<int>, size: map<int, nat>, n: nat, k: nat)
    requires k < |order| && order[k] in size && size[order[k]] >= n
    ensures !NoneFits(order, size, n)
  {
  }

  lemma AllSmall(order: seq<int>, size: map<int, nat>, n: nat, f: nat)
    requires Small(order, size, n, f, |order|)
    ensures NoneFits(order, size, n)
  {
    forall i | 0 <= i < |order| && order[i] in size ensures size[order[i]] < n {
      var d := RoundAll(f, |order|, i);
    }
  }

  lemma RoundAll(f: nat, n: nat, i: nat) returns (e: nat)
    requires f < n && i < n
    ensures e < n && Round(f, e, n) == i
  {
    e := if i > f then i - f - 1 else i - f - 1 + n;
  }

  /** (nbytes + sizeof(Header) - 1) / sizeof(Header) + 1: room for the header and for nbytes. */
  function Units(nbytes: nat): (n: nat)
    ensures n >= 1 && (n - 1) * UNIT >= nbytes && (n - 1) * UNIT < nbytes + UNIT
  {
    (nbytes + UNIT - 1) / UNIT + 1
  }

  /** The int that sbrk gets for nu units: nu * sizeof(Header) cut to 32 bits. */
  function SbrkArgument(nu: nat): int {
    var x := nu * UNIT % (2 * INT32);
    if x < INT32 then x else x - 2 * INT32
  }

  /** The units morecore asks for. */
  function CoreSize(nunits: nat): nat {
    if nunits < MINUNITS then MINUNITS else nunits
  }

  /** sbrk is asked for what malloc needs exactly when that is below 2^31 bytes, and for less otherwise. */
  lemma SbrkExact(nu: nat)
    ensures SbrkArgument(nu) == nu * UNIT <==> nu * UNIT < INT32
    ensures SbrkArgument(nu) <= nu * UNIT && SbrkArgument(nu) % UNIT == 0
  {
    var q := nu * UNIT / (2 * INT32);
    assert SbrkArgument(nu) == UNIT * (nu - q * 0x1000_0000) ||
        SbrkArgument(nu) == UNIT * (nu - q * 0x1000_0000 - 0x1000_0000);
  }

  /** The largest request: malloc wants 2^28 + 1 units, and asks sbrk for one. */
  lemma LargestRequest()
    ensures Units(0xFFFF_FFFF) == 0x1000_0001 && SbrkArgument(CoreSize(Units(0xFFFF_FFFF))) == UNIT
  {
  }

  /** The units a program has after sbrk(n) returned hp: n bytes more, or those from the lowered break on gone. A break
      below 0 is a large size to uvmdealloc, which then releases nothing. */
  ghost function AfterSbrk(obtained: set<int>, hp: int, n: int): set<int> {
    if n >= 0 then obtained + Span(hp, n / UNIT)
    else if hp + n / UNIT < 0 then obtained
    else set u | u in obtained && u < hp + n / UNIT
  }

  /** The units that morecore links are the units that the program has exactly when the request fits an int. */
  lemma LinksWhatItGot(obtained: set<int>, hp: int, nu: nat)
    requires nu > 0 && forall u :: u in obtained ==> u < hp
    ensures obtained + Span(hp, nu) == AfterSbrk(obtained, hp, SbrkArgument(nu)) <==> nu * UNIT < INT32
  {
    SbrkExact(nu);
    var n := SbrkArgument(nu);
    if n < nu * UNIT {
      assert n / UNIT < nu;
      assert hp + nu - 1 in obtained + Span(hp, nu) && hp + nu - 1 !in AfterSbrk(obtained, hp, n);
    }
  }

  class Heap {
    const base: int
    var freep: int
    var ptr: map<int, int>
    var size: map<int, nat>
    ghost var order: seq<int>
    ghost var live: set<int>
    ghost var cell: map<int, int>
    ghost var obtained: set<int>

    /** The blocks, free and live, make up exactly the units obtained from sbrk. */
    ghost predicate Backed()
      reads this
    {
      cell.Keys == obtained
    }

    ghost predicate Valid()
      reads this
    {
      && base > 0
      && (freep == 0 ==> order == [] && live == {} && cell == map[])
      && (freep != 0 ==> ListOk(order, ptr, size, base) && freep in order && CellsOk(order, live, size, cell, base))
    }

    /** Static storage: freep is null. */
    constructor (base: int)
      requires base > 0
      ensures Valid() && Backed() && live == {} && cell == map[] && freep == 0
    {
      this.base := base;
      freep, ptr, size := 0, map[], map[];
      order, live, cell, obtained := [], {}, map[], {};
    }

    /** The search of free: it stops, at the one place where bp belongs. */
    method FindSpot(bp: int) returns (p: int, ghost j: nat)
      requires ListOk(order, ptr, size, base) && freep in order && bp > base && bp !in order
      ensures Between(order, j, bp) && p == order[j]
    {
      hide ListOk, Nth;
      Ascending(order, ptr, size, base);
      StepFrom(order, ptr, size, base, 0);
      ghost var f :| 0 <= f < |order| && order[f] == freep;
      StepFrom(order, ptr, size, base, f);
      ghost var t := Spot(order, bp);
      p := freep;
      j := f;
      while !(bp > p && bp < ptr[p])
        invariant 0 <= j < |order| && p == order[j] && p in ptr
        invariant ptr[p] == if j + 1 < |order| then order[j + 1] else base
        decreases if j <= t then t - j else t - j + |order|
      {
        if p >= ptr[p] && (bp > p || bp < ptr[p]) {
          break;
        }
        p := ptr[p];
        j := if j + 1 < |order| then j + 1 else 0;
        StepFrom(order, ptr, size, base, j);
      }
    }

    lemma InUse(bp: int)
      requires Valid() && bp in live
      ensures freep != 0 && ListOk(order, ptr, size, base) && bp > base && bp !in order && freep in order && bp in size
    {
    }

    /** The two joins of free. */
    method Relink(p: int, bp: int)
      requires p in ptr && p in size && bp in size && ptr[p] in ptr && ptr[p] in size && p != bp && ptr[p] != bp
      modifies this`ptr, this`size
      ensures Freed(old(ptr), old(size), p, bp, bp + old(size)[bp] == old(ptr)[p], p + old(size)[p] == bp, ptr, size)
    {
      if bp + size[bp] == ptr[p] {
        size := size[bp := size[bp] + size[ptr[p]]];
        ptr := ptr[bp := ptr[ptr[p]]];
      } else {
        ptr := ptr[bp := ptr[p]];
      }
      if p + size[p] == bp {
        size := size[p := size[p] + size[bp]];
        ptr := ptr[p := ptr[bp]];
      } else {
        ptr := ptr[p := bp];
      }
    }

    /** free: the block leaves the live set and joins its free neighbours; all other live blocks stay, and no
        unit is lost. The next search starts at the block below it. */
    method Free(bp: int)
      requires Valid() && bp in live
      modifies this`freep, this`ptr, this`size, this`order, this`live, this`cell
      ensures Valid() && freep != 0 && live == old(live) - {bp} && cell.Keys == old(cell).Keys
      ensures forall b :: b in live ==> b in old(size) && b in size && size[b] == old(size)[b]
      ensures exists j :: Between(old(order), j, bp) && freep == old(order)[j]
      ensures exists b :: IsFree(order, base, b) && b in size && bp in old(size) && b <= bp &&
                          bp + old(size)[bp] <= b + size[b]
    {
      hide ListOk, CellsOk, Inserted, IsFree, Freed;
      InUse(bp);
      var p;
      ghost var j;
      p, j := FindSpot(bp);
      Around(order, ptr, live, size, cell, base, j, bp);
      ghost var up, down := bp + size[bp] == ptr[p], p + size[p] == bp;
      Relink(p, bp);
      freep := p;
      FreeKeepsList(order, old(ptr), live, old(size), cell, base, j, bp, up, down, ptr, size);
      FreeKeepsCells(order, old(ptr), live, old(size), cell, base, j, bp, up, down, ptr, size);
      FreeBlock(order, old(size), base, j, bp, up, down, old(ptr), ptr, size);
      cell := JoinedCells(cell, p, bp, if up then order[j + 1] else bp, up, down);
      order, live := Inserted(order, j, bp, up, down), live - {bp};
    }

    /** morecore: at least 4096 units from sbrk, handed to free. `brk` is what sbrk returns. */
    method Morecore(nunits: nat, brk: Option<int>) returns (p: int)
      requires Valid() && freep != 0 && nunits > 0 && (brk.Some? ==> Above(base, cell, brk.value))
      modifies this
      ensures Valid() && freep != 0 && live == old(live)
      ensures forall b :: b in live ==> b in old(size) && b in size && size[b] == old(size)[b]
      ensures brk.None? ==> p == 0 && order == old(order) && ptr == old(ptr) && size == old(size)
      ensures brk.None? ==> cell == old(cell) && freep == old(freep) && obtained == old(obtained)
      ensures brk.Some? ==> p == freep && !NoneFits(order, size, nunits)
      ensures brk.Some? ==> cell.Keys == old(cell).Keys + CoreUnits(brk.value, nunits)
      ensures brk.Some? && old(Backed()) ==> (Backed() <==> nunits * UNIT < INT32)
    {
      hide ListOk, CellsOk, IsFree, AfterSbrk, SbrkArgument;
      var nu := nunits;
      if nu < MINUNITS {
        nu := MINUNITS;
      }
      LiveSized(order, live, size, cell, base);
      if brk.None? {
        return 0;
      }
      var hp := brk.value;
      obtained := AfterSbrk(obtained, hp, SbrkArgument(nu));
      if old(Backed()) { LinksWhatItGot(old(obtained), hp, nu); }
      NewCells(order, ptr, live, size, cell, base, hp, nu);
      size := size[hp := nu];
      cell, live := Extended(cell, hp, nu), live + {hp};
      Free(hp);
      FitsNow(order, size, base, hp, nu, nunits);
      p := freep;
      assert live == old(live);
    }

    /** Taking n units from block p = order[k], the one after prevp: all of it, or its tail. */
    method Carve(prevp: int, p: int, n: nat, ghost k: nat) returns (b: int)
      requires Valid() && freep != 0 && 1 <= k < |order| && p == order[k] && prevp == order[k - 1] && p in size
      requires p in ptr && 0 < n <= size[p]
      modifies this`freep, this`ptr, this`size, this`order, this`live, this`cell
      ensures Valid() && freep == prevp && freep != 0 && b in size && size[b] == n && b > base
      ensures b !in old(live) && live == old(live) + {b} && cell.Keys == old(cell).Keys && b == p + old(size)[p] - n
      ensures forall c :: c in old(live) ==> c in old(size) && c in size && size[c] == old(size)[c]
    {
      hide ListOk, CellsOk;
      LiveSized(order, live, size, cell, base);
      CarveFacts(k);
      if size[p] == n {
        DroppedIs(order, k);
        RemoveExact(order, ptr, size, base, k, order[..k] + order[k + 1..]);
        ExactCells(order, live, size, cell, base, k);
        ptr := ptr[prevp := ptr[p]];
        order, live := order[..k] + order[k + 1..], live + {p};
        assert order[k - 1] == prevp;
        b := p;
      } else {
        SplitCells(order, live, size, cell, base, k, n);
        ShrinkList(order, ptr, size, base, k, n, p + size[p] - n);
        size := size[p := size[p] - n];
        b := p + size[p];
        size := size[b := n];
        cell, live := TailCells(cell, b, n), live + {b};
      }
      freep := prevp;
    }

    lemma CarveFacts(k: nat)
      requires Valid() && freep != 0 && 1 <= k < |order|
      ensures (forall i, j :: 0 <= i < j < |order| ==> order[i] < order[j]) && order[0] == base && order[k - 1] != 0
      ensures forall i :: 1 <= i < |order| ==> order[i] in size && size[order[i]] > 0
      ensures order[k] !in live && order[k] > base
    {
      Ascending(order, ptr, size, base);
      forall i | 1 <= i < |order| ensures order[i] in size && size[order[i]] > 0 {
        assert size[order[i]] > 0;
      }
    }

    /** The first malloc makes a list of base alone. */
    method Start(ghost n: nat)
      requires Valid() && n > 0
      modifies this`freep, this`ptr, this`size, this`order
      ensures Valid() && freep != 0 && live == old(live) && cell == old(cell)
      ensures NoneFits(order, size, n) <==> old(NoneFits(order, size, n))
      ensures forall b :: b in live ==> b in old(size) && b in size && size[b] == old(size)[b]
      ensures if old(freep) == 0 then old(NoneFits(order, size, n))
              else freep == old(freep) && order == old(order) && size == old(size)
    {
      if freep == 0 {
        ptr := ptr[base := base];
        freep := base;
        size := size[base := 0];
        order := [base];
      } else {
        LiveSized(order, live, size, cell, base);
      }
    }

    lemma At(k: nat)
      requires Valid() && freep != 0 && k < |order|
      ensures order[k] in ptr && order[k] in size && ptr[order[k]] == Nth(order, k + 1, base) && order[0] == base
      ensures size[base] == 0
      ensures (order[k] == freep ==> order[k] != 0) && forall i :: 0 <= i < |order| && order[i] == order[k] ==> i == k
    {
      Ascending(order, ptr, size, base);
    }

    /** malloc: a block of just enough units that was free, or null when no free block is large enough and sbrk fails.
        It asks sbrk at most once, and only when no block is large enough; otherwise the block is the next that fits.
        `brk` is what sbrk returns. */
    method Malloc(nbytes: nat, brk: Option<int>) returns (r: int, ghost calls: nat)
      requires Valid() && nbytes < 2 * INT32 && (brk.Some? ==> Above(base, cell, brk.value))
      modifies this
      ensures Valid() && calls <= 1 && (calls == 1 <==> old(NoneFits(order, size, Units(nbytes))))
      ensures old(Backed()) ==>
                (Backed() <==>
                   !(brk.Some? && old(NoneFits(order, size, Units(nbytes))) && Units(nbytes) * UNIT >= INT32))
      ensures forall b :: b in old(live) ==> b in old(size) && b in size && size[b] == old(size)[b]
      ensures r == 0 ==> brk.None? && live == old(live) && cell == old(cell) && NoneFits(order, size, Units(nbytes))
      ensures r != 0 ==>
                r - 1 !in old(live) && live == old(live) + {r - 1} && r - 1 in size && size[r - 1] == Units(nbytes)
      ensures r != 0 ==> nbytes <= UNIT * (size[r - 1] - 1) && UNIT * size[r - 1] < nbytes + 2 * UNIT
      ensures calls == 0 ==>
                exists f, e :: NextFit(old(order), old(size), old(freep), Units(nbytes), f, e, r, freep)
      ensures cell.Keys == if calls == 1 && brk.Some?
              then old(cell).Keys + CoreUnits(brk.value, Units(nbytes)) else old(cell).Keys
    {
      hide ListOk, CellsOk, Above, Units, CoreUnits, Small, NoneFits, NextFit, Here;
      var nunits := Units(nbytes);
      Start(nunits);
      calls := 0;
      var prevp := freep;
      ghost var f :| 0 <= f < |order| && order[f] == freep;
      Advance(order, ptr, size, base, f, -1, prevp);
      var p := ptr[prevp];
      ghost var e := 0;
      NoneYet(order, size, nunits, f);
      while true
        invariant Valid() && freep != 0 && live == old(live) && calls <= 1 && f < |order| && order[f] == freep
        invariant e < |order|
        invariant Here(order, f, e, p, prevp) && Small(order, size, nunits, f, e)
        invariant forall b :: b in live ==> b in old(size) && b in size && size[b] == old(size)[b]
        invariant calls == 0 ==> cell == old(cell) && obtained == old(obtained)
        invariant calls == 0 && old(freep) != 0 ==> freep == old(freep) && order == old(order) && size == old(size)
        invariant calls == 0 && old(freep) == 0 ==> old(NoneFits(order, size, nunits))
        invariant calls == 0 ==> (NoneFits(order, size, nunits) <==> old(NoneFits(order, size, nunits)))
        invariant calls == 1 ==> !NoneFits(order, size, nunits) && brk.Some? && old(NoneFits(order, size, nunits))
        invariant calls == 1 ==> cell.Keys == old(cell).Keys + CoreUnits(brk.value, nunits)
        invariant calls == 1 && old(Backed()) ==> (Backed() <==> nunits * UNIT < INT32)
        decreases 1 - calls, |order| - e
      {
        ghost var k := Round(f, e, |order|);
        Standing(order, f, e, p, prevp);
        At(k);
        if size[p] >= nunits {
          FitsHere(order, size, nunits, k);
          r := Carve(prevp, p, nunits, k);
          r := r + 1;
          if calls == 0 { FitsNext(old(order), old(size), old(freep), nunits, f, e, p, prevp); }
          return;
        }
        SmallMore(order, size, nunits, f, e);
        if p == freep {
          AllSmall(order, size, nunits, f);
          p := Morecore(nunits, brk);
          if p == 0 {
            return 0, 1;
          }
          calls := calls + 1;
          f :| 0 <= f < |order| && order[f] == freep;
          e := 0;
          NoneYet(order, size, nunits, f);
        } else {
          e := e + 1;
        }
        prevp := p;
        Advance(order, ptr, size, base, f, e - 1, p);
        p := ptr[p];
      }
    }
  }
}
