/** Intrusive doubly linked lists in raw memory, as the heap and the buddy allocator keep them.

    A node is a header stored at an address; 0 is the null pointer. The two allocators use the
    remaining header word differently (a block count, an order), so it is called `tag` here.
 */
module Links {

  datatype Node = Node(tag: int, next: int, prev: int)

  type Memory = map<int, Node>

  function At(xs: seq<int>, i: int): int {
    if 0 <= i < |xs| then xs[i] else 0
  }

  ghost predicate Distinct(xs: seq<int>) {
    && 0 !in xs
    && forall i, j :: 0 <= i < j < |xs| ==> xs[i] != xs[j]
  }

  /** The header of element `i` is in memory and points at both neighbours. */
  ghost predicate Placed(mem: Memory, xs: seq<int>, i: int)
    requires 0 <= i < |xs|
  {
    xs[i] in mem && mem[xs[i]].next == At(xs, i + 1) && mem[xs[i]].prev == At(xs, i - 1)
  }

  ghost predicate Linked(head: int, mem: Memory, xs: seq<int>) {
    && head == At(xs, 0)
    && forall i :: 0 <= i < |xs| ==> Placed(mem, xs, i)
  }

  /** if (a) a->next = v; */
  function SetNext(mem: Memory, a: int, v: int): (r: Memory)
    requires a == 0 || a in mem
    ensures r.Keys == mem.Keys
    ensures forall b :: b in mem ==> r[b].tag == mem[b].tag
    ensures forall b :: b in mem && b != a ==> r[b] == mem[b]
  {
    if a == 0 then mem else mem[a := mem[a].(next := v)]
  }

  /** if (a) a->prev = v; */
  function SetPrev(mem: Memory, a: int, v: int): (r: Memory)
    requires a == 0 || a in mem
    ensures r.Keys == mem.Keys
    ensures forall b :: b in mem ==> r[b].tag == mem[b].tag
    ensures forall b :: b in mem && b != a ==> r[b] == mem[b]
  {
    if a == 0 then mem else mem[a := mem[a].(prev := v)]
  }

  /** The neighbours `prev` and `next` are made to point at each other. */
  function Bridge(mem: Memory, prev: int, next: int): (r: Memory)
    requires prev == 0 || prev in mem
    requires next == 0 || next in mem
    ensures r.Keys == mem.Keys
    ensures forall b :: b in mem ==> r[b].tag == mem[b].tag
  {
    SetPrev(SetNext(mem, prev, next), next, prev)
  }

  /** The neighbours `prev` and `next` are both made to point at `x`. */
  function Adopt(mem: Memory, prev: int, x: int, next: int): (r: Memory)
    requires prev == 0 || prev in mem
    requires next == 0 || next in mem
    ensures r.Keys == mem.Keys
    ensures forall b :: b in mem && (b == 0 || (b != prev && b != next)) ==> r[b] == mem[b]
  {
    SetPrev(SetNext(mem, prev, x), next, x)
  }

  function Without(xs: seq<int>, i: nat): seq<int>
    requires i < |xs|
  {
    xs[..i] + xs[i + 1..]
  }

  function With(xs: seq<int>, k: nat, x: int): seq<int>
    requires k <= |xs|
  {
    xs[..k] + [x] + xs[k..]
  }

  lemma WithoutAt(xs: seq<int>, i: nat, j: int)
    requires i < |xs|
    ensures At(Without(xs, i), j) == if j < i then At(xs, j) else At(xs, j + 1)
  {
  }

  lemma WithAt(xs: seq<int>, k: nat, x: int, j: int)
    requires k <= |xs|
    ensures At(With(xs, k, x), j) == if j < k then At(xs, j) else if j == k then x else At(xs, j - 1)
  {
  }

  lemma WithNeighbours(xs: seq<int>, k: nat, x: int)
    requires k <= |xs|
    ensures At(xs, k - 1) == 0 || At(xs, k - 1) in With(xs, k, x)
    ensures At(xs, k) == 0 || At(xs, k) in With(xs, k, x)
  {
    var ys := With(xs, k, x);
    assert k > 0 ==> ys[k - 1] == xs[k - 1];
    assert k < |xs| ==> ys[k + 1] == xs[k];
  }

  lemma WithoutDistinct(xs: seq<int>, i: nat)
    requires Distinct(xs) && i < |xs|
    ensures Distinct(Without(xs, i))
    ensures forall x :: x in Without(xs, i) <==> x in xs && x != xs[i]
  {
    var ys := Without(xs, i);
    forall x | x in xs && x != xs[i] ensures x in ys {
      var k :| 0 <= k < |xs| && xs[k] == x;
      assert ys[if k < i then k else k - 1] == x;
    }
  }

  lemma WithDistinct(xs: seq<int>, k: nat, x: int)
    requires Distinct(xs) && k <= |xs| && x != 0 && x !in xs
    ensures Distinct(With(xs, k, x))
  {
  }

  lemma NeighboursAreMapped(mem: Memory, xs: seq<int>, i: int)
    requires Linked(At(xs, 0), mem, xs)
    ensures At(xs, i) == 0 || At(xs, i) in mem
  {
    if 0 <= i < |xs| {
      assert Placed(mem, xs, i);
    }
  }

  lemma BridgeRemoves(mem: Memory, xs: seq<int>, i: nat)
    requires Distinct(xs) && i < |xs| && Linked(At(xs, 0), mem, xs)
    ensures Distinct(Without(xs, i))
    ensures At(xs, i - 1) == 0 || At(xs, i - 1) in mem
    ensures At(xs, i + 1) == 0 || At(xs, i + 1) in mem
    ensures Linked(At(Without(xs, i), 0), Bridge(mem, At(xs, i - 1), At(xs, i + 1)), Without(xs, i))
  {
    var ys := Without(xs, i);
    WithoutDistinct(xs, i);
    var prev, next := At(xs, i - 1), At(xs, i + 1);
    NeighboursAreMapped(mem, xs, i - 1);
    NeighboursAreMapped(mem, xs, i + 1);
    var m := SetNext(mem, prev, next);
    forall j | 0 <= j < |ys|
      ensures Placed(SetPrev(m, next, prev), ys, j)
    {
      WithoutAt(xs, i, j - 1);
      WithoutAt(xs, i, j);
      WithoutAt(xs, i, j + 1);
      var k := if j < i then j else j + 1;
      assert ys[j] == xs[k];
      assert Placed(mem, xs, k);
      assert m[xs[k]].next == At(ys, j + 1) && m[xs[k]].prev == At(xs, k - 1);
    }
  }

  lemma AdoptInserts(mem: Memory, xs: seq<int>, k: nat, x: int)
    requires Distinct(xs) && k <= |xs| && Linked(At(xs, 0), mem, xs)
    requires x != 0 && x !in xs && x in mem
    requires mem[x].next == At(xs, k) && mem[x].prev == At(xs, k - 1)
    ensures Distinct(With(xs, k, x))
    ensures At(xs, k - 1) == 0 || At(xs, k - 1) in mem
    ensures At(xs, k) == 0 || At(xs, k) in mem
    ensures Linked(At(With(xs, k, x), 0), Adopt(mem, At(xs, k - 1), x, At(xs, k)), With(xs, k, x))
  {
    var ys := With(xs, k, x);
    WithDistinct(xs, k, x);
    var prev, next := At(xs, k - 1), At(xs, k);
    NeighboursAreMapped(mem, xs, k - 1);
    NeighboursAreMapped(mem, xs, k);
    var m := SetNext(mem, prev, x);
    forall j | 0 <= j < |ys|
      ensures Placed(SetPrev(m, next, x), ys, j)
    {
      WithAt(xs, k, x, j - 1);
      WithAt(xs, k, x, j);
      WithAt(xs, k, x, j + 1);
      if j != k {
        var i := if j < k then j else j - 1;
        assert ys[j] == xs[i];
        assert Placed(mem, xs, i);
        assert m[xs[i]].next == At(ys, j + 1) && m[xs[i]].prev == At(xs, i - 1);
      }
    }
  }

  lemma AdoptReplaces(mem: Memory, xs: seq<int>, i: nat, x: int)
    requires Distinct(xs) && i < |xs| && Linked(At(xs, 0), mem, xs)
    requires x != 0 && x !in xs && x in mem
    requires mem[x].next == At(xs, i + 1) && mem[x].prev == At(xs, i - 1)
    ensures Distinct(xs[i := x])
    ensures At(xs, i - 1) == 0 || At(xs, i - 1) in mem
    ensures At(xs, i + 1) == 0 || At(xs, i + 1) in mem
    ensures Linked(At(xs[i := x], 0), Adopt(mem, At(xs, i - 1), x, At(xs, i + 1)), xs[i := x])
  {
    var ys := xs[i := x];
    var prev, next := At(xs, i - 1), At(xs, i + 1);
    NeighboursAreMapped(mem, xs, i - 1);
    NeighboursAreMapped(mem, xs, i + 1);
    var m := SetNext(mem, prev, x);
    forall j | 0 <= j < |ys|
      ensures Placed(SetPrev(m, next, x), ys, j)
    {
      if j != i {
        assert Placed(mem, xs, j);
        assert m[xs[j]].next == At(ys, j + 1) && m[xs[j]].prev == At(xs, j - 1);
      }
    }
  }

  /** A list does not notice a header written outside it. */
  lemma LinkedFrame(head: int, mem: Memory, a: int, node: Node, xs: seq<int>)
    requires Linked(head, mem, xs) && a !in xs
    ensures Linked(head, mem[a := node], xs)
  {
    var mem' := mem[a := node];
    forall i | 0 <= i < |xs| ensures Placed(mem', xs, i) {
      assert Placed(mem, xs, i);
    }
  }

  /** Nor does it notice a new tag on one of its own headers. */
  lemma LinkedRetag(head: int, mem: Memory, a: int, tag: int, xs: seq<int>)
    requires Linked(head, mem, xs) && a in mem
    ensures Linked(head, mem[a := mem[a].(tag := tag)], xs)
  {
    var mem' := mem[a := mem[a].(tag := tag)];
    forall i | 0 <= i < |xs| ensures Placed(mem', xs, i) {
      assert Placed(mem, xs, i);
    }
  }

  /** Memory with a new header `x` linked in front of `head`. */
  function Pushed(mem: Memory, head: int, x: int, tag: int): (r: Memory)
    requires head == 0 || head in mem
    ensures r.Keys == mem.Keys + {x} && r[x].tag == tag
    ensures forall b :: b in mem && b != x ==> r[b].tag == mem[b].tag
  {
    SetPrev(mem[x := Node(tag, head, 0)], head, x)
  }

  lemma PushedOwn(mem: Memory, xs: seq<int>, x: int, tag: int)
    requires Distinct(xs) && Linked(At(xs, 0), mem, xs) && x != 0 && x !in xs
    ensures At(xs, 0) == 0 || At(xs, 0) in mem
    ensures Distinct([x] + xs) && Linked(x, Pushed(mem, At(xs, 0), x, tag), [x] + xs)
  {
    var node := Node(tag, At(xs, 0), 0);
    LinkedFrame(At(xs, 0), mem, x, node, xs);
    AdoptInserts(mem[x := node], xs, 0, x);
    NeighboursAreMapped(mem, xs, 0);
    assert With(xs, 0, x) == [x] + xs;
  }

  /** A header pushed in front of `h` is not noticed by a list that holds neither. */
  lemma PushedOther(mem: Memory, head: int, xs: seq<int>, h: int, x: int, tag: int)
    requires Linked(head, mem, xs) && x !in xs && h !in xs && (h == 0 || h in mem)
    ensures Linked(head, Pushed(mem, h, x, tag), xs)
  {
    var more := Pushed(mem, h, x, tag);
    forall i | 0 <= i < |xs| ensures Placed(more, xs, i) {
      assert Placed(mem, xs, i) && xs[i] in xs;
    }
  }
}
