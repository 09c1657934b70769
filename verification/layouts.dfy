// Sizes, alignments and member offsets.

module Layouts {
  import opened Words
  import opened Allocations

  /** `(size + alignment - 1) & ~(alignment - 1)` for a power of two. */
  function RoundUp(size: nat, alignment: nat): nat
    requires alignment > 0
  {
    ((size + alignment - 1) / alignment) * alignment
  }

  function Max(a: nat, b: nat): nat { if a >= b then a else b }

  /** The layout of an aggregate with the given members. */
  function Aggregate(members: seq<Layout>): Layout
    requires forall k :: 0 <= k < |members| ==> members[k].alignment > 0
  {
    if members == [] then Layout(0, 1)
    else
      var before := Aggregate(members[..|members| - 1]);
      var last := members[|members| - 1];
      Layout(before.size + AlignOffset(before.size, last.alignment) + last.size,
             Max(before.alignment, last.alignment))
  }

  /** The offset of member `k`: the size of the aggregate that stops there, less the member itself. */
  function MemberOffset(members: seq<Layout>, k: nat): (offset: nat)
    requires k < |members|
    requires forall j :: 0 <= j < |members| ==> members[j].alignment > 0
  {
    Aggregate(members[..k + 1]).size - members[k].size
  }

  // ----- division -----

  lemma MulAtLeast(k: int, d: int)
    requires k >= 1 && d > 0
    ensures k * d >= d
  {
  }

  lemma DivMod(q: int, d: int, r: int)
    requires d > 0 && 0 <= r < d
    ensures (q * d + r) / d == q && (q * d + r) % d == r
  {
    var x := q * d + r;
    var p, s := x / d, x % d;
    assert x == d * p + s;
    assert (q - p) * d == s - r;
    if q > p {
      MulAtLeast(q - p, d);
    } else if q < p {
      assert (p - q) * d == r - s;
      MulAtLeast(p - q, d);
    }
  }

  /** The next multiple is a multiple, and it is less than one alignment away. */
  lemma AlignUp(address: nat, alignment: nat)
    requires alignment > 0
    ensures (address + AlignOffset(address, alignment)) % alignment == 0
    ensures AlignOffset(address, alignment) < alignment
  {
    var q, r := address / alignment, address % alignment;
    assert address == q * alignment + r;
    DivMod(q, alignment, r);
    if r != 0 {
      DivMod(q + 1, alignment, 0);
      assert address + AlignOffset(address, alignment) == (q + 1) * alignment + 0;
    }
  }

  // ----- aggregates and arrays -----

  predicate PositiveAlignments(members: seq<Layout>) {
    forall k :: 0 <= k < |members| ==> members[k].alignment > 0
  }

  /** `lauf_asm_aggregate_layout`. */
  method AggregateLayout(members: seq<Layout>) returns (layout: Layout)
    requires PositiveAlignments(members)
    ensures layout == Aggregate(members)
  {
    var size: nat, alignment: nat := 0, 1;
    for i := 0 to |members|
      invariant Layout(size, alignment) == Aggregate(members[..i])
    {
      assert members[..i + 1][..i] == members[..i];
      size := size + AlignOffset(size, members[i].alignment);
      size := size + members[i].size;
      if members[i].alignment > alignment {
        alignment := members[i].alignment;
      }
    }
    assert members[..|members|] == members;
    layout := Layout(size, alignment);
  }

  lemma PrefixOfPrefix<T>(s: seq<T>, i: nat, j: nat)
    requires i <= j <= |s|
    ensures s[..j][..i] == s[..i]
  {
  }

  /** Each member is aligned, and starts where the one before it ends or up to its alignment later. */
  lemma MembersInOrder(members: seq<Layout>, k: nat)
    requires PositiveAlignments(members) && k < |members|
    ensures MemberOffset(members, k) % members[k].alignment == 0
    ensures Aggregate(members[..k]).size <= MemberOffset(members, k)
         < Aggregate(members[..k]).size + members[k].alignment
    ensures MemberOffset(members, k) + members[k].size == Aggregate(members[..k + 1]).size
  {
    PrefixOfPrefix(members, k, k + 1);
    AlignUp(Aggregate(members[..k]).size, members[k].alignment);
  }

  lemma {:induction false} AggregateGrows(members: seq<Layout>, i: nat, j: nat)
    requires PositiveAlignments(members) && i <= j <= |members|
    ensures Aggregate(members[..i]).size <= Aggregate(members[..j]).size
    ensures Aggregate(members[..i]).alignment <= Aggregate(members[..j]).alignment
  {
    if i < j {
      AggregateGrows(members, i, j - 1);
      PrefixOfPrefix(members, j - 1, j);
    }
  }

  lemma MemberComesAfter(members: seq<Layout>, k: nat)
    requires PositiveAlignments(members) && k < |members|
    ensures Aggregate(members[..k]).size <= MemberOffset(members, k)
  {
    PrefixOfPrefix(members, k, k + 1);
  }

  /** Members do not overlap and lie inside the aggregate. */
  lemma MembersAreDisjoint(members: seq<Layout>, i: nat, j: nat)
    requires PositiveAlignments(members) && i < j < |members|
    ensures MemberOffset(members, i) + members[i].size <= MemberOffset(members, j)
    ensures MemberOffset(members, j) + members[j].size <= Aggregate(members).size
  {
    MemberComesAfter(members, j);
    AggregateGrows(members, i + 1, j);
    AggregateGrows(members, j + 1, |members|);
    assert members[..|members|] == members;
  }

  /** Appending members moves none of those that are there. */
  lemma AppendedMembersStay(members: seq<Layout>, more: seq<Layout>, i: nat)
    requires PositiveAlignments(members) && PositiveAlignments(members + more) && i < |members|
    ensures MemberOffset(members + more, i) == MemberOffset(members, i)
  {
    assert (members + more)[..i + 1] == members[..i + 1];
  }

  ghost predicate Divides(a: nat, b: nat) {
    a > 0 && exists q: nat :: Times(q, a) == b
  }

  function Times(q: nat, a: nat): nat { q * a }

  lemma DividesTrans(a: nat, b: nat, n: nat)
    requires Divides(a, b) && b > 0 && n % b == 0
    ensures n % a == 0
  {
    var q: nat :| Times(q, a) == b;
    var p := n / b;
    assert n == p * b == p * (q * a) == (p * q) * a + 0;
    DivMod(p * q, a, 0);
  }

  /** An alignment of the aggregate is at least one of its members, so for powers of two a multiple of
      every one of them. */
  ghost predicate DividesAll(members: seq<Layout>, alignment: nat) {
    forall k :: 0 <= k < |members| ==> Divides(members[k].alignment, alignment)
  }

  /** In an array whose base is aligned for the element, every member of every element is aligned. */
  lemma ArrayMembersAligned(members: seq<Layout>, base: nat, index: nat, k: nat)
    requires PositiveAlignments(members) && k < |members|
    requires Aggregate(members).alignment > 0 && DividesAll(members, Aggregate(members).alignment)
    requires base % Aggregate(members).alignment == 0
    ensures var stride := RoundUp(Aggregate(members).size, Aggregate(members).alignment);
            (base + index * stride + MemberOffset(members, k)) % members[k].alignment == 0
  {
    var alignment, a := Aggregate(members).alignment, members[k].alignment;
    var stride := RoundUp(Aggregate(members).size, alignment);
    StrideIsMultiple(index, Aggregate(members).size, alignment);
    DividesTrans(a, alignment, base);
    DividesTrans(a, alignment, index * stride);
    MembersInOrder(members, k);
    SumOfMultiples(base, index * stride, a);
    SumOfMultiples(base + index * stride, MemberOffset(members, k), a);
  }

  lemma StrideIsMultiple(index: nat, size: nat, alignment: nat)
    requires alignment > 0
    ensures index * RoundUp(size, alignment) >= 0
    ensures (index * RoundUp(size, alignment)) % alignment == 0
  {
    var blocks := (size + alignment - 1) / alignment;
    assert index * (blocks * alignment) == (index * blocks) * alignment + 0;
    DivMod(index * blocks, alignment, 0);
  }

  lemma SumOfMultiples(x: nat, y: nat, d: nat)
    requires d > 0 && x % d == 0 && y % d == 0
    ensures (x + y) % d == 0
  {
    var p, q := x / d, y / d;
    assert x == p * d + x % d && y == q * d + y % d;
    assert x + y == (p + q) * d + 0;
    DivMod(p + q, d, 0);
  }

  lemma {:induction false} PowersDivide(i: nat, j: nat)
    requires i <= j
    ensures Divides(Pow2(i), Pow2(j)) && Pow2(i) <= Pow2(j)
  {
    if i == j {
      assert Times(1, Pow2(i)) == Pow2(i);
    } else {
      PowersDivide(i, j - 1);
      var q: nat :| Times(q, Pow2(i)) == Pow2(j - 1);
      assert Times(2 * q, Pow2(i)) == 2 * Times(q, Pow2(i));
    }
  }

  ghost predicate HasExponent(n: nat, k: nat) { n == Pow2(k) }

  ghost predicate IsPowerOfTwo(n: nat) { exists e: nat :: HasExponent(n, e) }

  ghost predicate PowersOfTwo(members: seq<Layout>) {
    forall k :: 0 <= k < |members| ==> IsPowerOfTwo(members[k].alignment)
  }

  /** For power-of-two alignments the aggregate's is a power of two and a multiple of every member's. */
  lemma {:induction false} AggregateAlignment(members: seq<Layout>) returns (e: nat)
    requires PositiveAlignments(members) && PowersOfTwo(members)
    ensures Aggregate(members).alignment == Pow2(e) && DividesAll(members, Pow2(e))
  {
    if members == [] {
      e := 0;
    } else {
      var init, last := members[..|members| - 1], members[|members| - 1];
      forall k | 0 <= k < |init| ensures IsPowerOfTwo(init[k].alignment) && init[k].alignment > 0 {
        assert init[k] == members[k];
      }
      var d := AggregateAlignment(init);
      assert IsPowerOfTwo(last.alignment);
      var f: nat :| HasExponent(last.alignment, f);
      if d <= f {
        PowersDivide(d, f);
        e := f;
      } else {
        PowersDivide(f, d);
        e := d;
      }
      forall k | 0 <= k < |members| ensures Divides(members[k].alignment, Pow2(e)) {
        if k < |init| {
          assert Divides(init[k].alignment, Pow2(d));
          PowersDivide(d, e);
          DividesChain(members[k].alignment, Pow2(d), Pow2(e));
        } else {
          PowersDivide(f, e);
        }
      }
    }
  }

  lemma DividesChain(a: nat, b: nat, c: nat)
    requires Divides(a, b) && Divides(b, c)
    ensures Divides(a, c)
  {
    var p: nat :| Times(p, a) == b;
    var q: nat :| Times(q, b) == c;
    assert Times(q * p, a) == c by {
      assert q * (p * a) == (q * p) * a;
    }
  }
}
