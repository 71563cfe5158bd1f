/** Cell <-> hillslope bookkeeping of `Basin` and `SimuBasin`. The ownership
    vector `hills_own` (1-based hillslope id per cell) is produced by the `cu`
    kernels and is an input; its length is the cell count. */
module Hillslopes {

  /** `Transform_Hills2Basin`: start from a vector of ones with one entry per
      cell, and for the i-th hillslope write its value into every cell whose
      owner is `i + 1`. */
  method HillsToCells(hillsOwn: seq<int>, hillsMap: seq<real>) returns (cellMap: seq<real>)
    ensures |cellMap| == |hillsOwn|
    ensures forall c :: 0 <= c < |hillsOwn| && 1 <= hillsOwn[c] <= |hillsMap| ==>
      cellMap[c] == hillsMap[hillsOwn[c] - 1]
    ensures forall c :: 0 <= c < |hillsOwn| && !(1 <= hillsOwn[c] <= |hillsMap|) ==>
      cellMap[c] == 1.0
    ensures forall k :: 1 <= k <= |hillsMap| && k in hillsOwn ==>
      (set c | 0 <= c < |hillsOwn| && hillsOwn[c] == k :: cellMap[c]) == {hillsMap[k - 1]}
  {
    var n := |hillsOwn|;
    var a := new real[n](_ => 1.0);
    var i := 0;
    while i < |hillsMap|
      invariant 0 <= i <= |hillsMap|
      invariant forall c :: 0 <= c < n ==>
        a[c] == (if 1 <= hillsOwn[c] <= i then hillsMap[hillsOwn[c] - 1] else 1.0)
    {
      var c := 0;
      while c < n
        invariant 0 <= c <= n
        invariant forall d :: 0 <= d < c ==>
          a[d] == (if 1 <= hillsOwn[d] <= i + 1 then hillsMap[hillsOwn[d] - 1] else 1.0)
        invariant forall d :: c <= d < n ==>
          a[d] == (if 1 <= hillsOwn[d] <= i then hillsMap[hillsOwn[d] - 1] else 1.0)
      {
        if hillsOwn[c] == i + 1 {
          a[c] := hillsMap[i];
        }
        c := c + 1;
      }
      i := i + 1;
    }
    cellMap := a[..];
    forall k | 1 <= k <= |hillsMap| && k in hillsOwn
      ensures (set c | 0 <= c < n && hillsOwn[c] == k :: cellMap[c]) == {hillsMap[k - 1]}
    {
      var w :| 0 <= w < n && hillsOwn[w] == k;
      assert cellMap[w] in (set c | 0 <= c < n && hillsOwn[c] == k :: cellMap[c]);
    }
  }

  /** The `mask` argument of `Transform_Basin2Hills`: absent, a Python int or
      float, a numpy array, or a value of any other type. */
  datatype MaskArg = NoMask | ScalarMask(v: real) | ArrayMask(a: seq<real>) | OtherMask

  /** The cell mask handed to the aggregation kernel: all ones without a mask,
      1 exactly where the field equals a scalar mask, a copy of an array mask,
      and all zeros for a mask of any other type. */
  function BuildMask(cellMap: seq<real>, mask: MaskArg, ncells: nat): (ma: seq<real>)
    requires mask.ScalarMask? ==> |cellMap| == ncells
    ensures mask.ArrayMask? ==> ma == mask.a
    ensures !mask.ArrayMask? ==> |ma| == ncells
    ensures mask.NoMask? ==> forall c :: 0 <= c < ncells ==> ma[c] == 1.0
    ensures mask.OtherMask? ==> forall c :: 0 <= c < ncells ==> ma[c] == 0.0
    ensures mask.ScalarMask? ==> forall c :: 0 <= c < ncells ==>
      (ma[c] == 1.0 <==> cellMap[c] == mask.v) && (ma[c] == 0.0 <==> cellMap[c] != mask.v)
  {
    match mask
    case NoMask => seq(ncells, _ => 1.0)
    case ScalarMask(v) => seq(ncells, c requires 0 <= c < ncells => if cellMap[c] == v then 1.0 else 0.0)
    case ArrayMask(a) => a
    case OtherMask => seq(ncells, _ => 0.0)
  }

  /** Number of cells owned by hillslope `k`. */
  function CellCount(own: seq<int>, k: int): (m: nat)
    ensures m <= |own|
  {
    if own == [] then 0
    else
      var p := own[..|own| - 1];
      assert forall c :: 0 <= c < |p| ==> p[c] == own[c];
      CellCount(p, k) + (if own[|own| - 1] == k then 1 else 0)
  }

  /** `CellCount` is the size of the selection `hills_own[hills_own == k]`. */
  lemma {:induction false} CellCountIsSelectionSize(own: seq<int>, k: int)
    ensures CellCount(own, k) == |set c | 0 <= c < |own| && own[c] == k|
  {
    if own != [] {
      var p := own[..|own| - 1];
      CellCountIsSelectionSize(p, k);
      var sp := set c | 0 <= c < |p| && p[c] == k;
      var so := set c | 0 <= c < |own| && own[c] == k;
      if own[|own| - 1] == k {
        assert so == sp + {|own| - 1};
      } else {
        assert so == sp;
      }
    }
  }

  /** Sum of a real vector. */
  function Sum(s: seq<real>): real
  {
    if s == [] then 0.0 else Sum(s[..|s| - 1]) + s[|s| - 1]
  }

  /** `count * dxp**2`: the area of `count` cells. */
  function CellsArea(count: nat, dxp: real): (a: real)
    ensures a >= 0.0
  {
    count as real * (dxp * dxp)
  }

  lemma CellsAreaAdd(a: nat, b: nat, dxp: real)
    ensures CellsArea(a, dxp) + CellsArea(b, dxp) == CellsArea(a + b, dxp)
  {
  }

  /** A part of the cells never has more area than the whole, nor less than none. */
  lemma CellsAreaBounds(count: nat, total: nat, dxp: real)
    requires count <= total
    ensures 0.0 <= CellsArea(count, dxp) <= CellsArea(total, dxp)
  {
    assert CellsArea(total, dxp) - CellsArea(count, dxp) == (total - count) as real * (dxp * dxp);
  }

  /** Hills-mode `elem_area`: cells owned by hillslope `i + 1` times `dxp**2`. */
  function HillAreas(own: seq<int>, nhills: nat, dxp: real): (r: seq<real>)
    ensures |r| == nhills
    ensures forall i :: 0 <= i < nhills ==> r[i] >= 0.0
  {
    seq(nhills, i requires 0 <= i < nhills => CellsArea(CellCount(own, i + 1), dxp))
  }

  /** Cells owned by hillslopes `1..nhills`. */
  function OwnedCount(own: seq<int>, nhills: nat): nat
  {
    if nhills == 0 then 0 else OwnedCount(own, nhills - 1) + CellCount(own, nhills)
  }

  lemma {:induction false} OwnedCountSnoc(p: seq<int>, x: int, nhills: nat)
    ensures OwnedCount(p + [x], nhills) == OwnedCount(p, nhills) + (if 1 <= x <= nhills then 1 else 0)
  {
    assert (p + [x])[..|p + [x]| - 1] == p;
    if nhills > 0 {
      OwnedCountSnoc(p, x, nhills - 1);
    }
  }

  /** When every owner id lies in `1..nhills`, the hillslopes own every cell. */
  lemma {:induction false} OwnedCountAll(own: seq<int>, nhills: nat)
    requires forall c :: 0 <= c < |own| ==> 1 <= own[c] <= nhills
    ensures OwnedCount(own, nhills) == |own|
  {
    if own == [] {
      OwnedCountEmpty(nhills);
    } else {
      var p := own[..|own| - 1];
      assert own == p + [own[|own| - 1]];
      OwnedCountAll(p, nhills);
      OwnedCountSnoc(p, own[|own| - 1], nhills);
    }
  }

  lemma {:induction false} OwnedCountEmpty(nhills: nat)
    ensures OwnedCount([], nhills) == 0
  {
    if nhills > 0 {
      OwnedCountEmpty(nhills - 1);
    }
  }

  lemma {:induction false} HillAreasSum(own: seq<int>, nhills: nat, dxp: real)
    ensures Sum(HillAreas(own, nhills, dxp)) == CellsArea(OwnedCount(own, nhills), dxp)
  {
    var r := HillAreas(own, nhills, dxp);
    if nhills == 0 {
      assert r == [];
    } else {
      assert r[..nhills - 1] == HillAreas(own, nhills - 1, dxp);
      HillAreasSum(own, nhills - 1, dxp);
      CellsAreaAdd(OwnedCount(own, nhills - 1), CellCount(own, nhills), dxp);
    }
  }

  /** Area conservation: with a complete ownership the hillslope areas add up
      to the basin area `ncells * dxp**2`. */
  lemma HillAreasConserveBasinArea(own: seq<int>, nhills: nat, dxp: real)
    requires forall c :: 0 <= c < |own| ==> 1 <= own[c] <= nhills
    ensures Sum(HillAreas(own, nhills, dxp)) == |own| as real * (dxp * dxp)
  {
    var owned := OwnedCount(own, nhills);
    OwnedCountAll(own, nhills);
    HillAreasSum(own, nhills, dxp);
    assert Sum(HillAreas(own, nhills, dxp)) == CellsArea(owned, dxp);
  }

  /** No hillslope is larger than the basin. */
  lemma HillAreaWithinBasin(own: seq<int>, nhills: nat, dxp: real, i: nat)
    requires i < nhills
    ensures HillAreas(own, nhills, dxp)[i] <= |own| as real * (dxp * dxp)
  {
    CellsAreaBounds(CellCount(own, i + 1), |own|, dxp);
  }

  /** Each hillslope's area is the size of its cell selection times `dxp**2`. */
  lemma HillAreaIsSelectionArea(own: seq<int>, nhills: nat, dxp: real, i: nat)
    requires i < nhills
    ensures HillAreas(own, nhills, dxp)[i] == |set c | 0 <= c < |own| && own[c] == i + 1| as real * (dxp * dxp)
  {
    CellCountIsSelectionSize(own, i + 1);
  }
}
