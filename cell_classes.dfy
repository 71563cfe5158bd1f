/** Per-cell classifiers of `Basin`: the channel mask of `GetGeo_Cell_Basics`
    and the four-class terrain position of `GetGeo_HAND`. The per-cell fields
    (`acum`, `hand`, `S0`) come from the `cu` kernels and are inputs here. */
module CellClasses {

  /** `CellCauce`: a zero vector with 1 written where the accumulated cell
      count exceeds the channel threshold `umbral`. */
  function ChannelMask(acum: seq<int>, umbral: int): (m: seq<int>)
    ensures |m| == |acum|
    ensures forall c :: 0 <= c < |m| ==> m[c] == 0 || m[c] == 1
    ensures forall c :: 0 <= c < |m| ==> (m[c] == 1 <==> acum[c] > umbral)
  {
    seq(|acum|, c requires 0 <= c < |acum| => if acum[c] > umbral then 1 else 0)
  }

  /** Raising the threshold never turns a non-channel cell into a channel cell. */
  lemma ChannelMaskAntitone(acum: seq<int>, u1: int, u2: int)
    requires u1 <= u2
    ensures forall c :: 0 <= c < |acum| ==> ChannelMask(acum, u2)[c] <= ChannelMask(acum, u1)[c]
  {
  }

  /** The terrain position scheme the four writes are meant to implement:
      valley floor 1, low terrace 2, steep upland 3, flat upland 4. */
  function HandClass(hand: real, slope: real): (k: int)
    ensures 1 <= k <= 4
  {
    if hand < 5.3 then 1
    else if hand <= 15.0 then 2
    else if slope < 0.076 then 4
    else 3
  }

  /** Each class is selected by exactly its band of HAND (and slope above the
      upper threshold), so every real-valued cell gets exactly one class. */
  lemma HandClassBands(hand: real, slope: real)
    ensures HandClass(hand, slope) == 1 <==> hand < 5.3
    ensures HandClass(hand, slope) == 2 <==> 5.3 <= hand <= 15.0
    ensures HandClass(hand, slope) == 4 <==> hand > 15.0 && slope < 0.076
    ensures HandClass(hand, slope) == 3 <==> hand > 15.0 && slope >= 0.076
  {
  }

  /** Worked cases, one in each band. */
  lemma HandClassExamples()
    ensures HandClass(3.0, 0.05) == 1
    ensures forall s: real :: HandClass(10.0, s) == 2
    ensures HandClass(20.0, 0.05) == 4
    ensures HandClass(20.0, 0.10) == 3
  {
  }

  /** `handC[mask] = v`: overwrite exactly the masked cells. */
  method MaskedWrite(a: array<int>, mask: seq<bool>, v: int)
    requires |mask| == a.Length
    modifies a
    ensures forall c :: 0 <= c < a.Length ==> a[c] == (if mask[c] then v else old(a[c]))
  {
    var c := 0;
    while c < a.Length
      invariant 0 <= c <= a.Length
      invariant forall d :: 0 <= d < c ==> a[d] == (if mask[d] then v else old(a[d]))
      invariant forall d :: c <= d < a.Length ==> a[d] == old(a[d])
    {
      if mask[c] {
        a[c] := v;
      }
      c := c + 1;
    }
  }

  /** `CellHAND_class`: four successive masked writes into a zero vector, in
      the source's order. The result agrees cell by cell with `HandClass`. */
  method ClassifyHand(hand: seq<real>, slope: seq<real>) returns (cls: seq<int>)
    requires |slope| == |hand|
    ensures |cls| == |hand|
    ensures forall c :: 0 <= c < |hand| ==> cls[c] == HandClass(hand[c], slope[c])
  {
    var n := |hand|;
    var handC := new int[n](_ => 0);
    MaskedWrite(handC, seq(n, c requires 0 <= c < n => hand[c] < 5.3), 1);
    MaskedWrite(handC, seq(n, c requires 0 <= c < n => hand[c] >= 5.3 && hand[c] <= 15.0), 2);
    MaskedWrite(handC, seq(n, c requires 0 <= c < n => hand[c] > 15.0 && slope[c] < 0.076), 4);
    MaskedWrite(handC, seq(n, c requires 0 <= c < n => hand[c] > 15.0 && slope[c] >= 0.076), 3);
    cls := handC[..];
  }
}
