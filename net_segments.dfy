/** The split of the vector drainage network in `Save_Net2Map`. The network
    is a sequence of columns `(net[0,k], net[1,k], net[2,k])`; a column whose
    first entry is -999 separates reaches. The cut list is `[0]` followed by
    the sentinel positions, and reach `k` is `net[:, cuts[k]+1 : cuts[k+1]]`. */
module NetSegments {

  datatype NetColumn = NetColumn(head: real, x: real, y: real)

  predicate IsSentinel(c: NetColumn)
  {
    c.head == -999.0
  }

  /** `np.where(net[0, :] == -999)` restricted to positions `k..`. */
  function SentinelsFrom(net: seq<NetColumn>, k: nat): seq<nat>
    requires k <= |net|
    decreases |net| - k
  {
    if k == |net| then []
    else if IsSentinel(net[k]) then [k] + SentinelsFrom(net, k + 1)
    else SentinelsFrom(net, k + 1)
  }

  /** Strictly increasing positions. */
  predicate Increasing(p: seq<nat>)
  {
    forall a, b :: 0 <= a < b < |p| ==> p[a] < p[b]
  }

  /** Exactly the sentinel positions at or after `k`, in increasing order. */
  predicate SentinelPositions(net: seq<NetColumn>, k: nat, p: seq<nat>)
  {
    Increasing(p)
    && (forall a :: 0 <= a < |p| ==> k <= p[a] < |net| && IsSentinel(net[p[a]]))
    && (forall j :: k <= j < |net| && IsSentinel(net[j]) ==> j in p)
  }

  /** A sentinel at `k` goes in front of the positions found after it. */
  lemma SentinelPositionsCons(net: seq<NetColumn>, k: nat, p: seq<nat>)
    requires k < |net| && IsSentinel(net[k]) && SentinelPositions(net, k + 1, p)
    ensures SentinelPositions(net, k, [k] + p)
  {
    var q := [k] + p;
    forall a, b | 0 <= a < b < |q| ensures q[a] < q[b] {
      assert q[b] == p[b - 1];
      if a > 0 {
        assert q[a] == p[a - 1];
      }
    }
    forall j | k <= j < |net| && IsSentinel(net[j]) ensures j in q {
      if j > k {
        assert j in p;
      }
    }
  }

  lemma {:induction false} SentinelsFromSpec(net: seq<NetColumn>, k: nat)
    requires k <= |net|
    ensures SentinelPositions(net, k, SentinelsFrom(net, k))
    decreases |net| - k
  {
    if k < |net| {
      SentinelsFromSpec(net, k + 1);
      if IsSentinel(net[k]) {
        SentinelPositionsCons(net, k, SentinelsFrom(net, k + 1));
      }
    }
  }

  function Sentinels(net: seq<NetColumn>): seq<nat>
  {
    SentinelsFrom(net, 0)
  }

  /** `np.where(net[0, :] == -999)` finds every sentinel, in order. */
  lemma SentinelsSpec(net: seq<NetColumn>)
    ensures SentinelPositions(net, 0, Sentinels(net))
  {
    SentinelsFromSpec(net, 0);
  }

  /** Entry `k` of `cortes` after `cortes.insert(0, 0)`. */
  function Cut(net: seq<NetColumn>, k: nat): nat
    requires k <= |Sentinels(net)|
  {
    if k == 0 then 0 else Sentinels(net)[k - 1]
  }

  /** Python's `s[i:j]` for `0 <= i, j <= |s|`: empty when `i > j`. */
  function PySlice<T>(s: seq<T>, i: nat, j: nat): seq<T>
    requires i <= |s| + 1 && j <= |s|
  {
    if i <= j then s[i..j] else []
  }

  /** The reaches written as line features, one per pair of consecutive cuts. */
  function Segments(net: seq<NetColumn>): (segs: seq<seq<NetColumn>>)
    ensures |segs| == |Sentinels(net)|
  {
    SentinelsSpec(net);
    seq(|Sentinels(net)|, k requires 0 <= k < |Sentinels(net)| =>
      PySlice(net, Cut(net, k) + 1, Cut(net, k + 1)))
  }

  /** The `Long[km]` attribute of reach `k`: its column count times the cell
      size `dx`, in kilometres. Away from the first reach that count is the
      gap between the two cuts; the first reach starts at column 1 unless
      column 0 is itself a sentinel. */
  function ReachLengthKm(net: seq<NetColumn>, k: nat, dx: real): (km: real)
    requires k < |Sentinels(net)|
    ensures k > 0 ==> (Cut(net, k) < Cut(net, k + 1)
                       && km == (Cut(net, k + 1) - Cut(net, k) - 1) as real * dx / 1000.0)
    ensures k == 0 ==> (FirstStart(net) <= Cut(net, 1)
                        && km == (Cut(net, 1) - FirstStart(net)) as real * dx / 1000.0)
  {
    SegmentAt(net, k);
    FirstStartIsFirstCut(net);
    |Segments(net)[k]| as real * dx / 1000.0
  }

  /** Reach `k` is the slice strictly between cut `k` and cut `k + 1`, and
      only the first one can start after it ends (an empty reach). */
  lemma SegmentAt(net: seq<NetColumn>, k: nat)
    requires k < |Sentinels(net)|
    ensures Cut(net, k) <= Cut(net, k + 1) < |net|
    ensures k > 0 ==> Cut(net, k) < Cut(net, k + 1)
    ensures Segments(net)[k] == PySlice(net, Cut(net, k) + 1, Cut(net, k + 1))
  {
    SentinelsSpec(net);
    var p := Sentinels(net);
    if k > 0 {
      assert p[k - 1] < p[k];
    }
  }

  /** A column strictly between two consecutive cuts is not a sentinel. */
  lemma BetweenCutsNotSentinel(net: seq<NetColumn>, k: nat, j: nat)
    requires k < |Sentinels(net)|
    requires Cut(net, k) < j < Cut(net, k + 1)
    ensures j < |net| && !IsSentinel(net[j])
  {
    SentinelsSpec(net);
    var p := Sentinels(net);
    forall t | 0 <= t < |p| ensures p[t] != j {
      if t < k {
        assert p[t] <= Cut(net, k);
      } else if t > k {
        assert p[k] < p[t];
      }
    }
  }

  /** No reach contains a sentinel column. */
  lemma SegmentsSentinelFree(net: seq<NetColumn>, k: nat, c: nat)
    requires k < |Segments(net)| && c < |Segments(net)[k]|
    ensures !IsSentinel(Segments(net)[k][c])
  {
    SegmentAt(net, k);
    var j := Cut(net, k) + 1 + c;
    assert Segments(net)[k][c] == net[j];
    BetweenCutsNotSentinel(net, k, j);
  }

  /** The reaches followed each by the sentinel column that closes it. */
  function Rejoin(segs: seq<seq<NetColumn>>, seps: seq<NetColumn>): seq<NetColumn>
    requires |segs| == |seps|
  {
    if segs == [] then []
    else Rejoin(segs[..|segs| - 1], seps[..|seps| - 1]) + segs[|segs| - 1] + [seps[|seps| - 1]]
  }

  function SentinelColumns(net: seq<NetColumn>): (r: seq<NetColumn>)
    ensures |r| == |Sentinels(net)|
  {
    SentinelsSpec(net);
    var p := Sentinels(net);
    seq(|p|, k requires 0 <= k < |p| => net[p[k]])
  }

  /** Where the first reach starts: column 0 is never part of a reach; when
      it is itself a sentinel the first reach is empty. */
  function FirstStart(net: seq<NetColumn>): nat
  {
    if |net| > 0 && IsSentinel(net[0]) then 0 else 1
  }

  /** The first reach is empty exactly when the first sentinel is column 0
      or column 1: `cortes` then starts `[0, 0, ...]` or `[0, 1, ...]`. */
  lemma FirstReachEmpty(net: seq<NetColumn>)
    requires |Sentinels(net)| > 0
    ensures |Segments(net)[0]| == 0 <==> Cut(net, 1) <= 1
  {
    SegmentAt(net, 0);
  }

  /** Column 0 is a sentinel exactly when it is the first sentinel, so the
      first reach starts at the first cut when one is there. */
  lemma FirstStartIsFirstCut(net: seq<NetColumn>)
    requires |Sentinels(net)| > 0
    ensures FirstStart(net) == 0 <==> Sentinels(net)[0] == 0
  {
    SentinelsSpec(net);
    var p := Sentinels(net);
    if |net| > 0 && IsSentinel(net[0]) {
      assert 0 in p;
    } else {
      assert IsSentinel(net[p[0]]);
    }
  }

  lemma RejoinSnoc(segs: seq<seq<NetColumn>>, seps: seq<NetColumn>, m: nat)
    requires |segs| == |seps| && 0 < m <= |segs|
    ensures Rejoin(segs[..m], seps[..m])
         == Rejoin(segs[..m - 1], seps[..m - 1]) + segs[m - 1] + [seps[m - 1]]
  {
    assert segs[..m][..m - 1] == segs[..m - 1];
    assert seps[..m][..m - 1] == seps[..m - 1];
  }

  lemma SliceSnoc(net: seq<NetColumn>, a: nat, b: nat, c: nat)
    requires a <= b <= c < |net|
    ensures net[a..c + 1] == net[a..b] + net[b..c] + [net[c]]
  {
    assert net[a..c + 1] == net[a..c] + [net[c]];
    assert net[a..c] == net[a..b] + net[b..c];
  }

  /** One more reach and its sentinel extend the rejoined prefix. */
  lemma RejoinExtend(segs: seq<seq<NetColumn>>, seps: seq<NetColumn>, net: seq<NetColumn>,
                     a: nat, b: nat, c: nat, m: nat)
    requires |segs| == |seps| && 0 < m <= |segs| && a <= b <= c < |net|
    requires segs[m - 1] == net[b..c] && seps[m - 1] == net[c]
    requires Rejoin(segs[..m - 1], seps[..m - 1]) == net[a..b]
    ensures Rejoin(segs[..m], seps[..m]) == net[a..c + 1]
  {
    RejoinSnoc(segs, seps, m);
    SliceSnoc(net, a, b, c);
  }

  /** The rejoined prefix of `m` reaches ends with cut `m`. */
  predicate RejoinedUpTo(net: seq<NetColumn>, m: nat)
    requires 0 < m <= |Sentinels(net)|
  {
    FirstStart(net) <= Cut(net, m) + 1 <= |net|
    && Rejoin(Segments(net)[..m], SentinelColumns(net)[..m]) == net[FirstStart(net)..Cut(net, m) + 1]
  }

  lemma RejoinFirst(net: seq<NetColumn>)
    requires 0 < |Sentinels(net)|
    ensures RejoinedUpTo(net, 1)
  {
    var segs, seps := Segments(net), SentinelColumns(net);
    var c := Cut(net, 1);
    FirstStartIsFirstCut(net);
    SegmentAt(net, 0);
    assert seps[0] == net[c];
    if c == 0 {
      assert segs[0] == [];
      RejoinExtend(segs, seps, net, 0, 0, 0, 1);
    } else {
      assert segs[0] == net[1..c];
      RejoinExtend(segs, seps, net, 1, 1, c, 1);
    }
  }

  lemma RejoinStep(net: seq<NetColumn>, m: nat)
    requires 1 < m <= |Sentinels(net)|
    requires RejoinedUpTo(net, m - 1)
    ensures RejoinedUpTo(net, m)
  {
    var segs, seps := Segments(net), SentinelColumns(net);
    var a, b, c := FirstStart(net), Cut(net, m - 1) + 1, Cut(net, m);
    SegmentAt(net, m - 1);
    assert segs[m - 1] == net[b..c];
    assert seps[m - 1] == net[c];
    RejoinExtend(segs, seps, net, a, b, c, m);
  }

  lemma {:induction false} RejoinPrefix(net: seq<NetColumn>, m: nat)
    requires 0 < m <= |Sentinels(net)|
    ensures RejoinedUpTo(net, m)
  {
    if m == 1 {
      RejoinFirst(net);
    } else {
      RejoinPrefix(net, m - 1);
      RejoinStep(net, m);
    }
  }

  /** Reaches and sentinels together give back the network from the first
      reach's start through the last sentinel. */
  lemma SegmentsRejoin(net: seq<NetColumn>)
    requires |Sentinels(net)| > 0
    ensures FirstStart(net) <= Sentinels(net)[|Sentinels(net)| - 1] + 1 <= |net|
    ensures Rejoin(Segments(net), SentinelColumns(net))
         == net[FirstStart(net)..Sentinels(net)[|Sentinels(net)| - 1] + 1]
  {
    var m := |Sentinels(net)|;
    RejoinPrefix(net, m);
    assert Segments(net)[..m] == Segments(net);
    assert SentinelColumns(net)[..m] == SentinelColumns(net);
  }

  lemma {:induction false} NoSentinelsFrom(net: seq<NetColumn>, k: nat)
    requires k <= |net|
    requires forall j :: k <= j < |net| ==> !IsSentinel(net[j])
    ensures SentinelsFrom(net, k) == []
    decreases |net| - k
  {
    if k < |net| {
      NoSentinelsFrom(net, k + 1);
    }
  }

  /** A network without sentinels yields no reach at all. */
  lemma NoSentinelNoSegments(net: seq<NetColumn>)
    requires forall k :: 0 <= k < |net| ==> !IsSentinel(net[k])
    ensures Segments(net) == []
  {
    NoSentinelsFrom(net, 0);
  }
}
