/** The engine's `models` bank as a mutable object: the tensors are
    two-dimensional arrays written a row at a time, reallocated whenever a
    `SimuBasin` is built, and each `SimuBasin` method is proved to move the
    object's `State()` exactly as the transition of the same name in
    `ModelState` says. */
module SimuModels {
  import opened Common
  import opened Hillslopes
  import opened ModelState

  /** The rows of a two-dimensional array. */
  function Rows(a: array2<real>): (m: seq<seq<real>>)
    reads a
    ensures IsMatrix(m, a.Length0, a.Length1)
    ensures forall i, j :: 0 <= i < a.Length0 && 0 <= j < a.Length1 ==> m[i][j] == a[i, j]
  {
    seq(a.Length0, i requires 0 <= i < a.Length0 reads a =>
      seq(a.Length1, j requires 0 <= j < a.Length1 reads a => a[i, j]))
  }

  /** Two matrices of the same shape with the same entries are equal. */
  lemma MatrixExt(m: seq<seq<real>>, n: seq<seq<real>>, rows: nat, w: nat)
    requires IsMatrix(m, rows, w) && IsMatrix(n, rows, w)
    requires forall i, j :: 0 <= i < rows && 0 <= j < w ==> m[i][j] == n[i][j]
    ensures m == n
  {
    forall i | 0 <= i < rows ensures m[i] == n[i] {
      assert |m[i]| == w && |n[i]| == w;
    }
  }

  /** `a[i] = v` for a row of the array's width: that row becomes `v`. */
  method WriteRow(a: array2<real>, i: nat, v: seq<real>)
    requires i < a.Length0 && |v| == a.Length1
    modifies a
    ensures Rows(a) == old(Rows(a))[i := v]
  {
    ghost var before := Rows(a);
    var j := 0;
    while j < a.Length1
      invariant 0 <= j <= a.Length1
      invariant forall r, c :: 0 <= r < a.Length0 && 0 <= c < a.Length1 ==>
        a[r, c] == (if r == i && c < j then v[c] else before[r][c])
    {
      a[i, j] := v[j];
      j := j + 1;
    }
    MatrixExt(Rows(a), before[i := v], a.Length0, a.Length1);
  }

  /** Every row of the array is replaced by the matching row of `m`. */
  method WriteRows(a: array2<real>, m: seq<seq<real>>)
    requires IsMatrix(m, a.Length0, a.Length1)
    modifies a
    ensures Rows(a) == m
  {
    ghost var before := Rows(a);
    var i := 0;
    while i < a.Length0
      invariant 0 <= i <= a.Length0
      invariant forall r :: 0 <= r < a.Length0 ==> Rows(a)[r] == (if r < i then m[r] else before[r])
    {
      WriteRow(a, i, m[i]);
      i := i + 1;
    }
    assert forall r :: 0 <= r < a.Length0 ==> Rows(a)[r] == m[r];
  }

  lemma RowsFilled(a: array2<real>, x: real)
    requires forall i, j :: 0 <= i < a.Length0 && 0 <= j < a.Length1 ==> a[i, j] == x
    ensures Rows(a) == Fill(a.Length0, a.Length1, x)
  {
    MatrixExt(Rows(a), Fill(a.Length0, a.Length1, x), a.Length0, a.Length1);
  }

  /** The seven tensors one allocation in `SimuBasin.__init__` creates, each
      its own array of the common width. */
  class Tensors {
    const hCoef: array2<real>
    const hExp: array2<real>
    const vCoef: array2<real>
    const vExp: array2<real>
    const maxCapilar: array2<real>
    const maxGravita: array2<real>
    const storage: array2<real>

    /** Row counts, one common width, and seven distinct arrays. */
    ghost predicate Valid()
    {
      hCoef.Length0 == 4 && hExp.Length0 == 4 && vCoef.Length0 == 4 && vExp.Length0 == 4
      && maxCapilar.Length0 == 1 && maxGravita.Length0 == 1 && storage.Length0 == 5
      && hExp.Length1 == hCoef.Length1 && vCoef.Length1 == hCoef.Length1
      && vExp.Length1 == hCoef.Length1 && maxCapilar.Length1 == hCoef.Length1
      && maxGravita.Length1 == hCoef.Length1 && storage.Length1 == hCoef.Length1
      && hCoef != hExp && hCoef != vCoef && hCoef != vExp && hCoef != maxCapilar
      && hCoef != maxGravita && hCoef != storage
      && hExp != vCoef && hExp != vExp && hExp != maxCapilar && hExp != maxGravita
      && hExp != storage
      && vCoef != vExp && vCoef != maxCapilar && vCoef != maxGravita && vCoef != storage
      && vExp != maxCapilar && vExp != maxGravita && vExp != storage
      && maxCapilar != maxGravita && maxCapilar != storage
      && maxGravita != storage
    }

    /** The array holding tensor `t`. */
    function Array(t: Tensor): array2<real>
    {
      match t
      case HCoef => hCoef
      case HExp => hExp
      case VCoef => vCoef
      case VExp => vExp
      case MaxCapilar => maxCapilar
      case MaxGravita => maxGravita
      case Storage => storage
    }

    function Width(): nat
    {
      hCoef.Length1
    }

    /** `np.ones((4,n))` for the coefficients and exponents, `np.ones((1,n))`
        for the capacities and `np.zeros((5,n))` for the storage. */
    constructor (n: nat)
      ensures Valid() && Width() == n
      ensures Rows(hCoef) == Fill(4, n, 1.0) && Rows(hExp) == Fill(4, n, 1.0)
      ensures Rows(vCoef) == Fill(4, n, 1.0) && Rows(vExp) == Fill(4, n, 1.0)
      ensures Rows(maxCapilar) == Fill(1, n, 1.0) && Rows(maxGravita) == Fill(1, n, 1.0)
      ensures Rows(storage) == Fill(5, n, 0.0)
      ensures fresh(hCoef) && fresh(hExp) && fresh(vCoef) && fresh(vExp)
      ensures fresh(maxCapilar) && fresh(maxGravita) && fresh(storage)
    {
      vCoef := new real[4, n]((_, _) => 1.0);
      hCoef := new real[4, n]((_, _) => 1.0);
      vExp := new real[4, n]((_, _) => 1.0);
      hExp := new real[4, n]((_, _) => 1.0);
      maxCapilar := new real[1, n]((_, _) => 1.0);
      maxGravita := new real[1, n]((_, _) => 1.0);
      storage := new real[5, n]((_, _) => 0.0);
      new;
      RowsFilled(hCoef, 1.0);
      RowsFilled(hExp, 1.0);
      RowsFilled(vCoef, 1.0);
      RowsFilled(vExp, 1.0);
      RowsFilled(maxCapilar, 1.0);
      RowsFilled(maxGravita, 1.0);
      RowsFilled(storage, 0.0);
    }
  }

  class Models {
    var isAllocated: bool
    var tensors: Tensors
    var dt: real
    var simSediments: int
    var simSlides: int
    var saveStorage: int
    var saveSpeed: int
    const speedType: array<int>
    var control: seq<real>
    var controlH: seq<real>
    var rainFirstPoint: int

    ghost predicate Valid()
      reads this
    {
      tensors.Valid() && speedType.Length == 3
    }

    /** The bank this object holds. */
    function State(): Bank
      reads this, tensors.hCoef, tensors.hExp, tensors.vCoef, tensors.vExp,
            tensors.maxCapilar, tensors.maxGravita, tensors.storage, speedType
    {
      Bank(isAllocated, tensors.Width(), Rows(tensors.hCoef), Rows(tensors.hExp),
           Rows(tensors.vCoef), Rows(tensors.vExp), Rows(tensors.maxCapilar),
           Rows(tensors.maxGravita), Rows(tensors.storage), dt,
           simSediments, simSlides, saveStorage, saveSpeed,
           speedType[..], control, controlH, rainFirstPoint)
    }

    /** A valid object holds a well-formed bank. */
    lemma StateWellFormed()
      requires Valid()
      ensures WellFormed(State())
    {
    }

    lemma GetIsRows(t: Tensor)
      ensures Get(State(), t) == Rows(tensors.Array(t))
    {
    }

    /** The bank as the engine is loaded, with its initial speed types. */
    constructor (speed0: seq<int>)
      requires |speed0| == 3
      ensures Valid()
      ensures State() == Unloaded(speed0)
    {
      isAllocated := false;
      tensors := new Tensors(0);
      dt := 0.0;
      simSediments := 0;
      simSlides := 0;
      saveStorage := 0;
      saveSpeed := 0;
      speedType := new int[3](i requires 0 <= i < 3 => speed0[i]);
      control := [];
      controlH := [];
      rainFirstPoint := 1;
    }

    /** The bank part of `SimuBasin.__init__`: with a known model type the
        tensors are reallocated `N` units wide and the switches set; with
        any other model type the constructor raises and nothing changes. */
    method InitSimuBasin(modelType: string, ncells: nat, nhills: nat, dt': real,
                         simSed: string, simSlides': string, saveStorage': string,
                         saveSpeed': string) returns (basin: Option<SimuBasin>)
      requires Valid()
      modifies this
      ensures Valid()
      ensures basin == NewSimuBasin(modelType, ncells, nhills)
      ensures basin.None? ==> State() == old(State())
      ensures basin.Some? ==>
        State() == AfterInit(old(State()), basin.value, dt', simSed, simSlides', saveStorage', saveSpeed')
    {
      var mt := ParseModelType(modelType);
      if mt.None? {
        return None;
      }
      basin := Some(SimuBasin(mt.value, ncells, nhills));
      Allocate(Units(basin.value), dt', Flag(simSed), Flag(simSlides'), Flag(saveStorage'), Flag(saveSpeed'));
    }

    /** The tensors reallocated `n` units wide and the switches stored. */
    method Allocate(n: nat, dt': real, sed: int, slides: int, saveSt: int, saveSp: int)
      requires Valid()
      modifies this
      ensures Valid()
      ensures State() == old(State()).(isAllocated := true, width := n,
        hCoef := Fill(4, n, 1.0), hExp := Fill(4, n, 1.0), vCoef := Fill(4, n, 1.0),
        vExp := Fill(4, n, 1.0), maxCapilar := Fill(1, n, 1.0), maxGravita := Fill(1, n, 1.0),
        storage := Fill(5, n, 0.0), dt := dt', simSediments := sed, simSlides := slides,
        saveStorage := saveSt, saveSpeed := saveSp)
    {
      Reallocate(n);
      dt, simSediments, simSlides, saveStorage, saveSpeed := dt', sed, slides, saveSt, saveSp;
    }

    /** `np.ones`/`np.zeros` for the seven tensors, `n` units wide. */
    method Reallocate(n: nat)
      requires Valid()
      modifies this
      ensures Valid()
      ensures State() == old(State()).(isAllocated := true, width := n,
        hCoef := Fill(4, n, 1.0), hExp := Fill(4, n, 1.0), vCoef := Fill(4, n, 1.0),
        vExp := Fill(4, n, 1.0), maxCapilar := Fill(1, n, 1.0), maxGravita := Fill(1, n, 1.0),
        storage := Fill(5, n, 0.0))
    {
      tensors := new Tensors(n);
      isAllocated := true;
    }

    /** `tensor[pos] = vec` on tensor `t`. */
    method WriteTensorRow(t: Tensor, pos: int, vec: seq<real>) returns (ok: bool)
      requires Valid()
      modifies tensors.Array(t)
      ensures Valid()
      ensures Step(ok, State()) == WriteTensor(old(State()), t, pos, vec)
    {
      if !isAllocated {
        return false;
      }
      var a := tensors.Array(t);
      var i := PyIndex(pos, a.Length0);
      var row := Broadcast(Vector(vec), a.Length1);
      if i.None? || row.None? {
        return false;
      }
      WriteRow(a, i.value, row.value);
      ok := true;
      ghost var b := old(State());
      ghost var m := AssignRow(Get(b, t), pos, vec, b.width).value;
      GetIsRows(t);
      forall u ensures Get(State(), u) == Get(Put(b, t, m), u) {
        GetIsRows(u);
      }
    }

    /** `set_PhysicVariables(name, var, pos, mask)` for a scalar or vector
        `var`; `agg` is the cell-to-hillslope aggregation of `cu`. */
    method SetPhysicVariables(basin: SimuBasin, name: string, v: Value, pos: int, mask: MaskArg,
                              agg: (seq<real>, seq<real>) -> seq<real>) returns (ok: bool)
      requires Valid()
      modifies tensors.hCoef, tensors.hExp, tensors.vCoef, tensors.vExp
      modifies tensors.maxCapilar, tensors.maxGravita
      ensures Valid()
      ensures Step(ok, State()) == AfterSetPhysic(old(State()), basin, name, v, pos, mask, agg)
    {
      var vec := Broadcast(v, basin.ncells);
      if vec.None? || (basin.mt == Hills && mask.ScalarMask?) {
        return false;
      }
      if basin.mt == Hills {
        vec := Some(agg(vec.value, BuildMask(vec.value, mask, basin.ncells)));
      }
      assert vec == PhysicVector(basin, v, mask, agg);
      var t := PhysicTarget(name);
      if t.None? {
        return true;
      }
      var row := if t.value == MaxCapilar || t.value == MaxGravita then 0 else pos;
      assert row == PhysicRow(t.value, pos);
      ok := WriteTensorRow(t.value, row, vec.value);
    }

    /** `set_storage(var, pos)` for a scalar or vector `var`. */
    method SetStorage(basin: SimuBasin, v: Value, pos: int) returns (ok: bool)
      requires Valid()
      modifies tensors.storage
      ensures Valid()
      ensures Step(ok, State()) == AfterSetStorage(old(State()), basin, v, pos)
    {
      var n := if basin.mt == Cells then basin.ncells else basin.nhills;
      var vec := Broadcast(v, n);
      if vec.None? {
        return false;
      }
      ok := WriteTensorRow(Storage, pos, vec.value);
    }

    /** `set_record(controlQ, controlH)`; `None` is an absent mask. */
    method SetRecord(basin: SimuBasin, controlQ: Option<seq<real>>, controlH': Option<seq<real>>)
      returns (ok: bool)
      requires Valid()
      modifies this
      ensures Valid()
      ensures Step(ok, State()) == AfterSetRecord(old(State()), basin, controlQ, controlH')
    {
      var n := if basin.mt == Cells then basin.ncells else basin.nhills;
      var c := control;
      if controlQ.Some? {
        if |controlQ.value| == n {
          c := controlQ.value;
        }
      } else {
        c := seq(n, _ => 0.0);
      }
      if |c| == 0 {
        control := c;
        return false;
      }
      c := c[|c| - 1 := 1.0];
      var h := controlH;
      if controlH'.Some? {
        if |controlH'.value| == n {
          h := controlH'.value;
        }
      } else {
        h := seq(n, _ => 0.0);
      }
      control, controlH := c, h;
      ok := true;
    }

    /** `set_speed_type(types)`: each entry is stored as 1 or 2; the fourth
        entry of a longer list raises. */
    method SetSpeedType(types: seq<real>) returns (ok: bool)
      requires Valid()
      modifies speedType
      ensures Valid()
      ensures Step(ok, State()) == AfterSetSpeedType(old(State()), types)
    {
      var c := 0;
      while c < |types|
        invariant 0 <= c <= |types| && c <= 3
        invariant forall k :: 0 <= k < 3 ==>
          speedType[k] == (if k < c then SpeedCode(types[k]) else old(speedType[k]))
      {
        if c >= 3 {
          return false;
        }
        if types[c] == 1.0 || types[c] == 2.0 {
          speedType[c] := types[c].Floor;
        } else {
          speedType[c] := 1;
        }
        c := c + 1;
      }
      ok := true;
    }

    /** `run_shia(start_point = startPoint)`: everything it computes before
        and after the simulation kernel, whose series are not modelled; the
        storage is left as the kernel's end state `endStorage`. */
    method RunShia(basin: SimuBasin, nIntervals: int, startPoint: int, endStorage: seq<seq<real>>)
      returns (call: ShiaCall, keys: set<string>)
      requires Valid() && IsMatrix(endStorage, 5, tensors.Width())
      modifies this, tensors.storage
      ensures Valid()
      ensures ShiaRun(State(), call, keys)
           == AfterRunShia(old(State()), basin, nIntervals, startPoint, endStorage)
    {
      WriteRows(tensors.storage, endStorage);
      var n := if basin.mt == Cells then basin.ncells else basin.nhills;
      rainFirstPoint := startPoint;
      var nq := CountNonzero(control);
      if nq == 0 {
        nq := 1;
      }
      var nh := CountNonzero(controlH);
      if nh == 0 {
        nh := 1;
      }
      call := ShiaCall(n, nq, nh, nIntervals);
      keys := {"Qsim"};
      keys := keys + {"Balance"};
      keys := keys + {"Storage"};
      if CountNonzero(controlH) > 0 {
        keys := keys + {"Humedad"};
      }
      if simSediments == 1 {
        keys := keys + {"Sediments"};
      }
    }
  }
}
