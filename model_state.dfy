/** The parameter and state bank of the simulation engine (the `models`
    module) as a value, and what each `SimuBasin` method does to it. The
    bank is process-wide: every `SimuBasin` writes into the same one, so a
    method is a transition of the bank given the `SimuBasin` it is called on. */
module ModelState {
  import opened Common
  import opened Hillslopes

  datatype ModelType = Cells | Hills

  /** `modelType` as `SimuBasin.__init__` reads it; any other string leaves
      `N` unbound and the constructor raises. */
  function ParseModelType(s: string): (r: Option<ModelType>)
    ensures r == Some(Cells) <==> s == "cells"
    ensures r == Some(Hills) <==> s == "hills"
    ensures r.None? <==> s != "cells" && s != "hills"
  {
    if s == "cells" then Some(Cells) else if s == "hills" then Some(Hills) else None
  }

  /** The attributes of a `SimuBasin` that its bank methods consult; the cell
      and hillslope counts come from the basin tracing of `cu`. */
  datatype SimuBasin = SimuBasin(mt: ModelType, ncells: nat, nhills: nat)

  /** `N`: the number of simulation units, cells or hillslopes. */
  function Units(basin: SimuBasin): (n: nat)
    ensures basin.mt == Cells ==> n == basin.ncells
    ensures basin.mt == Hills ==> n == basin.nhills
  {
    match basin.mt
    case Cells => basin.ncells
    case Hills => basin.nhills
  }

  /** A non-path argument of `set_PhysicVariables`/`set_storage`. */
  datatype Value = Scalar(x: real) | Vector(a: seq<real>)

  /** numpy broadcasting of `np.ones((1,n)) * v`, and of assigning `v` to a
      row of width `n`: a scalar or a one-element vector fills the row, a
      vector of width `n` is copied, any other width raises. */
  function Broadcast(v: Value, n: nat): (r: Option<seq<real>>)
    ensures r.Some? <==> v.Scalar? || |v.a| == n || |v.a| == 1
    ensures r.Some? ==> |r.value| == n
    ensures v.Scalar? ==> r.Some? && forall c :: 0 <= c < n ==> r.value[c] == v.x
    ensures v.Vector? && |v.a| == n ==> r == Some(v.a)
    ensures v.Vector? && |v.a| == 1 ==> r.Some? && forall c :: 0 <= c < n ==> r.value[c] == v.a[0]
  {
    match v
    case Scalar(x) => Some(seq(n, _ => x))
    case Vector(a) =>
      if |a| == n then Some(a)
      else if |a| == 1 then Some(seq(n, _ => a[0]))
      else None
  }

  /** Python's row index `pos` into `len` rows: negative positions count
      from the end, anything outside `-len..len-1` raises. */
  function PyIndex(pos: int, len: nat): (r: Option<nat>)
    ensures r.Some? <==> -(len as int) <= pos < len
    ensures r.Some? ==> r.value < len && r.value == pos % len
  {
    if 0 <= pos < len then Some(pos)
    else if -(len as int) <= pos < 0 then Some(pos + len)
    else None
  }

  /** The tensors of the bank. */
  datatype Tensor = HCoef | HExp | VCoef | VExp | MaxCapilar | MaxGravita | Storage

  /** Rows allocated for each tensor: four levels for the coefficients and
      exponents, one for the capacities, five storage tanks. */
  function TensorRows(t: Tensor): nat
  {
    match t
    case HCoef => 4
    case HExp => 4
    case VCoef => 4
    case VExp => 4
    case MaxCapilar => 1
    case MaxGravita => 1
    case Storage => 5
  }

  /** The bank: the tensors (each `TensorRows` rows of `width` units), the
      time step, the simulation switches, the speed types, the control
      masks and the first rain record. `isAllocated` is false until a
      `SimuBasin` has been built. */
  datatype Bank = Bank(
    isAllocated: bool,
    width: nat,
    hCoef: seq<seq<real>>,
    hExp: seq<seq<real>>,
    vCoef: seq<seq<real>>,
    vExp: seq<seq<real>>,
    maxCapilar: seq<seq<real>>,
    maxGravita: seq<seq<real>>,
    storage: seq<seq<real>>,
    dt: real,
    simSediments: int,
    simSlides: int,
    saveStorage: int,
    saveSpeed: int,
    speedType: seq<int>,
    control: seq<real>,
    controlH: seq<real>,
    rainFirstPoint: int)

  function Get(b: Bank, t: Tensor): seq<seq<real>>
  {
    match t
    case HCoef => b.hCoef
    case HExp => b.hExp
    case VCoef => b.vCoef
    case VExp => b.vExp
    case MaxCapilar => b.maxCapilar
    case MaxGravita => b.maxGravita
    case Storage => b.storage
  }

  /** Everything of the bank that is not a tensor. */
  predicate SameScalars(b: Bank, b': Bank)
  {
    b'.isAllocated == b.isAllocated && b'.width == b.width && b'.dt == b.dt
    && b'.simSediments == b.simSediments && b'.simSlides == b.simSlides
    && b'.saveStorage == b.saveStorage && b'.saveSpeed == b.saveSpeed
    && b'.speedType == b.speedType && b'.control == b.control
    && b'.controlH == b.controlH && b'.rainFirstPoint == b.rainFirstPoint
  }

  /** Replace tensor `t`: the other tensors and all scalars stay. */
  function Put(b: Bank, t: Tensor, m: seq<seq<real>>): (r: Bank)
    ensures Get(r, t) == m
    ensures forall u :: u != t ==> Get(r, u) == Get(b, u)
    ensures SameScalars(b, r)
  {
    match t
    case HCoef => b.(hCoef := m)
    case HExp => b.(hExp := m)
    case VCoef => b.(vCoef := m)
    case VExp => b.(vExp := m)
    case MaxCapilar => b.(maxCapilar := m)
    case MaxGravita => b.(maxGravita := m)
    case Storage => b.(storage := m)
  }

  predicate IsMatrix(m: seq<seq<real>>, rows: nat, w: nat)
  {
    |m| == rows && forall i :: 0 <= i < rows ==> |m[i]| == w
  }

  /** Every tensor has its row count and the common width; three speed types. */
  predicate WellFormed(b: Bank)
  {
    (forall t :: IsMatrix(Get(b, t), TensorRows(t), b.width)) && |b.speedType| == 3
  }

  /** `rows` rows of `n` copies of `x` (`np.ones`/`np.zeros`). */
  function Fill(rows: nat, n: nat, x: real): (m: seq<seq<real>>)
    ensures IsMatrix(m, rows, n)
    ensures forall i, j :: 0 <= i < rows && 0 <= j < n ==> m[i][j] == x
  {
    seq(rows, _ => seq(n, _ => x))
  }

  /** The bank before any `SimuBasin` exists: no tensor is allocated and no
      control mask is set; the speed types are the engine's initial ones. */
  function Unloaded(speed0: seq<int>): (b: Bank)
    requires |speed0| == 3
    ensures WellFormed(b) && !b.isAllocated && b.width == 0
    ensures b.control == [] && b.controlH == [] && b.speedType == speed0
  {
    Bank(false, 0, Fill(4, 0, 1.0), Fill(4, 0, 1.0), Fill(4, 0, 1.0), Fill(4, 0, 1.0),
         Fill(1, 0, 1.0), Fill(1, 0, 1.0), Fill(5, 0, 0.0),
         0.0, 0, 0, 0, 0, speed0, [], [], 1)
  }

  /** A simulation switch: 1 exactly for the string "si". */
  function Flag(s: string): (f: int)
    ensures f == 1 <==> s == "si"
    ensures f == 0 <==> s != "si"
  {
    if s == "si" then 1 else 0
  }

  /** The `SimuBasin` that `__init__` builds, or `None` when the model type
      is neither "cells" nor "hills". */
  function NewSimuBasin(modelType: string, ncells: nat, nhills: nat): (r: Option<SimuBasin>)
    ensures r.Some? <==> modelType == "cells" || modelType == "hills"
    ensures r.Some? ==> (r.value.ncells == ncells && r.value.nhills == nhills
                         && (r.value.mt == Cells <==> modelType == "cells"))
  {
    match ParseModelType(modelType)
    case None => None
    case Some(mt) => Some(SimuBasin(mt, ncells, nhills))
  }

  /** The allocation in `SimuBasin.__init__`: all tensors are made `N` units
      wide, coefficients, exponents and capacities are ones, storage is
      zeros, and the switches are 1 exactly for "si". The speed types, the
      control masks and the first rain record are left as they were. */
  function AfterInit(b: Bank, basin: SimuBasin, dt: real, simSed: string, simSlides: string,
                     saveStorage: string, saveSpeed: string): (r: Bank)
    requires |b.speedType| == 3
    ensures WellFormed(r) && r.isAllocated && r.width == Units(basin)
    ensures forall t, i, j :: t != Storage && 0 <= i < TensorRows(t) && 0 <= j < r.width ==> Get(r, t)[i][j] == 1.0
    ensures forall i, j :: 0 <= i < 5 && 0 <= j < r.width ==> Get(r, Storage)[i][j] == 0.0
    ensures r.dt == dt
    ensures (r.simSediments == 1 <==> simSed == "si") && (r.simSlides == 1 <==> simSlides == "si")
    ensures (r.saveStorage == 1 <==> saveStorage == "si") && (r.saveSpeed == 1 <==> saveSpeed == "si")
    ensures r.speedType == b.speedType && r.control == b.control && r.controlH == b.controlH
    ensures r.rainFirstPoint == b.rainFirstPoint
  {
    var n := Units(basin);
    b.(isAllocated := true, width := n,
       vCoef := Fill(4, n, 1.0), hCoef := Fill(4, n, 1.0), vExp := Fill(4, n, 1.0),
       hExp := Fill(4, n, 1.0), maxCapilar := Fill(1, n, 1.0), maxGravita := Fill(1, n, 1.0),
       storage := Fill(5, n, 0.0), dt := dt,
       simSediments := Flag(simSed), simSlides := Flag(simSlides),
       saveStorage := Flag(saveStorage), saveSpeed := Flag(saveSpeed))
  }

  /** The outcome of a bank method: whether it returned normally, and the
      bank afterwards (a method that raises may already have written). */
  datatype Step = Step(ok: bool, bank: Bank)

  /** `tensor[pos] = vec` on a tensor of `|m|` rows and width `w`. */
  function AssignRow(m: seq<seq<real>>, pos: int, vec: seq<real>, w: nat): (r: Option<seq<seq<real>>>)
    ensures r.Some? <==> PyIndex(pos, |m|).Some? && Broadcast(Vector(vec), w).Some?
    ensures r.Some? ==> |r.value| == |m|
    ensures r.Some? ==> r.value[PyIndex(pos, |m|).value] == Broadcast(Vector(vec), w).value
    ensures r.Some? ==> forall i :: 0 <= i < |m| && i != PyIndex(pos, |m|).value ==> r.value[i] == m[i]
  {
    match PyIndex(pos, |m|)
    case None => None
    case Some(i) =>
      match Broadcast(Vector(vec), w)
      case None => None
      case Some(row) => Some(m[i := row])
  }

  /** Write row `pos` of tensor `t`: it fails, changing nothing, when no
      tensor is allocated, the row does not exist or `vec` does not
      broadcast to the width; otherwise exactly that row changes. */
  function WriteTensor(b: Bank, t: Tensor, pos: int, vec: seq<real>): (r: Step)
    ensures r.ok <==> b.isAllocated && PyIndex(pos, |Get(b, t)|).Some?
                      && Broadcast(Vector(vec), b.width).Some?
    ensures !r.ok ==> r.bank == b
    ensures r.ok ==> SameScalars(b, r.bank) && |Get(r.bank, t)| == |Get(b, t)|
    ensures r.ok ==> forall u :: u != t ==> Get(r.bank, u) == Get(b, u)
    ensures r.ok ==> Get(r.bank, t)[PyIndex(pos, |Get(b, t)|).value]
                     == Broadcast(Vector(vec), b.width).value
    ensures r.ok ==> forall i :: 0 <= i < |Get(b, t)| && i != PyIndex(pos, |Get(b, t)|).value ==>
                       Get(r.bank, t)[i] == Get(b, t)[i]
  {
    if !b.isAllocated then Step(false, b)
    else match AssignRow(Get(b, t), pos, vec, b.width)
      case None => Step(false, b)
      case Some(m) => Step(true, Put(b, t, m))
  }

  /** The variable names `set_PhysicVariables` recognises. */
  function PhysicTarget(name: string): (r: Option<Tensor>)
    ensures r != Some(Storage)
    ensures r.None? <==> name !in {"h_coef", "h_exp", "v_coef", "v_exp", "capilar", "gravit"}
    ensures r == Some(MaxCapilar) <==> name == "capilar"
    ensures r == Some(MaxGravita) <==> name == "gravit"
    ensures r == Some(HCoef) <==> name == "h_coef"
    ensures r == Some(HExp) <==> name == "h_exp"
    ensures r == Some(VCoef) <==> name == "v_coef"
    ensures r == Some(VExp) <==> name == "v_exp"
  {
    if name == "h_coef" then Some(HCoef)
    else if name == "h_exp" then Some(HExp)
    else if name == "v_coef" then Some(VCoef)
    else if name == "v_exp" then Some(VExp)
    else if name == "capilar" then Some(MaxCapilar)
    else if name == "gravit" then Some(MaxGravita)
    else None
  }

  /** The names the method's own documentation gives for the capacities are
      not the ones it tests, so passing them stores nothing. */
  lemma DocumentedCapacityNamesIgnored()
    ensures PhysicTarget("max_capilar") == None && PhysicTarget("Max_gravit") == None
  {
  }

  /** A hills basin given a numeric mask cannot aggregate: the broadcast
      vector has shape `(1, ncells)`, and `Transform_Basin2Hills` indexes its
      one-dimensional `Ma` with the comparison of that vector against the
      mask, which raises `IndexError`. */
  predicate HillsMaskRaises(basin: SimuBasin, mask: MaskArg)
  {
    basin.mt == Hills && mask.ScalarMask?
  }

  /** The vector `set_PhysicVariables` stores: the value broadcast over the
      cells and, in hills mode, aggregated to hillslopes by the `cu`
      kernel `agg(field, mask)` under the mask `BuildMask` makes. */
  function PhysicVector(basin: SimuBasin, v: Value, mask: MaskArg,
                        agg: (seq<real>, seq<real>) -> seq<real>): (r: Option<seq<real>>)
    ensures r.Some? <==> Broadcast(v, basin.ncells).Some? && !HillsMaskRaises(basin, mask)
    ensures basin.mt == Cells ==> r == Broadcast(v, basin.ncells)
    ensures basin.mt == Hills && r.Some? ==>
      r.value == agg(Broadcast(v, basin.ncells).value,
                     BuildMask(Broadcast(v, basin.ncells).value, mask, basin.ncells))
  {
    match Broadcast(v, basin.ncells)
    case None => None
    case Some(cells) =>
      if HillsMaskRaises(basin, mask) then None
      else if basin.mt == Hills then Some(agg(cells, BuildMask(cells, mask, basin.ncells)))
      else Some(cells)
  }

  /** Row written by `set_PhysicVariables`: `pos` for the four-level
      tensors, row 0 for the capacities. */
  function PhysicRow(t: Tensor, pos: int): int
  {
    if t == MaxCapilar || t == MaxGravita then 0 else pos
  }

  /** `set_PhysicVariables(name, var, pos, mask)`. */
  function AfterSetPhysic(b: Bank, basin: SimuBasin, name: string, v: Value, pos: int,
                          mask: MaskArg, agg: (seq<real>, seq<real>) -> seq<real>): (r: Step)
    ensures PhysicVector(basin, v, mask, agg).None? ==> !r.ok
    ensures !r.ok ==> r.bank == b
    ensures SameScalars(b, r.bank)
    ensures forall u :: PhysicTarget(name) != Some(u) ==> Get(r.bank, u) == Get(b, u)
  {
    match PhysicVector(basin, v, mask, agg)
    case None => Step(false, b)
    case Some(vec) =>
      match PhysicTarget(name)
      case None => Step(true, b)
      case Some(t) => WriteTensor(b, t, PhysicRow(t, pos), vec)
  }

  /** An unrecognised name stores nothing; the call still raises when the
      value does not broadcast over the cells. */
  lemma SetPhysicUnknownName(b: Bank, basin: SimuBasin, name: string, v: Value, pos: int,
                             mask: MaskArg, agg: (seq<real>, seq<real>) -> seq<real>)
    requires PhysicTarget(name).None?
    ensures AfterSetPhysic(b, basin, name, v, pos, mask, agg).bank == b
    ensures AfterSetPhysic(b, basin, name, v, pos, mask, agg).ok
        <==> Broadcast(v, basin.ncells).Some? && !HillsMaskRaises(basin, mask)
  {
  }

  /** On a hills basin a numeric mask always makes the call raise, before
      anything is stored, whatever the name and the value. */
  lemma SetPhysicHillsScalarMaskRaises(b: Bank, basin: SimuBasin, name: string, v: Value,
                                       pos: int, x: real,
                                       agg: (seq<real>, seq<real>) -> seq<real>)
    requires basin.mt == Hills
    ensures var r := AfterSetPhysic(b, basin, name, v, pos, ScalarMask(x), agg);
      !r.ok && r.bank == b
  {
  }

  /** A recognised name writes exactly one row of its tensor and nothing else. */
  lemma SetPhysicWritesOneRow(b: Bank, basin: SimuBasin, name: string, v: Value, pos: int,
                              mask: MaskArg, agg: (seq<real>, seq<real>) -> seq<real>)
    requires PhysicTarget(name).Some?
    requires AfterSetPhysic(b, basin, name, v, pos, mask, agg).ok
    ensures var t := PhysicTarget(name).value;
      var b' := AfterSetPhysic(b, basin, name, v, pos, mask, agg).bank;
      var i := PyIndex(PhysicRow(t, pos), |Get(b, t)|).value;
      SameScalars(b, b') && (forall u :: u != t ==> Get(b', u) == Get(b, u))
      && Get(b', t)[i] == Broadcast(Vector(PhysicVector(basin, v, mask, agg).value), b.width).value
      && forall j :: 0 <= j < |Get(b, t)| && j != i ==> Get(b', t)[j] == Get(b, t)[j]
  {
  }

  /** In cells mode a scalar fills the whole row `pos` (counted from the end
      when negative) once the bank is allocated for this basin. */
  lemma SetPhysicScalarCells(b: Bank, basin: SimuBasin, name: string, x: real, pos: int,
                             mask: MaskArg, agg: (seq<real>, seq<real>) -> seq<real>)
    requires WellFormed(b) && b.isAllocated && basin.mt == Cells && b.width == basin.ncells
    requires name in {"h_coef", "h_exp", "v_coef", "v_exp"} && -4 <= pos < 4
    ensures var r := AfterSetPhysic(b, basin, name, Scalar(x), pos, mask, agg);
      var t := PhysicTarget(name).value;
      r.ok && forall j :: 0 <= j < b.width ==> Get(r.bank, t)[pos % 4][j] == x
  {
    var t := PhysicTarget(name).value;
    assert |Get(b, t)| == 4;
  }

  /** A failed call leaves the bank as it was, and a bank stays well formed. */
  lemma SetPhysicKeepsWellFormed(b: Bank, basin: SimuBasin, name: string, v: Value, pos: int,
                                 mask: MaskArg, agg: (seq<real>, seq<real>) -> seq<real>)
    requires WellFormed(b)
    ensures var r := AfterSetPhysic(b, basin, name, v, pos, mask, agg);
      WellFormed(r.bank) && (!r.ok ==> r.bank == b)
  {
    var r := AfterSetPhysic(b, basin, name, v, pos, mask, agg);
    if r.ok && PhysicTarget(name).Some? {
      var t := PhysicTarget(name).value;
      WriteTensorKeepsWellFormed(b, t, PhysicRow(t, pos), PhysicVector(basin, v, mask, agg).value);
    }
  }

  lemma WriteTensorKeepsWellFormed(b: Bank, t: Tensor, pos: int, vec: seq<real>)
    requires WellFormed(b)
    ensures WellFormed(WriteTensor(b, t, pos, vec).bank)
  {
    var r := WriteTensor(b, t, pos, vec);
    if r.ok {
      var i := PyIndex(pos, |Get(b, t)|).value;
      forall u ensures IsMatrix(Get(r.bank, u), TensorRows(u), r.bank.width) {
        assert IsMatrix(Get(b, u), TensorRows(u), b.width);
        if u == t {
          forall j | 0 <= j < TensorRows(u) ensures |Get(r.bank, u)[j]| == r.bank.width {
            if j != i {
              assert Get(r.bank, u)[j] == Get(b, u)[j];
            }
          }
        }
      }
    }
  }

  /** `set_storage(var, pos)`: the value is broadcast over the `N` units of
      this basin and written into storage row `pos`. */
  function AfterSetStorage(b: Bank, basin: SimuBasin, v: Value, pos: int): (r: Step)
    ensures r.ok <==> Broadcast(v, Units(basin)).Some?
                      && WriteTensor(b, Storage, pos, Broadcast(v, Units(basin)).value).ok
    ensures !r.ok ==> r.bank == b
  {
    match Broadcast(v, Units(basin))
    case None => Step(false, b)
    case Some(vec) => WriteTensor(b, Storage, pos, vec)
  }

  /** A value that broadcasts over the units becomes storage row `pos`
      (counted from the end when negative); nothing else changes. */
  lemma SetStorageWritesOneRow(b: Bank, basin: SimuBasin, v: Value, pos: int)
    requires WellFormed(b) && b.isAllocated && b.width == Units(basin) && -5 <= pos < 5
    requires Broadcast(v, Units(basin)).Some?
    ensures var r := AfterSetStorage(b, basin, v, pos);
      r.ok && SameScalars(b, r.bank) && (forall u :: u != Storage ==> Get(r.bank, u) == Get(b, u))
      && r.bank.storage[pos % 5] == Broadcast(v, Units(basin)).value
      && forall j :: 0 <= j < 5 && j != pos % 5 ==> r.bank.storage[j] == b.storage[j]
  {
    var vec := Broadcast(v, Units(basin)).value;
    assert Broadcast(Vector(vec), b.width) == Some(vec);
    assert |Get(b, Storage)| == 5;
  }

  /** Only storage row `pos` changes, and a scalar fills it. */
  lemma SetStorageScalar(b: Bank, basin: SimuBasin, x: real, pos: int)
    requires WellFormed(b) && b.isAllocated && b.width == Units(basin) && -5 <= pos < 5
    ensures var r := AfterSetStorage(b, basin, Scalar(x), pos);
      r.ok && SameScalars(b, r.bank) && (forall u :: u != Storage ==> Get(r.bank, u) == Get(b, u))
      && (forall j :: 0 <= j < b.width ==> r.bank.storage[pos % 5][j] == x)
      && forall i :: 0 <= i < 5 && i != pos % 5 ==> r.bank.storage[i] == b.storage[i]
  {
    assert |Get(b, Storage)| == 5;
  }

  /** A vector of the wrong length is rejected and changes nothing. */
  lemma SetStorageWrongLength(b: Bank, basin: SimuBasin, a: seq<real>, pos: int)
    requires |a| != Units(basin) && |a| != 1
    ensures AfterSetStorage(b, basin, Vector(a), pos) == Step(false, b)
  {
  }

  lemma SetStorageKeepsWellFormed(b: Bank, basin: SimuBasin, v: Value, pos: int)
    requires WellFormed(b)
    ensures WellFormed(AfterSetStorage(b, basin, v, pos).bank)
  {
    if Broadcast(v, Units(basin)).Some? {
      WriteTensorKeepsWellFormed(b, Storage, pos, Broadcast(v, Units(basin)).value);
    }
  }

  /** A control mask as `set_record` replaces it: zeros when none is given,
      the given one when it has `n` entries, and otherwise the old one. */
  function NewControl(current: seq<real>, given: Option<seq<real>>, n: nat): (r: seq<real>)
    ensures |r| == n || r == current
    ensures given.None? ==> |r| == n && forall i :: 0 <= i < n ==> r[i] == 0.0
    ensures given.Some? && |given.value| == n ==> r == given.value
    ensures given.Some? && |given.value| != n ==> r == current
  {
    match given
    case None => seq(n, _ => 0.0)
    case Some(g) => if |g| == n then g else current
  }

  /** `set_record(controlQ, controlH)`. The outlet flag is written after the
      discharge mask is replaced and before the humidity mask is; writing
      it into an empty mask raises. */
  function AfterSetRecord(b: Bank, basin: SimuBasin, controlQ: Option<seq<real>>,
                          controlH: Option<seq<real>>): (r: Step)
    ensures forall t :: Get(r.bank, t) == Get(b, t)
    ensures r.bank == b.(control := r.bank.control, controlH := r.bank.controlH)
  {
    var n := Units(basin);
    var c := NewControl(b.control, controlQ, n);
    if |c| == 0 then Step(false, b.(control := c))
    else Step(true, b.(control := c[|c| - 1 := 1.0], controlH := NewControl(b.controlH, controlH, n)))
  }

  /** After a normal return the last unit (the outlet) is a control point,
      and the masks are what was given, or zeros when nothing was given. */
  lemma SetRecordOutlet(b: Bank, basin: SimuBasin, controlQ: Option<seq<real>>,
                        controlH: Option<seq<real>>)
    ensures var r := AfterSetRecord(b, basin, controlQ, controlH);
      var n := Units(basin);
      var c := r.bank.control;
      (r.ok <==> |NewControl(b.control, controlQ, n)| > 0)
      && (r.ok ==> c[|c| - 1] == 1.0)
      && (r.ok && (controlQ.None? || |controlQ.value| == n) ==> |c| == n)
      && (r.ok && controlQ.None? ==> forall k :: 0 <= k < n - 1 ==> c[k] == 0.0)
      && (r.ok && controlQ.Some? && |controlQ.value| == n ==>
            forall k :: 0 <= k < n - 1 ==> c[k] == controlQ.value[k])
  {
  }

  /** A discharge mask of the wrong length is ignored: the old mask is kept
      and only its last entry is set. */
  lemma SetRecordIgnoresWrongLength(b: Bank, basin: SimuBasin, q: seq<real>,
                                    controlH: Option<seq<real>>)
    requires |q| != Units(basin) && |b.control| > 0
    ensures var r := AfterSetRecord(b, basin, Some(q), controlH);
      r.ok && r.bank.control == b.control[|b.control| - 1 := 1.0]
  {
  }

  /** The humidity mask after a normal return: zeros of length `N` when
      absent, the given one when it has `N` entries, the old one otherwise. */
  lemma SetRecordHumidity(b: Bank, basin: SimuBasin, controlQ: Option<seq<real>>,
                          controlH: Option<seq<real>>)
    requires AfterSetRecord(b, basin, controlQ, controlH).ok
    ensures var h := AfterSetRecord(b, basin, controlQ, controlH).bank.controlH;
      var n := Units(basin);
      (controlH.None? ==> |h| == n && forall k :: 0 <= k < n ==> h[k] == 0.0)
      && (controlH.Some? && |controlH.value| == n ==> h == controlH.value)
      && (controlH.Some? && |controlH.value| != n ==> h == b.controlH)
  {
  }

  /** `set_record` raises only when the discharge mask ends up empty: with no
      usable mask of its own and an empty previous one, or when `N` is 0. */
  lemma SetRecordFailsOnlyWhenEmpty(b: Bank, basin: SimuBasin, controlQ: Option<seq<real>>,
                                    controlH: Option<seq<real>>)
    ensures var r := AfterSetRecord(b, basin, controlQ, controlH);
      !r.ok <==> (if controlQ.None? || |controlQ.value| == Units(basin)
                  then Units(basin) == 0 else |b.control| == 0)
  {
  }

  /** Number of nonzero entries (`np.count_nonzero`). */
  function CountNonzero(s: seq<real>): (k: nat)
    ensures k <= |s|
  {
    if s == [] then 0 else CountNonzero(s[..|s| - 1]) + (if s[|s| - 1] != 0.0 then 1 else 0)
  }

  lemma {:induction false} CountNonzeroIsCardinality(s: seq<real>)
    ensures CountNonzero(s) == |set k | 0 <= k < |s| && s[k] != 0.0|
  {
    if s != [] {
      var p := s[..|s| - 1];
      CountNonzeroIsCardinality(p);
      var sp := set k | 0 <= k < |p| && p[k] != 0.0;
      var ss := set k | 0 <= k < |s| && s[k] != 0.0;
      if s[|s| - 1] != 0.0 {
        assert ss == sp + {|s| - 1};
      } else {
        assert ss == sp;
      }
    }
  }

  lemma {:induction false} CountNonzeroPositive(s: seq<real>, k: nat)
    requires k < |s| && s[k] != 0.0
    ensures CountNonzero(s) >= 1
  {
    if k < |s| - 1 {
      CountNonzeroPositive(s[..|s| - 1], k);
    }
  }

  /** The number of control points handed to the engine: the nonzero count,
      or 1 when there is none. */
  function ControlCount(s: seq<real>): (k: nat)
    ensures k >= 1
    ensures CountNonzero(s) > 0 ==> k == CountNonzero(s)
    ensures CountNonzero(s) == 0 ==> k == 1
  {
    if CountNonzero(s) == 0 then 1 else CountNonzero(s)
  }

  /** After a normal `set_record` the outlet is always counted, so the
      fallback to 1 never applies. */
  lemma RecordedControlCountExact(b: Bank, basin: SimuBasin, controlQ: Option<seq<real>>,
                                  controlH: Option<seq<real>>)
    requires AfterSetRecord(b, basin, controlQ, controlH).ok
    ensures var c := AfterSetRecord(b, basin, controlQ, controlH).bank.control;
      CountNonzero(c) >= 1 && ControlCount(c) == CountNonzero(c)
  {
    var c := AfterSetRecord(b, basin, controlQ, controlH).bank.control;
    CountNonzeroPositive(c, |c| - 1);
  }

  /** The speed type stored for a requested one: 1 and 2 are kept, anything
      else becomes 1. */
  function SpeedCode(i: real): (k: int)
    ensures k == 1 || k == 2
    ensures k == 2 <==> i == 2.0
    ensures (i == 1.0 || i == 2.0) ==> k as real == i
  {
    if i == 1.0 || i == 2.0 then i.Floor else 1
  }

  /** `set_speed_type(types)`: entry `c` of the three speed types becomes
      `SpeedCode(types[c])`; a fourth entry raises after the first three
      were written. */
  function AfterSetSpeedType(b: Bank, types: seq<real>): (r: Step)
    requires |b.speedType| == 3
    ensures r.ok <==> |types| <= 3
    ensures r.bank == b.(speedType := r.bank.speedType) && |r.bank.speedType| == 3
    ensures forall c :: 0 <= c < 3 && c < |types| ==> r.bank.speedType[c] == SpeedCode(types[c])
    ensures forall c :: |types| <= c < 3 ==> r.bank.speedType[c] == b.speedType[c]
  {
    Step(|types| <= 3,
         b.(speedType := seq(3, c requires 0 <= c < 3 =>
              if c < |types| then SpeedCode(types[c]) else b.speedType[c])))
  }

  /** The default argument `np.ones(3)` selects the linear-reservoir speed
      at every level. */
  lemma DefaultSpeedTypes(b: Bank)
    requires |b.speedType| == 3
    ensures AfterSetSpeedType(b, [1.0, 1.0, 1.0]) == Step(true, b.(speedType := [1, 1, 1]))
  {
    var r := AfterSetSpeedType(b, [1.0, 1.0, 1.0]);
    assert r.bank.speedType == [1, 1, 1];
  }

  /** The sizes `run_shia` hands to the simulation kernel. */
  datatype ShiaCall = ShiaCall(n: nat, nControlQ: nat, nControlH: nat, nIntervals: int)

  /** Keys of the dictionary `run_shia` returns. */
  function ResultKeys(b: Bank): (keys: set<string>)
    ensures {"Qsim", "Balance", "Storage"} <= keys
    ensures keys <= {"Qsim", "Balance", "Storage", "Humedad", "Sediments"}
    ensures "Humedad" in keys <==> CountNonzero(b.controlH) > 0
    ensures "Sediments" in keys <==> b.simSediments == 1
  {
    {"Qsim", "Balance", "Storage"}
    + (if CountNonzero(b.controlH) > 0 then {"Humedad"} else {})
    + (if b.simSediments == 1 then {"Sediments"} else {})
  }

  datatype ShiaRun = ShiaRun(bank: Bank, call: ShiaCall, keys: set<string>)

  /** `run_shia`: records the first rain record to use, passes the unit count
      and the control counts, and reports the keys of what it returns. The
      kernel runs the storage forward; `endStorage` is the state it leaves,
      of the storage tensor's own shape. */
  function AfterRunShia(b: Bank, basin: SimuBasin, nIntervals: int, startPoint: int,
                        endStorage: seq<seq<real>>): (r: ShiaRun)
    requires IsMatrix(endStorage, 5, b.width)
    ensures r.bank == b.(rainFirstPoint := startPoint, storage := endStorage)
    ensures r.call.n == Units(basin) && r.call.nIntervals == nIntervals
    ensures r.call.nControlQ == ControlCount(b.control) && r.call.nControlH == ControlCount(b.controlH)
    ensures r.keys == ResultKeys(b)
  {
    ShiaRun(b.(rainFirstPoint := startPoint, storage := endStorage),
            ShiaCall(Units(basin), ControlCount(b.control), ControlCount(b.controlH), nIntervals),
            ResultKeys(b))
  }

  /** With no humidity control point the kernel still gets one, but no
      humidity series is returned. */
  lemma RunWithoutHumidityControl(b: Bank, basin: SimuBasin, nIntervals: int, startPoint: int,
                                  endStorage: seq<seq<real>>)
    requires IsMatrix(endStorage, 5, b.width)
    requires forall k :: 0 <= k < |b.controlH| ==> b.controlH[k] == 0.0
    ensures var r := AfterRunShia(b, basin, nIntervals, startPoint, endStorage);
      r.call.nControlH == 1 && "Humedad" !in r.keys
  {
    CountNonzeroIsCardinality(b.controlH);
    var z := set k | 0 <= k < |b.controlH| && b.controlH[k] != 0.0;
    assert z == {};
  }

  /** A run keeps the bank well formed and the parameters where they were:
      only the storage and the first rain record change. A second run starts
      from the storage the first one left. */
  lemma RunShiaKeepsParameters(b: Bank, basin: SimuBasin, nIntervals: int, startPoint: int,
                               endStorage: seq<seq<real>>)
    requires WellFormed(b) && IsMatrix(endStorage, 5, b.width)
    ensures var r := AfterRunShia(b, basin, nIntervals, startPoint, endStorage);
      WellFormed(r.bank) && r.bank.storage == endStorage
      && (forall t :: t != Storage ==> Get(r.bank, t) == Get(b, t))
      && r.bank.control == b.control && r.bank.controlH == b.controlH
      && r.bank.speedType == b.speedType && r.bank.isAllocated == b.isAllocated
  {
    var r := AfterRunShia(b, basin, nIntervals, startPoint, endStorage);
    forall t ensures IsMatrix(Get(r.bank, t), TensorRows(t), r.bank.width) {
      assert IsMatrix(Get(b, t), TensorRows(t), b.width);
    }
  }
}
