/** Small shared vocabulary: an optional value for the operations that raise
    in the source, and the process-wide raster configuration. */
module Common {

  /** `None` stands for the Python exception an operation would raise. */
  datatype Option<+T> = None | Some(value: T)

  /** The raster metadata the `cu` module keeps as module state
      (`cu.ncols`, `cu.nrows`, `cu.xll`, `cu.yll`, `cu.dx`, `cu.dxp`). */
  datatype Grid = Grid(ncols: nat, nrows: nat, xll: real, yll: real, dx: real, dxp: real)

  /** A planar coordinate (the first two rows of a stream or station array). */
  datatype Point = Point(x: real, y: real)
}
