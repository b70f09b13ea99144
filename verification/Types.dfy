/** The value types shared by the whole model (types.h). */
module Types {
  datatype Option<+T> = None | Some(value: T)

  datatype Direction = Forward | Backward

  /** A double that may be +infinity. Arithmetic on finite values is exact, so EPS is zero. */
  datatype Bound = Fin(val: real) | Inf {
    predicate AtMost(b: Bound) { b.Inf? || (Fin? && val <= b.val) }

    predicate Less(b: Bound) { Fin? && (b.Inf? || val < b.val) }

    /** The test `this >= x` for a finite x. */
    predicate AtLeast(x: real) { Inf? || val >= x }

    /** The test `this > x` for a finite x. */
    predicate Above(x: real) { Inf? || val > x }

    function Plus(b: Bound): Bound {
      if Fin? && b.Fin? then Fin(val + b.val) else Inf
    }

    function Add(x: real): Bound {
      if Fin? then Fin(val + x) else Inf
    }
  }

  /** std::min, which keeps the first argument on a tie. */
  function MinBound(a: Bound, b: Bound): Bound {
    if b.Less(a) then b else a
  }

  function Max(a: real, b: real): real { if a < b then b else a }

  function Min(a: real, b: real): real { if b < a then b else a }

  /** The pair of main resources that spans the bucket grid. */
  datatype Vec = Vec(x: real, y: real) {
    predicate AtMost(w: Vec) { x <= w.x && y <= w.y }
  }
}
