/** Option and Result, standing for Python's `None` and for raised exceptions. */
module Wrappers {
  datatype Option<+T> = None | Some(value: T)
  datatype Result<+R, +E> = Success(value: R) | Failure(error: E)

  /** The Python exceptions the modelled code can raise. */
  datatype PyError =
    | ValueError        // numpy: a reduction over an empty array, or a negative sample count
    | ZeroDivisionError // dividing by a sum of weights that is zero
    | AxisError         // numpy: summing along an axis the array does not have
    | AttributeError    // calling a method the object's class does not define
}
