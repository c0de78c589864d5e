/** The Option datatype used throughout the model. `None` stands for a value
    the source leaves undefined: an f64 NaN produced by 0.0 / 0.0, or a
    failed parse. */
module Wrappers {

  datatype Option<+T> = None | Some(value: T)
}
