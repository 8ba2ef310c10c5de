/** A value that may be missing: `None` stands for JavaScript's `null`
    (in a series of prices or volumes) or for the `NaN` padding sentinel
    (in an indicator series). */
module Options {

  datatype Option<+T> = None | Some(value: T)
}
