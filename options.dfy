/** The absent-or-present value: `None` stands for JavaScript's `NaN`, and for
    a line that is not a mention. */
module Options {

  datatype Option<+T> = None | Some(value: T)
}
