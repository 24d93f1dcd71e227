/** Optional values and the single failure outcome of the importer.
    Every `unwrap`, `assert!` and `panic!` of the importer aborts the whole
    run, so one error outcome, `Fatal`, stands for all of them. */
module Outcomes {

  datatype Option<T> = None | Some(value: T)

  datatype Result<T> = Ok(value: T) | Fatal
}
