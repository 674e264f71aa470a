/** An optional value. A daily discharge reading of type `Option<real>` is
    `None` where `program_10.py` holds the not-a-number "no data" marker. */
module Wrappers {

  datatype Option<+T> = None | Some(value: T)
}
