/** The failure-carrying value every transition of the model returns: `None` stands for
    an assertion of the contract that did not hold, which aborts the whole call. */
module Wrappers {

  datatype Option<+T> = None | Some(value: T)

}
