/** The Option type used for the nullable `Point` fields of the viewer. */
module Wrappers {

  /** `None` plays the role of a Java `null` reference. */
  datatype Option<+T> = None | Some(value: T)
}
