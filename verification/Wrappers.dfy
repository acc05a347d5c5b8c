/** Failure-carrying datatypes shared by every module. */
module Wrappers {
  datatype Option<+T> = None | Some(value: T)

  /** The source's `RlabError`, by the variant that is raised. */
  datatype Error = Validation | Config | Artifact | Io | Serialization

  datatype Result<+T> = Ok(value: T) | Err(error: Error)
}
