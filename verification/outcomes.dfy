/** Optional values and the error outcomes that stand for the exceptions
    raised by the provisioning code. */
module Outcomes {

  /** A value that may be absent, such as an unset environment variable. */
  datatype Option<+T> = None | Some(value: T)

  /** The exceptions the provisioning code raises or lets through. */
  datatype Error =
    | UserAlreadyExists
    | UserNotExists
      /** `ValueError` naming the configuration variable that is missing or empty. */
    | SettingNotSet(variable: string)

  /** Either a value or the exception that interrupted the computation. */
  datatype Result<+T> = Ok(value: T) | Err(error: Error)
}
