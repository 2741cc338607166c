/** The severity strings the two installers pass to their `log` methods. */
module Logging {

  datatype Level = Info | Success | Warning | Error
}
