/** The client-visible errors of the handlers (HTTP 400 responses). */
module Errors {

  datatype Error =
    | NoLockedStudent       // `/assign-intervention` with nobody locked
    | NoActiveIntervention  // `/complete-intervention` with nothing to complete
}
