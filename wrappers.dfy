/** Failure-carrying results shared by the pipeline stages. */
module Wrappers {

  datatype Option<T> = None | Some(value: T)

  /** The source's exceptions that the model carries as values. */
  datatype Failure =
    | NoStreetNodes    // the nearest-neighbour tree cannot be built over zero street nodes
    | NoBusStops       // `min` over an empty collection of stops
    | DivisionByZero   // the system score when no route was recorded

  datatype Result<T> = Ok(value: T) | Err(error: Failure)
}
