/** Outcomes of the toolbox operations: the exceptions the scripts raise
    become values, so that every error path is part of the model. */
module Outcomes {

  datatype Option<T> = None | Some(value: T)

  /** Why a tool run stops. */
  datatype Failure =
    | MissingSeparator(tag: string)           // change.split("_")[1] has no second part
    | CodeIndexOutOfRange(code1: string, code2: string)  // code2[i] read past its end
    | UnknownUnit(unit: string)               // a unit dictionary has no such key
    | MissingLayer(name: string)              // a layer that was never created is copied
    | MissingField(field: string)             // a cursor names a field the layer lacks
    | DivisionByZero                          // a percentage over a zero total
    | UnboundVariable(name: string)           // `del` of a name no loop pass has bound

  datatype Result<T> = Ok(value: T) | Err(failure: Failure)
}
