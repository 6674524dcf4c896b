/** Failure results shared by the whole model.  In the Rust source most of
    these are compile-time errors ("no impl") or panics; here they are
    ordinary values so that the model can state when they happen. */
module Wrappers {

  datatype Option<+T> = Nothing | Some(value: T)

  datatype Result<+T> = Ok(value: T) | Err(error: Error)

  datatype Error =
    | PlaceholderUnit              // a unit-trait method called on the placeholder unit `None`
    | MarkerArithmetic             // the value-level `add` of an exponent marker
    | KindMismatch                 // same-type arithmetic on two different kinds or units
    | UnitConflict                 // no `EqualsOrZero` merge for the two units of a slot
    | Unregistered                 // no resolver rule for the combined exponent pattern
    | EmptyMappings                // `impl_derived_conversions!` with no mapping
    | UnknownDimension(name: string)   // a mapping names no base dimension
    | MissingAttribute(name: string)   // `derive(Unit)` without a required attribute
    | MalformedAttribute(name: string) // `derive(Unit)` with an attribute of the wrong shape
    | NonTypeGeneric                   // `derive(Unit)` on a type with a lifetime or const parameter
}
