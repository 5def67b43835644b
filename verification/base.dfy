/** Vocabulary shared by every part of the converter: optional values, the
    two Python exceptions the conversion lets escape, and the floating-point
    numbers it carries from input to output without computing with them. */
module Base {

  /** Python's `None` or a value. */
  datatype Option<+T> = None | Some(value: T)

  /** The exceptions `convert_csv_to_kml` raises to its caller, with their messages. */
  datatype Error = ValueError(message: string) | ImportError(message: string)

  /** A value, or the exception that was raised instead of returning it. */
  datatype Result<+T> = Ok(value: T) | Err(error: Error)

  /** A Python `float`. The converter never does arithmetic on one: it parses
      it, stores it and formats it, so its representation is left abstract. */
  type Float(==, !new)

  /** A position in the order the converter stores it: longitude, then latitude. */
  datatype Coord = Coord(lon: Float, lat: Float)
}
