/** Result and error types shared by the flight pipeline. */
module Common {

  datatype Option<+T> = None | Some(value: T)

  /** The exceptions the pipeline can raise, one constructor per kind of failure. */
  datatype Error =
    | BadClock            // fromisoformat rejects the "<date>T<token>:00+08:00" text
    | BadInteger          // int() rejects one of the parts of a "(DD/MM/YYYY)" token
    | MissingDatePart     // the date token has fewer than three '/'-separated parts
    | InvalidDate         // date(year, month, day) rejects the three numbers
    | DateOverflow        // the lower bound falls outside the datetime range
    | FetchFailed         // the record source raised for one queried date
    | NotEnoughValues     // stdev needs at least two values
    | EmptySequence       // min()/max() of an empty list

  datatype Result<+T> = Ok(value: T) | Err(error: Error)
}
