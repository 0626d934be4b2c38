/** Result kinds shared by every command handler of the bot. */
module Outcomes {

  datatype Option<T> = None | Some(value: T)

  /** The error kinds a command can reply with. */
  datatype Error =
    | InvalidDateFormat       // strptime rejected a date string
    | AlreadyExists           // start_plan on a date that already has a plan
    | UnknownDate             // no plan has been created for the date
    | UnknownSlot             // the slot label is not a key of that day's plan
    | InvalidYearMonthFormat  // the year-month argument does not hold exactly one '-'
    | NotAnInteger            // int() rejected the year or the month
    | InvalidMonth            // the month is outside 1..12

  /** The outcome of a command that produces a value. */
  datatype Result<T> = Ok(value: T) | Err(error: Error)

  /** The outcome of a command that only changes the store. */
  datatype Status = Done | Failed(error: Error)
}
