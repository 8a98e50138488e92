/** The one optional-value type the other modules share. */
module Options {
  datatype Option<+T> = None | Some(value: T)
}

/** A finite run of events, oldest first, grown at the end. */
module Runs {
  datatype Run<T> = Start | Then(past: Run<T>, last: T)

  function Append<T>(a: Run<T>, b: Run<T>): Run<T> {
    match b
    case Start => a
    case Then(past, last) => Then(Append(a, past), last)
  }

  function Length<T>(r: Run<T>): nat {
    match r
    case Start => 0
    case Then(past, _) => Length(past) + 1
  }
}
