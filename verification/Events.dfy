/** The values every other module speaks about: a log event and its structured fields. */
module Events {

  datatype Option<+T> = None | Some(value: T)

  /** The route mask has 64 bits: routes beyond the first 64 are never dispatched to. */
  const ROUTE_LIMIT: nat := 64

  /** One alternative of `FieldValue`.  The text of a double is whatever the standard
      formatter produced for it, so it is carried as an opaque token. */
  datatype FieldValue =
    | NullValue
    | BoolValue(b: bool)
    | IntValue(i: int)
    | DoubleValue(token: string)
    | StringValue(s: string)

  datatype Field = Field(key: string, value: FieldValue)

  /** An event as the renderers and filters see it.  The clock, the calendar and the
      thread-id hash are inputs: `time`, `tid`, `file`, `line` and `func` are arbitrary. */
  datatype Event = Event(
    time: string,
    severityName: string,
    priority: nat,
    endpoint: string,
    message: string,
    tid: nat,
    file: string,
    line: nat,
    func: string,
    fields: seq<Field>)
}
