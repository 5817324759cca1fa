/** The nullable value of the source: a SQL NULL, a JavaScript null or a missing row. */
module Options {
  datatype Option<+T> = None | Some(value: T)

  function Coalesce<T>(x: Option<T>, y: T): T {
    if x.Some? then x.value else y
  }
}
