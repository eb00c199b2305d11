/** The optional value shared by the models. */
module Options {
  datatype Option<+T> = None | Some(value: T)

  function Or<T>(o: Option<T>, default: T): T { if o.Some? then o.value else default }

  function OrElse<T>(o: Option<T>, other: Option<T>): Option<T> { if o.Some? then o else other }
}
