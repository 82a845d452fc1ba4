/** The vocabulary of service discovery: events, and the slices that carry them. */
module Discovery {

  datatype Option<+T> = None | Some(value: T)

  datatype Error = Error(text: string)

  /** An event by value. `instances == None` is Go's nil slice, which differs from an empty one. */
  datatype Event = Event(instances: Option<seq<string>>, err: Option<Error>)

  /** An event as it travels: the instances are a slice whose storage may be shared and sorted in place. */
  datatype Message = Message(instances: array?<string>, err: Option<Error>) {
    ghost function Storage(): set<object> {
      if instances == null then {} else {instances}
    }

    function View(): Event
      reads Storage()
    {
      Event(Contents(instances), err)
    }
  }

  function Contents(a: array?<string>): Option<seq<string>>
    reads if a == null then {} else {a}
  {
    if a == null then None else Some(a[..])
  }

  /** The instances of an event as a list: ranging over a nil slice is ranging over nothing. */
  function Listed(e: Event): seq<string> {
    match e.instances
    case None => []
    case Some(s) => s
  }
}
