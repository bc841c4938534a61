/** What a gate is for: an event that resets itself when it lets its waiter through. */
module GateSpec {
  datatype Event = Event(signaled: bool, waiting: bool)

  datatype Op =
    | Set     // release the waiter, or leave the event signaled
    | Pulse   // release the waiter, or do nothing
    | Wait    // consume the signal, or start waiting
    | Cancel  // stop waiting
    | Skip

  function Apply(op: Op, e: Event): Event {
    match op
    case Set => if e.waiting then e.(waiting := false) else e.(signaled := true)
    case Pulse => e.(waiting := false)
    case Wait => if e.signaled then e.(signaled := false) else e.(waiting := true)
    case Cancel => e.(waiting := false)
    case Skip => e
  }
}
