/**
 * What the core sees of the GPIO hardware and of Go function values.
 * Electrical effects are recorded as a trace of signals; a Go `func()` is
 * identified by a token, since the core only stores, passes and calls it.
 */
module Hardware {

  datatype Level = Low | High

  /** One effect on an output line: drive a pin to a level, or sleep. */
  datatype Signal = Drive(pin: int, level: Level) | Sleep(ms: int)

  /** Drive `pin` High, keep it there for `holdMs` milliseconds, then drive it Low. */
  function Pulse(pin: int, holdMs: int): seq<Signal> {
    [Drive(pin, High), Sleep(holdMs), Drive(pin, Low)]
  }

  /** A Go `func()` value: the empty closure `func() {}` or a function supplied by a caller. */
  datatype Callback = NoOp | Func(id: nat)
}
