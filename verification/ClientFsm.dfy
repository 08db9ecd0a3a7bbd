/** The client's transition table and its step function. */
module ClientFsm {
  import opened Text

  datatype State =
    | Init | SendHelo | SendMailFrom | SendRcptTo | SendData | SendBody | SendQuit | Connect
    | Invalid | Done

  datatype Event =
    | EvOk | EvError | EvUnsentData | EvTimeout | EvRtimeExpired
    | EvCommandNotImplemented | EvMultipleRcpts | EvMultipleEmails

  /** client_fsm_step: the terminal states reset to Init; None for an entry
      marked invalid, on which the process exits. */
  function Step(s: State, e: Event): Option<State> {
    if s.Invalid? || s.Done? then Some(Init)
    else if e == EvError || e == EvTimeout then Some(Done)
    else
      match s
      case Init => if e == EvOk then Some(Connect) else None
      case Connect => if e == EvOk then Some(SendHelo) else None
      case SendHelo =>
        if e == EvOk then Some(SendMailFrom) else if e == EvRtimeExpired then Some(Done) else None
      case SendMailFrom => if e == EvOk then Some(SendRcptTo) else None
      case SendRcptTo =>
        if e == EvOk then Some(SendData) else if e == EvMultipleRcpts then Some(SendRcptTo) else None
      case SendData => if e == EvOk then Some(SendBody) else None
      case SendBody =>
        if e == EvOk then Some(SendQuit) else if e == EvMultipleEmails then Some(SendMailFrom) else None
      case SendQuit => if e == EvOk then Some(Init) else None
  }
}
