/** The server's transition relation, as declared in its FSM definition. */
module ServerFsm {
  import opened Text

  datatype State =
    | Init | Connected | Disconnected | Ready
    | ProcessHelo | ProcessEhlo | ProcessQuit | ProcessVrfy | ProcessRset | ProcessTimeout
    | ExpectMail | ProcessMail
    | ExpectRcpt | ProcessRcpt
    | ExpectData | ProcessData
    | ExpectDataRecv | ProcessDataRecv | ProcessDataEnd
    | Done

  datatype Event =
    | EvConnect | EvTimeout | EvOk | EvErr
    | EvQuit | EvRset | EvVrfy | EvHelo | EvEhlo | EvMail | EvRcpt
    | EvData | EvDataRecv | EvDataEnd

  /** server_step; None for a pair without a transition, on which the
      generated machine exits. */
  function Step(s: State, e: Event): Option<State> {
    match (s, e)
    // connection
    case (Init, EvConnect) => Some(Connected)
    case (Connected, EvOk) => Some(Ready)
    case (Disconnected, EvOk) => Some(Done)
    // quit
    case (Connected, EvQuit) => Some(ProcessQuit)
    case (Ready, EvQuit) => Some(ProcessQuit)
    case (ExpectMail, EvQuit) => Some(ProcessQuit)
    case (ExpectRcpt, EvQuit) => Some(ProcessQuit)
    case (ExpectData, EvQuit) => Some(ProcessQuit)
    case (ProcessQuit, EvOk) => Some(Disconnected)
    // timeout
    case (Ready, EvTimeout) => Some(ProcessTimeout)
    case (ExpectMail, EvTimeout) => Some(ProcessTimeout)
    case (ExpectRcpt, EvTimeout) => Some(ProcessTimeout)
    case (ExpectData, EvTimeout) => Some(ProcessTimeout)
    case (ProcessTimeout, EvOk) => Some(Disconnected)
    // rset
    case (Ready, EvRset) => Some(ProcessRset)
    case (ExpectMail, EvRset) => Some(ProcessRset)
    case (ExpectRcpt, EvRset) => Some(ProcessRset)
    case (ExpectData, EvRset) => Some(ProcessRset)
    case (ProcessRset, EvOk) => Some(Ready)
    // vrfy
    case (Ready, EvVrfy) => Some(ProcessVrfy)
    case (ExpectMail, EvVrfy) => Some(ProcessVrfy)
    case (ExpectRcpt, EvVrfy) => Some(ProcessVrfy)
    case (ExpectData, EvVrfy) => Some(ProcessVrfy)
    // helo, ehlo
    case (Ready, EvHelo) => Some(ProcessHelo)
    case (ProcessHelo, EvErr) => Some(Ready)
    case (ProcessHelo, EvOk) => Some(ExpectMail)
    case (Ready, EvEhlo) => Some(ProcessEhlo)
    case (ProcessEhlo, EvErr) => Some(Ready)
    case (ProcessEhlo, EvOk) => Some(ExpectMail)
    // mail
    case (ExpectMail, EvMail) => Some(ProcessMail)
    case (ProcessMail, EvErr) => Some(ExpectMail)
    case (ProcessMail, EvOk) => Some(ExpectRcpt)
    // rcpt
    case (ExpectRcpt, EvRcpt) => Some(ProcessRcpt)
    case (ProcessRcpt, EvErr) => Some(ExpectRcpt)
    case (ProcessRcpt, EvOk) => Some(ExpectData)
    // data
    case (ExpectData, EvData) => Some(ProcessData)
    case (ProcessData, EvErr) => Some(ExpectData)
    case (ProcessData, EvOk) => Some(ExpectDataRecv)
    case (ExpectDataRecv, EvDataRecv) => Some(ProcessDataRecv)
    case (ExpectDataRecv, EvDataEnd) => Some(ProcessDataEnd)
    case (ProcessDataRecv, EvErr) => Some(ExpectDataRecv)
    case (ProcessDataRecv, EvOk) => Some(ExpectDataRecv)
    case (ProcessDataEnd, EvOk) => Some(ExpectMail)
    case _ => None
  }

  /** An error during processing leads back to where the command came. */
  lemma ErrorsGoBack(s: State, e: Event, p: State, q: State)
    requires Step(s, e) == Some(p) && Step(p, EvErr) == Some(q)
    ensures q == s
  {
  }

  /** A time-out leads out of the states that take QUIT, but for the first. */
  lemma TimeoutsLeadOut(s: State)
    ensures Step(s, EvTimeout).Some? <==> Step(s, EvRset).Some?
    ensures Step(s, EvTimeout).Some? ==> Step(Step(s, EvTimeout).value, EvOk) == Step(Step(s, EvQuit).value, EvOk)
  {
  }
}
