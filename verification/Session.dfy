/** One pass of the protocol over one connection, as a single flat step: no
    intermediate FSM states, one case per command and phase. The server's
    handlers are proved to compute exactly this (module Server). */
module Session {
  import opened Text
  import opened Pattern
  import opened ServerFsm
  import opened Stopwatch

  // Replies are their three-digit code and the text after it.
  const R220 := "220" + " example.com\r\n"
  const R221 := "221" + " Closing connection\r\n"
  const R250 := "250" + " Ok\r\n"
  const R250_HELO := "250" + " example.com\r\n"
  const R250_SAVED := "250" + " Mail is saved on disk and will be queued for forwarding\r\n"
  const R354 := "354" + " Start mail input; end with <CRLF>.<CRLF>\r\n"
  const R421_TIMEOUT := "421" + " Server Error: timeout exceeded\r\n"
  const R451 := "451" + " Requested action aborted: local error in processing\r\n"
  const R500 := "500" + " Invalid command\r\n"
  const R501 := "501" + " Syntax error in parameters or arguments\r\n"
  const R502 := "502" + " Command not implemented\r\n"
  const R554 := "554" + " Transaction failed\r\n"

  /** The greeting and the time-out notice are told apart by their codes. */
  lemma CodesDiffer()
    ensures R220 !in [R221, R250, R250_HELO, R250_SAVED, R354, R421_TIMEOUT, R500, R502, R554]
    ensures R421_TIMEOUT !in [R221, R250, R250_HELO, R250_SAVED, R354, R500, R502, R554]
  {
    assert R220[1] == '2' && R220[2] == '0' && R220[0] == '2' && R421_TIMEOUT[0] == '4';
    assert R221[2] == '1' && R221[0] == '2' && R250[1] == '5' && R250[0] == '2';
    assert R250_HELO[1] == '5' && R250_HELO[0] == '2' && R250_SAVED[1] == '5' && R250_SAVED[0] == '2';
    assert R354[0] == '3' && R500[0] == '5' && R502[0] == '5' && R554[0] == '5';
  }

  const CONN_TIMEOUT := 30 * 1000

  datatype Letter = Letter(
    mailFrom: string, rcptTo: string, rcptUsername: string, rcptDomain: string, body: string)

  datatype Conn = Conn(
    recvBuf: string, sendBuf: string, state: State, oldState: State,
    letter: Option<Letter>, watch: TimeVal)

  /** What the outside world decides during a pass: the clock when the watch is
      restarted and when it is read, and whether the mailbox file opens. */
  datatype Env = Env(restart: TimeVal, now: TimeVal, opens: bool)

  /** Why the worker process dies. */
  datatype Fault = UndefinedTransition | NullPointer

  datatype Outcome = Exit(fault: Fault) | Alive(conn: Conn, saved: seq<Letter>)

  /** The phases in which the session takes QUIT, and but for the first RSET
      and VRFY. */
  predicate TakesQuit(s: State) {
    s.Connected? || TakesRset(s)
  }

  predicate TakesRset(s: State) {
    s.Ready? || s.ExpectMail? || s.ExpectRcpt? || s.ExpectData?
  }

  /** The letter leaves for the mailbox, or stays behind when the file does
      not open. */
  function Save(c: Conn, from: State, opens: bool): Outcome
    requires c.letter.Some?
  {
    if opens then
      Alive(c.(state := ExpectMail, oldState := from, letter := None, sendBuf := R250_SAVED), [c.letter.value])
    else
      Alive(c.(state := Ready, oldState := from, sendBuf := R554), [])
  }

  function WithChunk(l: Letter, chunk: string): Letter {
    l.(body := l.body + chunk + CRLF)
  }

  /** What a command does to the connection that received it. */
  function Receive(c: Conn, command: Command, opens: bool): Outcome {
    match command
    case Quit =>
      if TakesQuit(c.state) then Alive(c.(state := Disconnected, oldState := c.state, sendBuf := R221), [])
      else Exit(UndefinedTransition)
    case Rset =>
      if TakesRset(c.state) then
        Alive(c.(state := Ready, oldState := c.state, letter := None, sendBuf := R250), [])
      else Exit(UndefinedTransition)
    case Vrfy(_) =>
      if TakesRset(c.state) then Alive(c.(oldState := c.state, sendBuf := R502), [])
      else Exit(UndefinedTransition)
    case Helo(_) =>
      if c.state.Ready? then Alive(c.(state := ExpectMail, oldState := c.state, sendBuf := R250_HELO), [])
      else Exit(UndefinedTransition)
    case Ehlo(_) =>
      if c.state.Ready? then Alive(c.(state := ExpectMail, oldState := c.state, sendBuf := R250_HELO), [])
      else Exit(UndefinedTransition)
    case Mail(sender) =>
      if c.state.ExpectMail? then
        Alive(c.(state := ExpectRcpt, oldState := c.state, letter := Some(Letter(sender, "", "", "", "")),
                 sendBuf := R250), [])
      else Exit(UndefinedTransition)
    case Rcpt(recipient) =>
      if !c.state.ExpectRcpt? then Exit(UndefinedTransition)
      else if c.letter.None? || SplitAt(recipient).None? then Exit(NullPointer)
      else
        var (user, domain) := SplitAt(recipient).value;
        var l := c.letter.value.(rcptTo := recipient, rcptUsername := user, rcptDomain := domain);
        Alive(c.(state := ExpectData, oldState := c.state, letter := Some(l), sendBuf := R250), [])
    case Data =>
      if c.state.ExpectData? then
        Alive(c.(state := ExpectDataRecv, oldState := c.state, sendBuf := R354), [])
      else Exit(UndefinedTransition)
    case DataEnd =>
      if !c.state.ExpectDataRecv? then Exit(UndefinedTransition)
      else if c.letter.None? then Exit(NullPointer)
      else Save(c, c.state, opens)
    case DataRecv =>
      if !c.state.ExpectDataRecv? then Alive(c.(sendBuf := R500), [])
      else if c.letter.None? then Exit(NullPointer)
      else
        var d := c.(letter := Some(WithChunk(c.letter.value, c.recvBuf)));
        if HasSuffix(c.recvBuf, TERMINATOR) then Save(d, ProcessDataRecv, opens)
        else Alive(d.(oldState := c.state), [])
  }

  /** A new connection is greeted. */
  function Greet(c: Conn): Conn {
    if c.state.Init? then c.(state := Ready, oldState := Connected, sendBuf := R220) else c
  }

  predicate Expired(start: TimeVal, now: TimeVal) {
    (Micros(now) - Micros(start)) / 1000 > CONN_TIMEOUT
  }

  /** A connection silent for too long is closed. */
  function Expire(c: Conn, now: TimeVal): Conn {
    if Expired(c.watch, now) then c.(state := Disconnected, oldState := c.state, sendBuf := R421_TIMEOUT)
    else c
  }

  /** One pass over one connection whose input, if any, is this command. */
  function PassOn(c: Conn, command: Command, env: Env): Outcome {
    if c.recvBuf == "" then Alive(Expire(Greet(c), env.now), [])
    else
      var r := Receive(c, command, env.opens);
      if r.Exit? then r
      else Alive(Expire(Greet(r.conn.(recvBuf := "", watch := env.restart)), env.now), r.saved)
  }

  /** One pass over one connection. */
  function Pass(c: Conn, env: Env): Outcome {
    PassOn(c, Classify(c.recvBuf), env)
  }
}
