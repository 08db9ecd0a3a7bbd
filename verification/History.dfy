/** Whole runs of one connection, explained by the inputs alone: every saved
    letter belongs to one mail transaction in the sense of section 3.3 of
    RFC 5321, every reply to one input, every time-out to one silence. */
module History {
  import opened Text
  import opened Pattern
  import opened ServerFsm
  import opened Stopwatch
  import opened Session

  /** One pass: the buffer received before it ("" for none), the command that
      the buffer stands for, and the environment of the pass. */
  datatype Input = Input(buf: string, command: Command, env: Env)

  datatype Record = Record(conn: Conn, letters: seq<Letter>, replies: seq<string>)

  function Fresh(accepted: TimeVal): Conn {
    Conn("", "", Init, Init, None, accepted)
  }

  /** One pass of a session; afterwards the reply is sent. None when the
      process exits. */
  function Next(s: Record, x: Input): Option<Record> {
    var o := PassOn(s.conn.(recvBuf := x.buf), x.command, x.env);
    if o.Exit? then None
    else
      var reply := if o.conn.sendBuf == "" then [] else [o.conn.sendBuf];
      Some(Record(o.conn.(sendBuf := ""), s.letters + o.saved, s.replies + reply))
  }

  function Last<T>(h: seq<T>): T
    requires h != []
  {
    h[|h| - 1]
  }

  function Front<T>(h: seq<T>): seq<T>
    requires h != []
  {
    h[..|h| - 1]
  }

  /** A session from the moment the connection is accepted; None when some
      pass is fatal or comes after the connection is closed. */
  function Run(accepted: TimeVal, h: seq<Input>): Option<Record> {
    if h == [] then Some(Record(Fresh(accepted), [], []))
    else
      var s := Run(accepted, Front(h));
      if s.None? || s.value.conn.state.Disconnected? then None else Next(s.value, Last(h))
  }

  /** A buffer as it arrives, and the environment of its pass. */
  datatype Arrival = Arrival(buf: string, env: Env)

  /** The session that the passes of the protocol loop make of buffers, each reply
      sent between them. */
  function Served(accepted: TimeVal, arrivals: seq<Arrival>): Option<Record> {
    if arrivals == [] then Some(Record(Fresh(accepted), [], []))
    else
      var s := Served(accepted, Front(arrivals));
      if s.None? || s.value.conn.state.Disconnected? then None else Serve(s.value, Last(arrivals))
  }

  function Serve(s: Record, a: Arrival): Option<Record> {
    var o := Pass(s.conn.(recvBuf := a.buf), a.env);
    if o.Exit? then None
    else Some(Record(o.conn.(sendBuf := ""), s.letters + o.saved, Sent(s.replies, o.conn.sendBuf)))
  }

  lemma ServeIsNext(s: Record, a: Arrival)
    ensures Serve(s, a) == Next(s, Input(a.buf, Classify(a.buf), a.env))
  {
    assert s.replies + [] == s.replies;
  }

  function Sent(replies: seq<string>, sendBuf: string): seq<string> {
    if sendBuf == "" then replies else replies + [sendBuf]
  }

  /** Each buffer with the command it stands for. */
  function Inputs(arrivals: seq<Arrival>): (h: seq<Input>)
    ensures |h| == |arrivals|
    ensures forall i :: 0 <= i < |h| ==> h[i] == Input(arrivals[i].buf, Classify(arrivals[i].buf), arrivals[i].env)
  {
    seq(|arrivals|, i requires 0 <= i < |arrivals| =>
      Input(arrivals[i].buf, Classify(arrivals[i].buf), arrivals[i].env))
  }

  /** What is said of all runs holds of every session the loop serves. */
  lemma {:induction false} ServedIsRun(accepted: TimeVal, arrivals: seq<Arrival>)
    ensures Served(accepted, arrivals) == Run(accepted, Inputs(arrivals))
  {
    if arrivals == [] {
    } else {
      ServedIsRun(accepted, Front(arrivals));
      var h := Inputs(arrivals);
      assert Front(h) == Inputs(Front(arrivals));
      var s := Served(accepted, Front(arrivals));
      if s.Some? { ServeIsNext(s.value, Last(arrivals)); }
    }
  }

  // What the inputs alone say.

  /** An input that no phase but the data phase reacts to. */
  predicate Idle(x: Input) {
    x.buf == "" || x.command.Vrfy? || x.command.DataRecv?
  }

  /** A piece of the body, not the last. */
  predicate Chunk(x: Input) {
    x.buf == "" || (x.command.DataRecv? && !HasSuffix(x.buf, TERMINATOR))
  }

  /** The end of the data. */
  predicate Ends(x: Input) {
    x.buf != "" && (x.command.DataEnd? || (x.command.DataRecv? && HasSuffix(x.buf, TERMINATOR)))
  }

  ghost predicate MailOpen(h: seq<Input>, m: nat) {
    m < |h| && h[m].buf != "" && h[m].command.Mail? &&
    forall i :: m < i < |h| ==> Idle(h[i])
  }

  ghost predicate RcptOpen(h: seq<Input>, m: nat, r: nat) {
    m < r < |h| && MailOpen(h[..r], m) && h[r].buf != "" && h[r].command.Rcpt? &&
    forall i :: r < i < |h| ==> Idle(h[i])
  }

  /** An open mail transaction: MAIL, RCPT and DATA in this order with nothing
      effective in between, then only pieces of the body. */
  ghost predicate Transaction(h: seq<Input>, m: nat, r: nat, d: nat) {
    r < d < |h| && RcptOpen(h[..d], m, r) && h[d].buf != "" && h[d].command.Data? &&
    forall i :: d < i < |h| ==> Chunk(h[i])
  }

  /** The buffers of a row of data inputs. */
  function Buffers(xs: seq<Input>): seq<string> {
    if xs == [] then []
    else if Last(xs).buf == "" || Last(xs).command.DataEnd? then Buffers(Front(xs))
    else Buffers(Front(xs)) + [Last(xs).buf]
  }

  /** The body that a row of data inputs makes up. */
  function Body(xs: seq<Input>): string {
    Fold(Buffers(xs))
  }

  lemma BodyMore(xs: seq<Input>, x: Input)
    ensures Body(xs + [x]) == if x.buf == "" || x.command.DataEnd? then Body(xs) else Body(xs) + x.buf + CRLF
  {
    assert Front(xs + [x]) == xs && Last(xs + [x]) == x;
    FoldMore(Buffers(xs), x.buf);
  }

  /** The envelope given by a MAIL and a RCPT input. */
  ghost function Envelope(mail: Input, rcpt: Input): Letter
    requires mail.command.Mail? && rcpt.command.Rcpt? && SplitAt(rcpt.command.arg).Some?
  {
    var (user, domain) := SplitAt(rcpt.command.arg).value;
    Letter(mail.command.arg, rcpt.command.arg, user, domain, "")
  }

  /** The letter of a transaction, made of its own inputs only. */
  ghost function LetterOf(h: seq<Input>, m: nat, r: nat, d: nat): Letter
    requires Transaction(h, m, r, d) && SplitAt(h[r].command.arg).Some?
  {
    Envelope(h[m], h[r]).(body := Body(h[d + 1..]))
  }

  /** The state and letter of a connection, explained by its inputs. */
  ghost predicate Explained(h: seq<Input>, c: Conn) {
    match c.state
    case Init => h == [] && c.letter == None
    case Ready => true
    case ExpectMail => true
    case Disconnected => true
    case ExpectRcpt =>
      exists m: nat :: MailOpen(h, m) && c.letter == Some(Letter(h[m].command.arg, "", "", "", ""))
    case ExpectData =>
      exists m: nat, r: nat :: RcptOpen(h, m, r) && WithRcpt(h, m, r, c.letter)
    case ExpectDataRecv =>
      exists m: nat, r: nat, d: nat :: Transaction(h, m, r, d) && InData(h, m, r, d, c.letter)
    case _ => false
  }

  ghost predicate WithRcpt(h: seq<Input>, m: nat, r: nat, l: Option<Letter>)
    requires RcptOpen(h, m, r)
  {
    SplitAt(h[r].command.arg).Some? && l == Some(Envelope(h[m], h[r]))
  }

  ghost predicate InData(h: seq<Input>, m: nat, r: nat, d: nat, l: Option<Letter>)
    requires Transaction(h, m, r, d)
  {
    SplitAt(h[r].command.arg).Some? && l == Some(LetterOf(h, m, r, d))
  }

  // Windows grow with the history.

  lemma MailGrows(h: seq<Input>, m: nat, x: Input)
    requires MailOpen(h, m) && Idle(x)
    ensures MailOpen(h + [x], m)
  {
  }

  lemma RcptGrows(h: seq<Input>, m: nat, r: nat, x: Input)
    requires RcptOpen(h, m, r) && Idle(x)
    ensures RcptOpen(h + [x], m, r)
  {
    assert (h + [x])[..r] == h[..r];
  }

  lemma RcptOpens(h: seq<Input>, m: nat, x: Input)
    requires MailOpen(h, m) && x.buf != "" && x.command.Rcpt?
    ensures RcptOpen(h + [x], m, |h|)
  {
    assert (h + [x])[..|h|] == h;
  }

  lemma DataOpens(h: seq<Input>, m: nat, r: nat, x: Input)
    requires RcptOpen(h, m, r) && x.buf != "" && x.command.Data?
    ensures Transaction(h + [x], m, r, |h|)
    ensures Body((h + [x])[|h| + 1..]) == ""
  {
    assert (h + [x])[..|h|] == h;
    assert (h + [x])[|h| + 1..] == [];
  }

  lemma DataGrows(h: seq<Input>, m: nat, r: nat, d: nat, x: Input)
    requires Transaction(h, m, r, d) && Chunk(x)
    ensures Transaction(h + [x], m, r, d)
  {
    assert (h + [x])[..d] == h[..d];
  }

  lemma BodyGrows(h: seq<Input>, d: nat, x: Input)
    requires d < |h|
    ensures Body((h + [x])[d + 1..]) ==
              if x.buf == "" || x.command.DataEnd? then Body(h[d + 1..])
              else Body(h[d + 1..]) + x.buf + CRLF
  {
    assert (h + [x])[d + 1..] == h[d + 1..] + [x];
    BodyMore(h[d + 1..], x);
  }

  // Each pass keeps the explanation.

  /** The connection after the input of a pass, before greeting and expiry. */
  lemma ReceiveExplained(h: seq<Input>, c: Conn, x: Input, o: Outcome)
    requires Explained(h, c) && !c.state.Disconnected? && !c.state.Init?
    requires x.buf == "" ==> o == Alive(c, [])
    requires x.buf != "" ==> o == Receive(c, x.command, x.env.opens) && x.buf == c.recvBuf
    requires o.Alive?
    ensures !o.conn.state.Init? && Explained(h + [x], o.conn)
  {
    match c.state
    case ExpectMail => MailCase(h, c, x, o);
    case ExpectRcpt => RcptCase(h, c, x, o);
    case ExpectData => DataCase(h, c, x, o);
    case ExpectDataRecv => BodyCase(h, c, x, o);
    case _ =>
  }

  lemma MailCase(h: seq<Input>, c: Conn, x: Input, o: Outcome)
    requires c.state.ExpectMail?
    requires x.buf == "" ==> o == Alive(c, [])
    requires x.buf != "" ==> o == Receive(c, x.command, x.env.opens)
    requires o.Alive?
    ensures !o.conn.state.Init? && Explained(h + [x], o.conn)
  {
    if x.buf != "" && x.command.Mail? {
      assert MailOpen(h + [x], |h|);
    }
  }

  lemma RcptCase(h: seq<Input>, c: Conn, x: Input, o: Outcome)
    requires Explained(h, c) && c.state.ExpectRcpt?
    requires x.buf == "" ==> o == Alive(c, [])
    requires x.buf != "" ==> o == Receive(c, x.command, x.env.opens)
    requires o.Alive?
    ensures !o.conn.state.Init? && Explained(h + [x], o.conn)
  {
    var m: nat :| MailOpen(h, m) && c.letter == Some(Letter(h[m].command.arg, "", "", "", ""));
    if Idle(x) {
      MailGrows(h, m, x);
    } else if x.command.Rcpt? {
      RcptOpens(h, m, x);
      assert WithRcpt(h + [x], m, |h|, o.conn.letter);
    }
  }

  lemma DataCase(h: seq<Input>, c: Conn, x: Input, o: Outcome)
    requires Explained(h, c) && c.state.ExpectData?
    requires x.buf == "" ==> o == Alive(c, [])
    requires x.buf != "" ==> o == Receive(c, x.command, x.env.opens)
    requires o.Alive?
    ensures !o.conn.state.Init? && Explained(h + [x], o.conn)
  {
    var m: nat, r: nat :| RcptOpen(h, m, r) && WithRcpt(h, m, r, c.letter);
    if Idle(x) {
      RcptGrows(h, m, r, x);
      assert WithRcpt(h + [x], m, r, c.letter);
    } else if x.command.Data? {
      DataOpens(h, m, r, x);
      assert InData(h + [x], m, r, |h|, c.letter);
    }
  }

  lemma InDataGrows(h: seq<Input>, m: nat, r: nat, d: nat, x: Input, l: Option<Letter>)
    requires Transaction(h, m, r, d) && Chunk(x) && InData(h, m, r, d, l)
    ensures Transaction(h + [x], m, r, d)
    ensures InData(h + [x], m, r, d, if x.buf == "" then l else Some(WithChunk(l.value, x.buf)))
  {
    DataGrows(h, m, r, d, x);
    BodyGrows(h, d, x);
  }

  lemma ReceiveInData(c: Conn, x: Input)
    requires c.state.ExpectDataRecv? && c.letter.Some? && x.buf != "" && x.buf == c.recvBuf
    ensures var o := Receive(c, x.command, x.env.opens);
            && (Chunk(x) ==> o == Alive(c.(oldState := c.state, letter := Some(WithChunk(c.letter.value, x.buf))), []))
            && (!Chunk(x) && o.Alive? ==> o.conn.state.ExpectMail? || o.conn.state.Ready?)
  {
  }

  lemma BodyCase(h: seq<Input>, c: Conn, x: Input, o: Outcome)
    requires Explained(h, c) && c.state.ExpectDataRecv?
    requires x.buf == "" ==> o == Alive(c, [])
    requires x.buf != "" ==> o == Receive(c, x.command, x.env.opens) && x.buf == c.recvBuf
    requires o.Alive?
    ensures !o.conn.state.Init? && Explained(h + [x], o.conn)
  {
    var m: nat, r: nat, d: nat :| Transaction(h, m, r, d) && InData(h, m, r, d, c.letter);
    if x.buf != "" { ReceiveInData(c, x); }
    if Chunk(x) { InDataGrows(h, m, r, d, x, c.letter); }
  }

  lemma NextExplained(h: seq<Input>, s: Record, x: Input)
    requires Explained(h, s.conn) && !s.conn.state.Disconnected?
    requires Next(s, x).Some?
    ensures Explained(h + [x], Next(s, x).value.conn)
    ensures !Next(s, x).value.conn.state.Init?
  {
    var c := s.conn.(recvBuf := x.buf);
    if c.state.Init? {
    } else {
      var o := if x.buf == "" then Alive(c, []) else Receive(c, x.command, x.env.opens);
      ReceiveExplained(h, c, x, o);
    }
  }

  /** Quiescence and letter ownership: between passes no session is in a
      processing state, and its letter is the one its inputs describe. */
  lemma {:induction false} RunExplained(accepted: TimeVal, h: seq<Input>)
    requires Run(accepted, h).Some?
    ensures Explained(h, Run(accepted, h).value.conn)
    ensures h != [] ==> !Run(accepted, h).value.conn.state.Init?
  {
    if h == [] {
    } else {
      RunExplained(accepted, Front(h));
      NextExplained(Front(h), Run(accepted, Front(h)).value, Last(h));
      assert Front(h) + [Last(h)] == h;
    }
  }

  // Which letters are saved.

  ghost predicate Receiving(h: seq<Input>) {
    exists m: nat, r: nat, d: nat :: Transaction(h, m, r, d)
  }

  lemma RcptIsUnique(h: seq<Input>, m: nat, r: nat, m': nat, r': nat)
    requires RcptOpen(h, m, r) && RcptOpen(h, m', r')
    ensures m == m' && r == r'
  {
    assert r == r';
  }

  lemma TransactionIsUnique(h: seq<Input>, m: nat, r: nat, d: nat, m': nat, r': nat, d': nat)
    requires Transaction(h, m, r, d) && Transaction(h, m', r', d')
    ensures m == m' && r == r' && d == d'
  {
    assert d == d';
    RcptIsUnique(h[..d], m, r, m', r');
  }

  lemma RunStep(accepted: TimeVal, h: seq<Input>, x: Input)
    requires Run(accepted, h + [x]).Some?
    ensures Run(accepted, h).Some? && !Run(accepted, h).value.conn.state.Disconnected?
    ensures Run(accepted, h + [x]) == Next(Run(accepted, h).value, x)
  {
    assert Front(h + [x]) == h && Last(h + [x]) == x;
  }

  lemma DataStep(s: Record, x: Input)
    requires Next(s, x).Some?
    requires (x.buf != "" && x.command.Data?) || (s.conn.state.ExpectDataRecv? && Chunk(x))
    ensures Next(s, x).value.conn.state.ExpectDataRecv? || Next(s, x).value.conn.state.Disconnected?
  {
  }

  lemma {:induction false} StaysOpen(accepted: TimeVal, h: seq<Input>, m: nat, r: nat, d: nat)
    requires Run(accepted, h).Some? && Transaction(h, m, r, d)
    ensures Run(accepted, h).value.conn.state.ExpectDataRecv? || Run(accepted, h).value.conn.state.Disconnected?
  {
    var f := Front(h);
    assert f + [Last(h)] == h;
    RunStep(accepted, f, Last(h));
    if d >= |f| {
    } else {
      assert f[..d] == h[..d];
      StaysOpen(accepted, f, m, r, d);
    }
    DataStep(Run(accepted, f).value, Last(h));
  }

  /** While a transaction is open, the session is in its data phase and holds
      exactly the letter of that transaction. */
  lemma OpenTransaction(accepted: TimeVal, h: seq<Input>, m: nat, r: nat, d: nat)
    requires Run(accepted, h).Some? && !Run(accepted, h).value.conn.state.Disconnected?
    requires Transaction(h, m, r, d)
    ensures Run(accepted, h).value.conn.state.ExpectDataRecv?
    ensures InData(h, m, r, d, Run(accepted, h).value.conn.letter)
  {
    StaysOpen(accepted, h, m, r, d);
    RunExplained(accepted, h);
    var c := Run(accepted, h).value.conn;
    var m': nat, r': nat, d': nat :| Transaction(h, m', r', d') && InData(h, m', r', d', c.letter);
    TransactionIsUnique(h, m, r, d, m', r', d');
  }

  lemma ReceivingIffDataPhase(accepted: TimeVal, h: seq<Input>)
    requires Run(accepted, h).Some? && !Run(accepted, h).value.conn.state.Disconnected?
    ensures Run(accepted, h).value.conn.state.ExpectDataRecv? <==> Receiving(h)
  {
    RunExplained(accepted, h);
    if Receiving(h) {
      var m: nat, r: nat, d: nat :| Transaction(h, m, r, d);
      OpenTransaction(accepted, h, m, r, d);
    }
  }

  /** What one pass saves, from the phase it starts in. */
  lemma NextSaves(s: Record, x: Input)
    requires Next(s, x).Some?
    ensures var saves := s.conn.state.ExpectDataRecv? && Ends(x) && x.env.opens;
            && (saves ==>
                  s.conn.letter.Some? &&
                  Next(s, x).value.letters == s.letters + [
                    if x.command.DataEnd? then s.conn.letter.value else WithChunk(s.conn.letter.value, x.buf)])
            && (!saves ==> Next(s, x).value.letters == s.letters)
  {
  }

  /** A letter is saved exactly when the end of the data arrives in an open
      transaction and the file opens. */
  lemma SavedIffTransaction(accepted: TimeVal, h: seq<Input>, x: Input)
    requires Run(accepted, h + [x]).Some?
    ensures Run(accepted, h).Some?
    ensures var before := Run(accepted, h).value.letters;
            var after := Run(accepted, h + [x]).value.letters;
            && before <= after && |after| <= |before| + 1
            && (after != before <==> x.env.opens && Ends(x) && Receiving(h))
  {
    RunStep(accepted, h, x);
    ReceivingIffDataPhase(accepted, h);
    NextSaves(Run(accepted, h).value, x);
  }

  /** The letter saved is made of its transaction: the argument of its MAIL, of
      its only RCPT, and the inputs since its DATA. Nothing from before a reset
      or an earlier letter can be in it, since a transaction holds neither. */
  lemma SavedLetterIsItsTransaction(accepted: TimeVal, h: seq<Input>, x: Input, m: nat, r: nat, d: nat)
    requires Run(accepted, h + [x]).Some?
    requires Transaction(h, m, r, d) && Ends(x) && x.env.opens
    ensures Run(accepted, h).Some? && SplitAt(h[r].command.arg).Some?
    ensures Run(accepted, h + [x]).value.letters ==
              Run(accepted, h).value.letters + [Envelope(h[m], h[r]).(body := Body(h[d + 1..] + [x]))]
  {
    RunStep(accepted, h, x);
    OpenTransaction(accepted, h, m, r, d);
    NextSaves(Run(accepted, h).value, x);
    assert (h + [x])[d + 1..] == h[d + 1..] + [x];
    BodyGrows(h, d, x);
  }

  // Replies.

  /** When the last input of the session arrived. */
  function LastInput(accepted: TimeVal, h: seq<Input>): TimeVal {
    if h == [] then accepted
    else if Last(h).buf != "" then Last(h).env.restart
    else LastInput(accepted, Front(h))
  }

  /** The last pass of h found the connection silent for too long. */
  predicate TimesOut(accepted: TimeVal, h: seq<Input>)
    requires h != []
  {
    Expired(LastInput(accepted, h), Last(h).env.now)
  }

  lemma {:induction false} WatchIsLastInput(accepted: TimeVal, h: seq<Input>)
    requires Run(accepted, h).Some?
    ensures Run(accepted, h).value.conn.watch == LastInput(accepted, h)
  {
    if h == [] {
    } else {
      assert Front(h) + [Last(h)] == h;
      RunStep(accepted, Front(h), Last(h));
      WatchIsLastInput(accepted, Front(h));
    }
  }

  /** A session is closed by the first pass that sees 30.001 seconds of
      silence, however many inputs restarted the watch before, or by QUIT, and
      by nothing else. */
  lemma ClosedIff(accepted: TimeVal, h: seq<Input>)
    requires h != [] && Run(accepted, h).Some?
    ensures Run(accepted, h).value.conn.state.Disconnected? <==>
              Micros(Last(h).env.now) - Micros(LastInput(accepted, h)) >= 30_001_000 ||
              (Last(h).buf != "" && Last(h).command.Quit?)
  {
    var f := Front(h);
    assert f + [Last(h)] == h;
    RunStep(accepted, f, Last(h));
    WatchIsLastInput(accepted, f);
    WatchIsLastInput(accepted, h);
  }

  /** The replies a run owes, counted on its inputs: the greeting, the notice
      of a time-out, and one for each input that is not a piece of a body. */
  ghost function Owed(accepted: TimeVal, h: seq<Input>): nat {
    if h == [] then 0
    else
      Owed(accepted, Front(h)) +
      if |h| == 1 || TimesOut(accepted, h) then 1
      else if Last(h).buf == "" || (Receiving(Front(h)) && Chunk(Last(h))) then 0
      else 1
  }

  /** The reply that a pass from s to s' adds, if any. */
  predicate AddsReply(s: Record, x: Input, s': Record) {
    var late := Expired(if x.buf == "" then s.conn.watch else x.env.restart, x.env.now);
    var silent := !s.conn.state.Init? && !late && (x.buf == "" || (s.conn.state.ExpectDataRecv? && Chunk(x)));
    && s'.conn.sendBuf == ""
    && if silent then s'.replies == s.replies
       else
         && s'.replies != [] && Front(s'.replies) == s.replies
         && (late <==> Last(s'.replies) == R421_TIMEOUT)
         && (Last(s'.replies) == R220 <==> s.conn.state.Init? && !late)
  }

  /** The reply of one pass. */
  lemma NextReplies(s: Record, x: Input)
    requires Next(s, x).Some? && s.conn.sendBuf == ""
    ensures AddsReply(s, x, Next(s, x).value)
  {
    CodesDiffer();
    assert [R221, R250, R250_HELO, R250_SAVED, R354, R421_TIMEOUT, R500, R502, R554] ==
           [R221, R250, R250_HELO, R250_SAVED, R354] + [R421_TIMEOUT] + [R500, R502, R554];
  }

  /** The replies of a session are those it is owed; the greeting comes first,
      unless the very first pass times out, and never again; the time-out notice
      is the last reply when the last pass times out. */
  ghost predicate Accounted(accepted: TimeVal, h: seq<Input>, s: Record) {
    && s.conn.sendBuf == "" && |s.replies| == Owed(accepted, h)
    && (h != [] ==> s.replies != [] && (s.replies[0] == R220 <==> !TimesOut(accepted, h[..1])))
    && (forall i :: 0 < i < |s.replies| ==> s.replies[i] != R220)
    && (h != [] && TimesOut(accepted, h) ==> s.replies != [] && Last(s.replies) == R421_TIMEOUT)
  }

  /** One more pass on a session that is accounted for. */
  lemma AccountOne(accepted: TimeVal, f: seq<Input>, s: Record, x: Input, s': Record)
    requires AddsReply(s, x, s') && Accounted(accepted, f, s) && s.conn.watch == LastInput(accepted, f)
    requires s.conn.state.Init? <==> f == []
    requires s.conn.state.ExpectDataRecv? <==> Receiving(f)
    ensures Accounted(accepted, f + [x], s')
  {
    var h := f + [x];
    assert Front(h) == f && Last(h) == x;
    assert f == [] ==> h[..1] == h;
    assert f != [] ==> f[..1] == h[..1];
  }

  /** Reply accounting in every live session. */
  lemma {:induction false} RepliesAreOwed(accepted: TimeVal, h: seq<Input>)
    requires Run(accepted, h).Some?
    ensures Accounted(accepted, h, Run(accepted, h).value)
  {
    if h == [] {
    } else {
      var f := Front(h);
      assert f + [Last(h)] == h;
      RunStep(accepted, f, Last(h));
      RepliesAreOwed(accepted, f);
      RunExplained(accepted, f);
      WatchIsLastInput(accepted, f);
      ReceivingIffDataPhase(accepted, f);
      NextReplies(Run(accepted, f).value, Last(h));
      AccountOne(accepted, f, Run(accepted, f).value, Last(h), Run(accepted, h).value);
    }
  }

  /** VRFY is answered and leaves state and letter as they were. */
  lemma VrfyChangesNothing(accepted: TimeVal, h: seq<Input>, x: Input)
    requires Run(accepted, h + [x]).Some? && x.buf != "" && x.command.Vrfy?
    requires !Expired(x.env.restart, x.env.now)
    ensures Run(accepted, h).Some?
    ensures var before := Run(accepted, h).value;
            var after := Run(accepted, h + [x]).value;
            && after.conn == before.conn.(oldState := before.conn.state, watch := x.env.restart)
            && after.letters == before.letters && after.replies == before.replies + [R502]
  {
    RunStep(accepted, h, x);
    RepliesAreOwed(accepted, h);
    RunExplained(accepted, h);
    RunStaysEmpty(accepted, h);
  }

  lemma RunStaysEmpty(accepted: TimeVal, h: seq<Input>)
    requires Run(accepted, h).Some?
    ensures Run(accepted, h).value.conn.recvBuf == ""
  {
    if h != [] {
      assert Front(h) + [Last(h)] == h;
      RunStep(accepted, Front(h), Last(h));
    }
  }

  // Inputs that end the process.

  lemma DataFatal(s: Record, x: Input)
    requires s.conn.state.ExpectDataRecv? && s.conn.letter.Some?
    ensures Next(s, x).None? <==> x.buf != "" && !x.command.DataRecv? && !x.command.DataEnd?
  {
  }

  /** In the data phase, exactly the inputs that read as a command other than
      the end of data end the whole process: a body line that looks like one
      must not arrive in a buffer of its own. */
  lemma FatalInDataIff(accepted: TimeVal, h: seq<Input>, x: Input)
    requires Run(accepted, h).Some? && !Run(accepted, h).value.conn.state.Disconnected? && Receiving(h)
    ensures Next(Run(accepted, h).value, x).None? <==>
              x.buf != "" && !x.command.DataRecv? && !x.command.DataEnd?
  {
    RunExplained(accepted, h);
    ReceivingIffDataPhase(accepted, h);
    DataFatal(Run(accepted, h).value, x);
  }

  lemma MailStep(s: Record, x: Input)
    requires Next(s, x).Some?
    requires (x.buf != "" && x.command.Mail?) || (s.conn.state.ExpectRcpt? && Idle(x))
    ensures Next(s, x).value.conn.state.ExpectRcpt? || Next(s, x).value.conn.state.Disconnected?
  {
  }

  lemma {:induction false} StaysMail(accepted: TimeVal, h: seq<Input>, m: nat)
    requires Run(accepted, h).Some? && MailOpen(h, m)
    ensures Run(accepted, h).value.conn.state.ExpectRcpt? || Run(accepted, h).value.conn.state.Disconnected?
  {
    var f := Front(h);
    assert f + [Last(h)] == h;
    RunStep(accepted, f, Last(h));
    if m >= |f| {
    } else {
      StaysMail(accepted, f, m);
    }
    MailStep(Run(accepted, f).value, Last(h));
  }

  /** When a recipient is awaited, exactly a recipient without an "@" strictly
      inside it ends the process. */
  lemma FatalRecipientIff(accepted: TimeVal, h: seq<Input>, m: nat, x: Input)
    requires Run(accepted, h).Some? && !Run(accepted, h).value.conn.state.Disconnected? && MailOpen(h, m)
    requires x.buf != "" && x.command.Rcpt? && '\n' !in x.command.arg
    ensures Next(Run(accepted, h).value, x).None? <==> !IsUserAtDomain(x.command.arg)
  {
    RunExplained(accepted, h);
    StaysMail(accepted, h, m);
    EmailSplit(x.command.arg);
  }
}
