/** What a session answers, input by input: the reply to every pass is given in
    full by the inputs so far, and with it the text of every whole conversation. */
module Replies {
  import opened Text
  import opened Pattern
  import F = ServerFsm
  import opened Stopwatch
  import opened Session
  import opened History
  import Phases

  /** The connection was silent for 30.001 seconds or more when the pass of x
      looked at the watch. */
  predicate IsLate(accepted: TimeVal, h: seq<Input>, x: Input) {
    Micros(x.env.now) - Micros(LastInput(accepted, h + [x])) >= 30_001_000
  }

  predicate EndsInDot(x: Input) {
    x.command.DataEnd? || (x.command.DataRecv? && HasSuffix(x.buf, "\r\n.\r\n"))
  }

  /** What a session that has seen h writes after x. */
  ghost function Answer(accepted: TimeVal, h: seq<Input>, x: Input): seq<string> {
    if IsLate(accepted, h, x) then ["421" + " Server Error: timeout exceeded\r\n"]
    else if h == [] then ["220" + " example.com\r\n"]
    else if x.buf == "" then []
    else if Receiving(h) then DataAnswer(x)
    else CommandAnswer(x.command)
  }

  /** In the data phase. */
  function DataAnswer(x: Input): seq<string> {
    if !EndsInDot(x) then []
    else if x.env.opens then ["250" + " Mail is saved on disk and will be queued for forwarding\r\n"]
    else ["554" + " Transaction failed\r\n"]
  }

  /** Outside it, where the command has its place. */
  function CommandAnswer(command: Command): seq<string> {
    match command
    case Quit => ["221" + " Closing connection\r\n"]
    case Vrfy(_) => ["502" + " Command not implemented\r\n"]
    case Helo(_) => ["250" + " example.com\r\n"]
    case Ehlo(_) => ["250" + " example.com\r\n"]
    case Data => ["354" + " Start mail input; end with <CRLF>.<CRLF>\r\n"]
    case DataRecv => ["500" + " Invalid command\r\n"]
    case _ => ["250" + " Ok\r\n"]
  }

  /** The whole output of a session. */
  ghost function Conversation(accepted: TimeVal, h: seq<Input>): seq<string> {
    if h == [] then [] else Conversation(accepted, Front(h)) + Answer(accepted, Front(h), Last(h))
  }

  /** What the input of a pass makes a greeted connection answer. */
  function Said(o: Outcome): seq<string> {
    if o.Exit? || o.conn.sendBuf == "" then [] else [o.conn.sendBuf]
  }

  lemma {:induction false} CommandIsAnswered(c: Conn, command: Command, opens: bool)
    requires c.sendBuf == "" && !c.state.Init? && !c.state.ExpectDataRecv?
    requires c.state in [F.Ready, F.ExpectMail, F.ExpectRcpt, F.ExpectData]
    requires Receive(c, command, opens).Alive?
    ensures Said(Receive(c, command, opens)) == CommandAnswer(command)
  {
  }

  lemma {:induction false} DataIsAnswered(c: Conn, x: Input)
    requires c.sendBuf == "" && c.state.ExpectDataRecv? && c.recvBuf == x.buf
    requires Receive(c, x.command, x.env.opens).Alive?
    ensures Said(Receive(c, x.command, x.env.opens)) == DataAnswer(x)
  {
  }

  /** The greeting and the notice of a time-out overwrite what the input was answered. */
  lemma {:induction false} PassAnswers(c: Conn, x: Input, o: Outcome)
    requires c.sendBuf == "" && c.recvBuf == x.buf && o == PassOn(c, x.command, x.env) && o.Alive?
    ensures var late := Expired(if x.buf == "" then c.watch else x.env.restart, x.env.now);
            Said(o) == if late then ["421" + " Server Error: timeout exceeded\r\n"]
                       else if c.state.Init? then ["220" + " example.com\r\n"]
                       else if x.buf == "" then []
                       else Said(Receive(c, x.command, x.env.opens))
  {
    if x.buf != "" && c.state.Init? { InitStays(c, x.command, x.env.opens); }
    if x.buf != "" && !c.state.Init? { NeverInit(c, x.command, x.env.opens); }
  }

  lemma InitStays(c: Conn, command: Command, opens: bool)
    requires c.state.Init? && Receive(c, command, opens).Alive?
    ensures Receive(c, command, opens).conn.state.Init?
  {
  }

  lemma NeverInit(c: Conn, command: Command, opens: bool)
    requires !c.state.Init? && Receive(c, command, opens).Alive?
    ensures !Receive(c, command, opens).conn.state.Init?
  {
  }

  /** One pass, seen from the state it starts in. */
  lemma {:induction false} NextAnswers(s: Record, x: Input)
    requires Next(s, x).Some? && s.conn.sendBuf == ""
    requires s.conn.state in [F.Init, F.Ready, F.ExpectMail, F.ExpectRcpt, F.ExpectData, F.ExpectDataRecv]
    ensures Next(s, x).value.replies == s.replies +
              if Expired(if x.buf == "" then s.conn.watch else x.env.restart, x.env.now) then
                ["421" + " Server Error: timeout exceeded\r\n"]
              else if s.conn.state.Init? then ["220" + " example.com\r\n"]
              else if x.buf == "" then []
              else if s.conn.state.ExpectDataRecv? then DataAnswer(x)
              else CommandAnswer(x.command)
  {
    var c := s.conn.(recvBuf := x.buf);
    PassAnswers(c, x, PassOn(c, x.command, x.env));
    if x.buf == "" || c.state.Init? {
    } else if c.state.ExpectDataRecv? {
      DataIsAnswered(c, x);
    } else {
      CommandIsAnswered(c, x.command, x.env.opens);
    }
  }

  /** In every run, whatever came before, what a pass writes is the answer that
      the inputs give. */
  lemma {:induction false} EveryInputIsAnswered(accepted: TimeVal, h: seq<Input>, x: Input)
    requires Run(accepted, h + [x]).Some?
    ensures Run(accepted, h).Some?
    ensures Run(accepted, h + [x]).value.replies == Run(accepted, h).value.replies + Answer(accepted, h, x)
  {
    RunStep(accepted, h, x);
    RunExplained(accepted, h);
    RepliesAreOwed(accepted, h);
    ReceivingIffDataPhase(accepted, h);
    WatchIsLastInput(accepted, h);
    assert Front(h + [x]) == h && Last(h + [x]) == x;
    NextAnswers(Run(accepted, h).value, x);
  }

  /** The output of every run, word for word. */
  lemma {:induction false} ConversationIs(accepted: TimeVal, h: seq<Input>)
    requires Run(accepted, h).Some?
    ensures Run(accepted, h).value.replies == Conversation(accepted, h)
  {
    if h == [] {
    } else {
      assert Front(h) + [Last(h)] == h;
      EveryInputIsAnswered(accepted, Front(h), Last(h));
      ConversationIs(accepted, Front(h));
    }
  }

  /** One reply was added, and it begins with the code. */
  predicate Replied(before: seq<string>, after: seq<string>, code: string) {
    |after| == |before| + 1 && before <= after && code <= Last(after)
  }

  lemma OneReply(before: seq<string>, code: string, text: string, other: string)
    requires |code| == |other|
    ensures Replied(before, before + [code + text], other) <==> code == other
  {
    assert (code + text)[..|code|] == code;
  }

  lemma {:induction false} NextUnsaved(s: Record, x: Input)
    requires Next(s, x).Some? && !Expired(x.env.restart, x.env.now)
    requires s.conn.state.ExpectDataRecv? && s.conn.letter.Some? && Ends(x) && !x.env.opens
    ensures var l := s.conn.letter.value;
            Next(s, x).value.conn.letter == Some(if x.command.DataEnd? then l else WithChunk(l, x.buf))
    ensures Next(s, x).value.conn.state.Ready?
  {
  }

  /** A letter that was not saved is still held, in a session that is as after a
      reset. */
  lemma {:induction false} UnsavedIsHeld(accepted: TimeVal, h: seq<Input>, x: Input, m: nat, r: nat, d: nat)
    requires Run(accepted, h + [x]).Some? && Transaction(h, m, r, d) && Ends(x) && !x.env.opens
    requires !IsLate(accepted, h, x)
    ensures SplitAt(h[r].command.arg).Some?
    ensures var after := Run(accepted, h + [x]).value.conn;
            && after.state.Ready? && Phases.IsReset(h + [x])
            && after.letter == Some(Envelope(h[m], h[r]).(body := Body(h[d + 1..] + [x])))
  {
    RunStep(accepted, h, x);
    OpenTransaction(accepted, h, m, r, d);
    assert Front(h + [x]) == h && Last(h + [x]) == x;
    NextUnsaved(Run(accepted, h).value, x);
    Phases.PhaseIff(accepted, h + [x]);
    BodyMore(h[d + 1..], x);
  }

  lemma {:induction false} EndIsAnswered(accepted: TimeVal, h: seq<Input>, x: Input, before: seq<string>)
    requires h != [] && Receiving(h) && Ends(x) && !IsLate(accepted, h, x)
    ensures var after := before + Answer(accepted, h, x);
            && (Replied(before, after, "250") <==> x.env.opens)
            && (Replied(before, after, "554") <==> !x.env.opens)
  {
    if x.env.opens {
      OneReply(before, "250", " Mail is saved on disk and will be queued for forwarding\r\n", "250");
      OneReply(before, "250", " Mail is saved on disk and will be queued for forwarding\r\n", "554");
    } else {
      OneReply(before, "554", " Transaction failed\r\n", "250");
      OneReply(before, "554", " Transaction failed\r\n", "554");
    }
  }

  /** The end of the data of an open transaction is answered with 250 exactly when
      its letter is saved, and with 554 exactly when nothing is. */
  lemma {:induction false} SaveIsAnswered(accepted: TimeVal, h: seq<Input>, x: Input, m: nat, r: nat, d: nat)
    requires Run(accepted, h + [x]).Some? && Transaction(h, m, r, d) && Ends(x) && !IsLate(accepted, h, x)
    ensures Run(accepted, h).Some? && SplitAt(h[r].command.arg).Some?
    ensures var before := Run(accepted, h).value;
            var after := Run(accepted, h + [x]).value;
            var letter := Envelope(h[m], h[r]).(body := Body(h[d + 1..] + [x]));
            && (Replied(before.replies, after.replies, "250") <==> after.letters == before.letters + [letter])
            && (Replied(before.replies, after.replies, "554") <==> after.letters == before.letters)
            && (after.letters == before.letters <==> !x.env.opens)
  {
    EveryInputIsAnswered(accepted, h, x);
    EndIsAnswered(accepted, h, x, Run(accepted, h).value.replies);
    SavedIffTransaction(accepted, h, x);
    if x.env.opens {
      SavedLetterIsItsTransaction(accepted, h, x, m, r, d);
    } else {
      UnsavedIsHeld(accepted, h, x, m, r, d);
    }
  }

  // The letter a session holds.

  /** The input drops the letter: RSET, or the end of data that are saved. */
  ghost predicate Drops(h: seq<Input>, i: nat)
    requires i < |h|
  {
    (h[i].buf != "" && h[i].command.Rset?) || (Ends(h[i]) && Receiving(h[..i]) && h[i].env.opens)
  }

  /** A MAIL whose letter nothing has dropped since. */
  ghost predicate IsOwed(h: seq<Input>, m: nat)
    requires m < |h|
  {
    h[m].buf != "" && h[m].command.Mail? && forall i :: m < i < |h| ==> !Drops(h, i)
  }

  ghost predicate HasLetter(h: seq<Input>) {
    exists m: nat :: m < |h| && IsOwed(h, m)
  }

  lemma {:induction false} NextHolds(s: Record, x: Input)
    requires Next(s, x).Some?
    ensures var saves := s.conn.state.ExpectDataRecv? && Ends(x) && x.env.opens;
            Next(s, x).value.conn.letter.Some? <==>
              (x.buf != "" && x.command.Mail?) ||
              (s.conn.letter.Some? && !saves && !(x.buf != "" && x.command.Rset?))
  {
  }

  lemma {:induction false} HasLetterGrows(h: seq<Input>, x: Input)
    ensures HasLetter(h + [x]) <==>
              (x.buf != "" && x.command.Mail?) || (HasLetter(h) && !Drops(h + [x], |h|))
  {
    var l := h + [x];
    assert forall i :: 0 <= i < |h| ==> l[i] == h[i] && l[..i] == h[..i];
    assert forall i: nat :: i < |h| ==> (Drops(l, i) <==> Drops(h, i));
    if x.buf != "" && x.command.Mail? { assert IsOwed(l, |h|); }
    if m: nat :| m < |h| && IsOwed(h, m) {
      if !Drops(l, |h|) { assert IsOwed(l, m); }
    }
    if m: nat :| m < |l| && IsOwed(l, m) {
      if m < |h| { assert IsOwed(h, m); }
    }
  }

  /** In every run, a session holds a letter exactly when a MAIL came and neither RSET
      nor a save since: nothing else drops a letter, and these always do. */
  lemma {:induction false} HoldsIff(accepted: TimeVal, h: seq<Input>)
    requires Run(accepted, h).Some?
    ensures Run(accepted, h).value.conn.letter.Some? <==> HasLetter(h)
  {
    if h == [] {
    } else {
      var f, x := Front(h), Last(h);
      assert f + [x] == h && h[..|f|] == f;
      RunStep(accepted, f, x);
      HoldsIff(accepted, f);
      ReceivingIffDataPhase(accepted, f);
      NextHolds(Run(accepted, f).value, x);
      HasLetterGrows(f, x);
    }
  }
}
