/** Sessions whose last input ends the server's process, one of each kind. */
module FatalInputs {
  import opened Text
  import opened Pattern
  import opened Commands
  import opened Stopwatch
  import opened Session
  import H = History

  /** A message as the server hears it, at the time the connection was accepted. */
  function Hears(m: Message, t: TimeVal): H.Input {
    Says(Print(m), t)
  }

  function Says(buf: string, t: TimeVal): H.Input {
    H.Input(buf, Classify(buf), Env(t, t, true))
  }

  lemma {:induction false} Then(h: seq<H.Input>, x: H.Input, t: TimeVal, s: H.Record)
    requires H.Run(t, h) == Some(s) && !s.conn.state.Disconnected?
    ensures H.Run(t, h + [x]) == H.Next(s, x)
  {
    assert H.Front(h + [x]) == h && H.Last(h + [x]) == x;
  }

  /** A command in the phase that awaits it, and in one that does not. */
  lemma NextIs(s: H.Record, x: H.Input, t: TimeVal)
    requires x.buf != "" && x.env == Env(t, t, true)
    ensures x.command.Helo? && s.conn.state.Ready? ==>
              H.Next(s, x).Some? && H.Next(s, x).value.conn.state.ExpectMail?
    ensures x.command.Mail? && s.conn.state.ExpectMail? ==>
              H.Next(s, x).Some? && H.Next(s, x).value.conn.state.ExpectRcpt? && H.Next(s, x).value.conn.letter.Some?
    ensures x.command.Rcpt? && s.conn.state.ExpectRcpt? && s.conn.letter.Some? ==>
              if SplitAt(x.command.arg).None? then H.Next(s, x).None?
              else H.Next(s, x).Some? && H.Next(s, x).value.conn.state.ExpectData?
    ensures x.command.Data? && s.conn.state.ExpectData? ==>
              H.Next(s, x).Some? && H.Next(s, x).value.conn.state.ExpectDataRecv?
    ensures x.command.Quit? && s.conn.state.ExpectDataRecv? ==> H.Next(s, x).None?
  {
  }

  /** The greeting, HELO and MAIL. */
  function Opening(host: string, sender: string, t: TimeVal): seq<H.Input> {
    [Says("", t)] + [Hears(Hello(host), t)] + [Hears(MailFrom(sender), t)]
  }

  lemma {:induction false} Connects(t: TimeVal) returns (s: H.Record)
    ensures H.Run(t, [Says("", t)]) == Some(s) && s.conn.state.Ready?
  {
    assert [] + [Says("", t)] == [Says("", t)];
    Then([], Says("", t), t, H.Record(H.Fresh(t), [], []));
    s := H.Next(H.Record(H.Fresh(t), [], []), Says("", t)).value;
  }

  lemma {:induction false} Opens(host: string, sender: string, t: TimeVal) returns (s: H.Record)
    requires IsArgument(host) && IsArgument(sender)
    ensures H.Run(t, Opening(host, sender, t)) == Some(s) && s.conn.state.ExpectRcpt? && s.conn.letter.Some?
  {
    s := Connects(t);
    var hello, mail := Hears(Hello(host), t), Hears(MailFrom(sender), t);
    HeloRoundTrip(host);
    NextIs(s, hello, t);
    Then([Says("", t)], hello, t, s);
    s := H.Next(s, hello).value;
    MailRoundTrip(sender);
    NextIs(s, mail, t);
    Then([Says("", t)] + [hello], mail, t, s);
    s := H.Next(s, mail).value;
  }

  /** A recipient without an "@". */
  lemma {:induction false} BareRecipientIsFatal(host: string, sender: string, recipient: string, t: TimeVal)
    requires IsArgument(host) && IsArgument(sender) && IsArgument(recipient) && '@' !in recipient
    ensures H.Run(t, Opening(host, sender, t)).Some?
    ensures H.Run(t, Opening(host, sender, t) + [Hears(RcptTo(recipient), t)]) == None
  {
    var s := Opens(host, sender, t);
    RcptRoundTrip(recipient);
    EmailSplit(recipient);
    NextIs(s, Hears(RcptTo(recipient), t), t);
    Then(Opening(host, sender, t), Hears(RcptTo(recipient), t), t, s);
  }

  lemma {:induction false} ThenRcpt(h: seq<H.Input>, recipient: string, t: TimeVal, s: H.Record) returns (s': H.Record)
    requires H.Run(t, h) == Some(s) && s.conn.state.ExpectRcpt? && s.conn.letter.Some?
    requires IsArgument(recipient) && IsUserAtDomain(recipient)
    ensures H.Run(t, h + [Hears(RcptTo(recipient), t)]) == Some(s') && s'.conn.state.ExpectData?
  {
    var rcpt := Hears(RcptTo(recipient), t);
    RcptRoundTrip(recipient);
    EmailSplit(recipient);
    NextIs(s, rcpt, t);
    Then(h, rcpt, t, s);
    s' := H.Next(s, rcpt).value;
  }

  lemma {:induction false} ThenData(h: seq<H.Input>, t: TimeVal, s: H.Record) returns (s': H.Record)
    requires H.Run(t, h) == Some(s) && s.conn.state.ExpectData?
    ensures H.Run(t, h + [Hears(DataLine, t)]) == Some(s') && s'.conn.state.ExpectDataRecv?
  {
    var data := Hears(DataLine, t);
    DataRoundTrip();
    NextIs(s, data, t);
    Then(h, data, t, s);
    s' := H.Next(s, data).value;
  }

  lemma {:induction false} OpensData(host: string, sender: string, recipient: string, t: TimeVal)
    returns (s: H.Record)
    requires IsArgument(host) && IsArgument(sender) && IsArgument(recipient) && IsUserAtDomain(recipient)
    ensures H.Run(t, Opening(host, sender, t) + [Hears(RcptTo(recipient), t)] + [Hears(DataLine, t)]) == Some(s)
    ensures s.conn.state.ExpectDataRecv?
  {
    s := Opens(host, sender, t);
    s := ThenRcpt(Opening(host, sender, t), recipient, t, s);
    s := ThenData(Opening(host, sender, t) + [Hears(RcptTo(recipient), t)], t, s);
  }

  lemma {:induction false} QuitEnds(h: seq<H.Input>, t: TimeVal, s: H.Record)
    requires H.Run(t, h) == Some(s) && s.conn.state.ExpectDataRecv?
    ensures H.Run(t, h + [Says("QUIT\n", t)]) == None
  {
    QuitRoundTrip();
    NextIs(s, Says("QUIT\n", t), t);
    Then(h, Says("QUIT\n", t), t, s);
  }

  /** A body whose line "QUIT" comes in a buffer of its own. */
  lemma {:induction false} QuitInBodyIsFatal(host: string, sender: string, recipient: string, t: TimeVal)
    requires IsArgument(host) && IsArgument(sender) && IsArgument(recipient) && IsUserAtDomain(recipient)
    ensures var h := Opening(host, sender, t) + [Hears(RcptTo(recipient), t)] + [Hears(DataLine, t)];
            H.Run(t, h).Some? && H.Run(t, h + [Says("QUIT\n", t)]) == None
  {
    var s := OpensData(host, sender, recipient, t);
    QuitEnds(Opening(host, sender, t) + [Hears(RcptTo(recipient), t)] + [Hears(DataLine, t)], t, s);
  }
}
