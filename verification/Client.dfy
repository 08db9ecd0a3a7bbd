/** The client side of one mail domain on values: what a visit of its socket to
    the read set, a visit to the write set, and a new mail do to it. */
module Client {
  import opened Text
  import opened Commands
  import opened ClientFsm
  import opened Disks

  /** A mail domain: FSM state, mails waiting (next one first), the mail whose
      transaction is under way, whether the socket is in the read set and in the
      write set; and what it shares with the other domains of its process: the
      tokens that the cursor of strtok still holds, and the files. */
  datatype Client = Client(
    state: State, pending: seq<string>, inFlight: Option<string>, reading: bool, writing: bool,
    tokens: seq<string>, disk: Disk)

  datatype Outcome<+T> = Exit | Live(client: Client, value: T)

  // Replies.

  predicate IsDigit(c: char) {
    '0' <= c <= '9'
  }

  /** atoi of what follows the sign. */
  function Digits(s: string, n: int): int {
    if s == "" || !IsDigit(s[0]) then n else Digits(s[1..], 10 * n + (s[0] as int - '0' as int))
  }

  function Atoi(s: string): int {
    if s == "" then 0
    else if s[0] == ' ' || 9 <= s[0] as int <= 13 then Atoi(s[1..])
    else if s[0] == '-' then -Digits(s[1..], 0)
    else if s[0] == '+' then Digits(s[1..], 0)
    else Digits(s, 0)
  }

  predicate Contains(s: string, t: string) {
    exists i {:trigger s[i..]} :: 0 <= i <= |s| - |t| && s[i..][..|t|] == t
  }

  /** check_server_code */
  function CheckServerCode(response: string): Event {
    var code := Atoi(response[..if |response| < 3 then |response| else 3]);
    if code < 200 || (code > 300 && code != 354) then
      if code == 502 && Contains(response, "not implemented") then EvCommandNotImplemented else EvError
    else EvOk
  }

  /** Three digits come first. */
  predicate HasCode(reply: string) {
    |reply| >= 3 && '0' <= reply[0] <= '9' && '0' <= reply[1] <= '9' && '0' <= reply[2] <= '9'
  }

  /** A three-digit code is read as the number it is. */
  lemma CodeOf(reply: string)
    requires HasCode(reply)
    ensures Atoi(reply[..3]) ==
              100 * (reply[0] as int - 48) + 10 * (reply[1] as int - 48) + (reply[2] as int - 48)
  {
    var s := reply[..3];
    assert s[1..][1..][1..] == "";
    assert Digits(s, 0) == Digits(s[1..], reply[0] as int - 48);
    assert Digits(s[1..], reply[0] as int - 48) ==
           Digits(s[1..][1..], 10 * (reply[0] as int - 48) + (reply[1] as int - 48));
  }

  lemma {:induction false} DigitsBelow(s: string, n: int)
    requires 0 <= n
    ensures |s| == 0 ==> Digits(s, n) == n
    ensures |s| == 1 ==> 0 <= Digits(s, n) <= 10 * n + 9
    ensures |s| == 2 ==> 0 <= Digits(s, n) <= 100 * n + 99
    decreases |s|
  {
    if s != "" && IsDigit(s[0]) && |s| <= 2 {
      DigitsBelow(s[1..], 10 * n + (s[0] as int - '0' as int));
    }
  }

  /** Behind a sign or a blank, at most two digits count. */
  lemma {:induction false} ShortIsSmall(s: string)
    requires |s| <= 2 || !IsDigit(s[0])
    requires |s| <= 3
    ensures Atoi(s) <= 99
    decreases |s|
  {
    if s == "" {
    } else {
      DigitsBelow(s[1..], 0);
      if IsDigit(s[0]) {
        DigitsBelow(s, 0);
      } else if s[0] == ' ' || 9 <= s[0] as int <= 13 {
        ShortIsSmall(s[1..]);
      }
    }
  }

  lemma {:induction false} BrokenIsSmall(s: string)
    requires |s| == 3 && IsDigit(s[0]) && (!IsDigit(s[1]) || !IsDigit(s[2]))
    ensures Atoi(s) <= 99
  {
    var d, t := s[0] as int - '0' as int, s[1..];
    assert Atoi(s) == Digits(t, d);
    if IsDigit(t[0]) {
      assert Digits(t, d) == Digits(t[1..], 10 * d + (t[0] as int - '0' as int));
    }
  }

  /** What does not begin with three digits is an error, nothing at all included. */
  lemma {:induction false} NoCodeIsError(reply: string)
    requires !HasCode(reply)
    ensures CheckServerCode(reply) == EvError
  {
    var s := reply[..if |reply| < 3 then |reply| else 3];
    if |s| == 3 && IsDigit(s[0]) { BrokenIsSmall(s); } else { ShortIsSmall(s); }
  }

  /** A reply is positive exactly when it begins with a code that begins with 2 or
      is 300 or 354. */
  lemma {:induction false} PositiveIff(reply: string)
    ensures CheckServerCode(reply) == EvOk <==>
              HasCode(reply) &&
              (reply[0] == '2' ||
               (reply[0] == '3' && reply[1] == '0' && reply[2] == '0') ||
               (reply[0] == '3' && reply[1] == '5' && reply[2] == '4'))
  {
    if HasCode(reply) { CodeOf(reply); } else { NoCodeIsError(reply); }
  }

  /** A reply ends a session that is not in DONE when it begins with 502 and says
      so; what is neither that nor positive is an error. */
  lemma {:induction false} NotImplementedIff(reply: string)
    ensures CheckServerCode(reply) in [EvOk, EvError, EvCommandNotImplemented]
    ensures CheckServerCode(reply) == EvCommandNotImplemented <==>
              |reply| >= 3 && reply[0] == '5' && reply[1] == '0' && reply[2] == '2' &&
              exists a, b :: reply == a + "not implemented" + b
  {
    ContainsIff(reply, "not implemented");
    if HasCode(reply) { CodeOf(reply); } else { NoCodeIsError(reply); }
  }

  lemma {:induction false} ContainsIff(s: string, t: string)
    ensures Contains(s, t) <==> exists a, b :: s == a + t + b
  {
    if Contains(s, t) {
      var i :| 0 <= i <= |s| - |t| && s[i..][..|t|] == t;
      assert s == s[..i] + s[i..][..|t|] + s[i..][|t|..];
    }
    if a, b :| s == a + t + b {
      assert s[|a|..] == t + b;
      assert s[|a|..][..|t|] == t;
    }
  }

  // The three things that happen to a domain.

  /** handle_read_socket, after the reply was turned into an event. The value is
      the mail taken off the queue, if one is. */
  function HandleRead(c: Client, event: Event): Outcome<Option<string>> {
    var over := c.state.SendBody? && event != EvError;
    if over && c.pending == [] then Exit  // remove_first frees the unset value of the sentinel
    else
      var rest := if over then c.pending[1..] else c.pending;
      var next := Step(c.state, if over && rest != [] then EvMultipleEmails else event);
      if next.None? then Exit
      else
        var idle := next.value.Init? || next.value.Done? || over;
        Live(c.(state := next.value, pending := rest, inFlight := if idle then None else c.inFlight,
                reading := false, writing := !next.value.Init?),
             if over then Some(c.pending[0]) else None)
  }

  /** handle_write_socket; the value is the message sent. */
  function HandleWrite(c: Client, host: string): Outcome<Option<Message>> {
    var d := c.(reading := true, writing := false);
    match c.state
    case SendHelo => Live(d, Some(Hello(host)))
    case SendMailFrom =>
      if c.pending == [] then Exit
      else
        var path := c.pending[0];
        // a file that does not open leaves strtok on the previous text
        var tokens := if path in c.disk.files then Tokens(c.disk.files[path], '\n') else c.tokens;
        if tokens == [] then Exit
        else Live(d.(tokens := tokens[1..], inFlight := Some(path), disk := Take(c.disk, path)),
                  Some(MailFrom(tokens[0])))
    case SendRcptTo =>
      if c.tokens == [] then Exit else Live(d.(tokens := c.tokens[1..]), Some(RcptTo(c.tokens[0])))
    case SendData => Live(d, Some(DataLine))
    case SendBody => Live(d.(tokens := []), Some(Body(c.tokens)))
    case SendQuit => Live(d, Some(QuitLine))
    case _ => Live(d, None)
  }

  /** init_mail_domain_conn_settings; None when the process exits. */
  function Connected(c: Client, connects: bool): Option<Client> {
    var first := Step(c.state, EvOk);
    if first.None? then None
    else if connects then Some(c.(state := first.value, reading := true, writing := false))
    else
      var second := Step(first.value, EvError);
      if second.None? then None else Some(c.(state := second.value))
  }

  /** register_new_email for a domain; the value says whether the mail was
      queued. Finding the domain splits the path, so nothing is left to strtok. */
  function Register(c: Client, path: string, connects: bool): Outcome<bool> {
    var joined := if c.pending == [] || c.state.Init? then Connected(c, connects) else Some(c);
    if joined.None? then Exit
    else
      var d := joined.value.(tokens := []);
      if d.state.Done? then Live(d.(reading := false, writing := false), false)
      else Live(d.(pending := [path] + c.pending), true)
  }

  /** A domain without a session. */
  function Fresh(tokens: seq<string>, disk: Disk): Client {
    Client(Init, [], None, false, false, tokens, disk)
  }
}
