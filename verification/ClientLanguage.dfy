/** The exact conversation of a client session with a fixed queue. */
module ClientLanguage {
  import opened Text
  import opened Commands
  import opened ClientFsm
  import opened Client
  import opened Disks

  /** A reply is read and, if the socket then waits to be written, answered. */
  function Exchange(c: Client, event: Event, host: string): Outcome<seq<Message>> {
    if !c.reading then Live(c, [])
    else
      var r := HandleRead(c, event);
      if r.Exit? then Exit
      else if !r.client.writing then Live(r.client, [])
      else
        var w := HandleWrite(r.client, host);
        if w.Exit? then Exit
        else Live(w.client, if w.value.Some? then [w.value.value] else [])
  }

  /** A row of replies, and everything written in answer. */
  function Converse(c: Client, events: seq<Event>, host: string): Outcome<seq<Message>> {
    if events == [] then Live(c, [])
    else
      var o := Converse(c, events[..|events| - 1], host);
      if o.Exit? then Exit
      else
        var e := Exchange(o.client, events[|events| - 1], host);
        if e.Exit? then Exit else Live(e.client, o.value + e.value)
  }

  /** Command number i of the transaction of a mail with these lines. */
  function Command(t: seq<string>, i: nat): Message
    requires |t| >= 2 && i < 4
  {
    if i == 0 then MailFrom(t[0]) else if i == 1 then RcptTo(t[1]) else if i == 2 then DataLine else Body(t[2..])
  }

  /** MAIL, RCPT, DATA and the body of each of the first n mails, as each is when
      its turn comes. */
  function Mails(s: Plan, n: nat): (ms: seq<Message>)
    requires IsPlan(s) && n <= |s.texts|
    ensures |ms| == 4 * n
  {
    if n == 0 then []
    else
      var t := s.texts[n - 1];
      Mails(s, n - 1) + [Command(t, 0), Command(t, 1), Command(t, 2), Command(t, 3)]
  }

  /** HELO, the mails, then QUIT. */
  function Script(s: Plan, host: string): (ms: seq<Message>)
    requires IsWhole(s)
    ensures |ms| == 4 * |s.paths| + 2
  {
    [Hello(host)] + Mails(s, |s.paths|) + [QuitLine]
  }

  /** A place in the session: connected, after HELO, after command number
      `command` of mail number `mail`, after QUIT, over. */
  datatype Place = Connected | Greeted | InMail(mail: nat, command: nat) | Leaving | Over

  predicate IsPlace(n: nat, p: Place) {
    p.InMail? ==> p.mail < n && p.command < 4
  }

  function Next(n: nat, p: Place): (q: Place)
    requires IsPlace(n, p) && n > 0
    ensures IsPlace(n, q)
  {
    match p
    case Connected => Greeted
    case Greeted => InMail(0, 0)
    case InMail(j, i) => if i < 3 then InMail(j, i + 1) else if j + 1 < n then InMail(j + 1, 0) else Leaving
    case Leaving => Over
    case Over => Over
  }

  /** The place after k positive replies in a session of n mails. */
  function PlaceAfter(n: nat, k: nat): (p: Place)
    ensures IsPlace(n, p)
  {
    if k == 0 then Connected
    else if k == 1 then Greeted
    else if k < 4 * n + 2 then InMail((k - 2) / 4, (k - 2) % 4)
    else if k == 4 * n + 2 then Leaving
    else Over
  }

  /** How many mails were read on the way to a place. */
  function MailsRead(n: nat, p: Place): nat {
    match p
    case InMail(j, _) => j + 1
    case Leaving => n
    case Over => n
    case _ => 0
  }

  /** The mails read on the way to a place could be. */
  predicate InReach(s: Plan, p: Place) {
    IsPlan(s) && IsPlace(|s.paths|, p) && MailsRead(|s.paths|, p) <= |s.texts|
  }

  /** A queue whose first mail has opened a connection. */
  function Connecting(paths: seq<string>, disk: Disk): Client {
    Client(Connect, paths, None, true, false, [], disk)
  }

  /** The client at a place, its message written and its reply awaited. */
  function At(s: Plan, p: Place): Client
    requires InReach(s, p)
  {
    var d := s.disks[MailsRead(|s.paths|, p)];
    match p
    case Connected => Connecting(s.paths, d)
    case Greeted => Client(SendHelo, s.paths, None, true, false, [], d)
    case InMail(j, i) =>
      Client(if i == 0 then SendMailFrom else if i == 1 then SendRcptTo else if i == 2 then SendData else SendBody,
             s.paths[j..], Some(s.paths[j]), true, false,
             if i == 0 then s.texts[j][1..] else if i < 3 then s.texts[j][2..] else [], d)
    case Leaving => Client(SendQuit, [], None, true, false, [], d)
    case Over => Fresh([], d)
  }

  /** What is written on the way to a place. */
  function Said(s: Plan, host: string, p: Place): seq<Message>
    requires InReach(s, p)
  {
    match p
    case Greeted => [Hello(host)]
    case InMail(j, i) => [Command(s.texts[j], i)]
    case Leaving => [QuitLine]
    case _ => []
  }

  /** RCPT, DATA and the body of the mail whose lines are t. */
  lemma StepInMail(c: Client, t: seq<string>, i: nat, host: string)
    requires |t| >= 2 && i < 3 && c.reading && !c.writing
    requires c.state == if i == 0 then SendMailFrom else if i == 1 then SendRcptTo else SendData
    requires c.tokens == if i == 0 then t[1..] else t[2..]
    ensures Exchange(c, EvOk, host) ==
              Live(c.(state := if i == 0 then SendRcptTo else if i == 1 then SendData else SendBody,
                      tokens := if i < 2 then t[2..] else []),
                   [Command(t, i + 1)])
  {
  }

  /** The client at the turn of mail number j, its message not yet written. */
  function Turn(s: Plan, j: nat): Client
    requires j < |s.paths| && j < |s.disks|
  {
    Client(SendMailFrom, s.paths[j..], None, false, true, [], s.disks[j])
  }

  lemma ReadLastReply(s: Plan, j: nat)
    requires IsPlan(s) && j < |s.texts| && j + 1 < |s.paths|
    ensures HandleRead(At(s, InMail(j, 3)), EvOk) == Live(Turn(s, j + 1), Some(s.paths[j]))
  {
    assert s.paths[j..][1..] == s.paths[j + 1..];
  }

  lemma WriteFirst(s: Plan, host: string, j: nat)
    requires IsPlan(s) && j < |s.texts|
    ensures HandleWrite(Turn(s, j), host) == Live(At(s, InMail(j, 0)), Some(Command(s.texts[j], 0)))
  {
    assert IsStep(s.disks[j], s.paths[j], s.texts[j], s.disks[j + 1]);
  }

  lemma StepToNext(s: Plan, host: string, j: nat)
    requires IsPlan(s) && j + 1 < |s.texts|
    ensures Exchange(At(s, InMail(j, 3)), EvOk, host) ==
              Live(At(s, InMail(j + 1, 0)), [Command(s.texts[j + 1], 0)])
  {
    ReadLastReply(s, j);
    WriteFirst(s, host, j + 1);
  }

  lemma ReadGreeting(s: Plan)
    requires IsPlan(s) && s.paths != []
    ensures HandleRead(At(s, Greeted), EvOk) == Live(Turn(s, 0), None)
  {
    assert s.paths[0..] == s.paths;
  }

  lemma StepToFirst(s: Plan, host: string)
    requires IsPlan(s) && s.texts != []
    ensures Exchange(At(s, Greeted), EvOk, host) == Live(At(s, InMail(0, 0)), [Command(s.texts[0], 0)])
  {
    ReadGreeting(s);
    WriteFirst(s, host, 0);
  }

  lemma StepToQuit(s: Plan, host: string)
    requires IsWhole(s) && s.paths != []
    ensures Exchange(At(s, InMail(|s.paths| - 1, 3)), EvOk, host) == Live(At(s, Leaving), [QuitLine])
  {
  }

  lemma StepWithin(s: Plan, host: string, j: nat, i: nat)
    requires IsPlan(s) && j < |s.texts| && i < 3
    ensures Exchange(At(s, InMail(j, i)), EvOk, host) ==
              Live(At(s, InMail(j, i + 1)), [Command(s.texts[j], i + 1)])
  {
    StepInMail(At(s, InMail(j, i)), s.texts[j], i, host);
  }

  lemma StepOutside(s: Plan, host: string)
    requires IsPlan(s) && s.paths != []
    ensures Exchange(At(s, Connected), EvOk, host) == Live(At(s, Greeted), [Hello(host)])
    ensures IsWhole(s) ==> Exchange(At(s, Leaving), EvOk, host) == Live(At(s, Over), [])
  {
  }

  /** One positive reply moves the session one place on. */
  lemma {:induction false} StepOk(s: Plan, host: string, p: Place)
    requires s.paths != [] && InReach(s, p) && InReach(s, Next(|s.paths|, p)) && !p.Over?
    ensures Exchange(At(s, p), EvOk, host) ==
              Live(At(s, Next(|s.paths|, p)), Said(s, host, Next(|s.paths|, p)))
  {
    match p
    case Connected => StepOutside(s, host);
    case Leaving => StepOutside(s, host);
    case Greeted => StepToFirst(s, host);
    case InMail(j, i) =>
      if i < 3 {
        StepWithin(s, host, j, i);
      } else if j + 1 < |s.paths| {
        StepToNext(s, host, j);
      } else {
        StepToQuit(s, host);
      }
  }

  lemma NextAfter(n: nat, k: nat)
    requires n > 0
    ensures Next(n, PlaceAfter(n, k)) == PlaceAfter(n, k + 1)
  {
  }

  lemma {:induction false} MailsAt(s: Plan, n: nat, j: nat, i: nat)
    requires IsPlan(s) && j < n <= |s.texts| && i < 4
    ensures Mails(s, n)[4 * j + i] == Command(s.texts[j], i)
  {
    if j >= n - 1 {
    } else {
      MailsAt(s, n - 1, j, i);
    }
  }

  /** The places say the script, one message each. */
  lemma SaidIsScript(s: Plan, host: string, k: nat)
    requires IsWhole(s) && s.paths != []
    ensures Said(s, host, PlaceAfter(|s.paths|, k + 1)) ==
              if k <= 4 * |s.paths| + 1 then [Script(s, host)[k]] else []
  {
    if 1 <= k <= 4 * |s.paths| {
      MailsAt(s, |s.paths|, (k - 1) / 4, (k - 1) % 4);
    }
  }

  /** A session that met a negative reply, and then the next reply. */
  function Stopped(c: Client): Client {
    c.(state := Done, inFlight := None, reading := true, writing := false)
  }

  function Closed(c: Client): Client {
    c.(state := Init, inFlight := None, reading := false, writing := false)
  }

  /** What a reply can be taken for. */
  predicate IsReply(event: Event) {
    event == EvOk || event == EvError || event == EvCommandNotImplemented
  }

  /** A reply that takes the session on: behind a body with more mails waiting, also
      that the command is not implemented. */
  predicate Counts(n: nat, p: Place, event: Event) {
    event == EvOk || (event == EvCommandNotImplemented && p.InMail? && p.command == 3 && p.mail + 1 < n)
  }

  /** A negative reply stops the session without a word, and the next one closes
      it, whatever it is. */
  lemma StepError(c: Client, event: Event, host: string)
    requires c.reading && !c.writing && !c.state.Invalid?
    ensures event == EvError && !c.state.Done? ==> Exchange(c, event, host) == Live(Stopped(c), [])
    ensures c.state.Done? ==> Exchange(c, event, host) == Live(Closed(c), [])
  {
  }

  /** A reply that counts is as good as a positive one. */
  lemma CountsAsOk(s: Plan, host: string, p: Place, event: Event)
    requires InReach(s, p) && Counts(|s.paths|, p, event)
    ensures Exchange(At(s, p), event, host) == Exchange(At(s, p), EvOk, host)
  {
  }

  /** That the command is not implemented ends the process anywhere else. */
  lemma StepFatal(s: Plan, host: string, p: Place)
    requires s.paths != [] && InReach(s, p) && !p.Over? && !Counts(|s.paths|, p, EvCommandNotImplemented)
    ensures Exchange(At(s, p), EvCommandNotImplemented, host) == Exit
  {
  }

  /** The number of replies before the first that does not count. */
  function Leading(n: nat, events: seq<Event>): (k: nat)
    ensures k <= |events|
    ensures forall i :: 0 <= i < k ==> Counts(n, PlaceAfter(n, i), events[i])
    ensures k < |events| ==> !Counts(n, PlaceAfter(n, k), events[k])
  {
    if events == [] then 0
    else
      var k := Leading(n, events[..|events| - 1]);
      if k == |events| - 1 && Counts(n, PlaceAfter(n, k), events[k]) then k + 1 else k
  }

  /** The first reply that does not count says that the command is not
      implemented. */
  predicate IsFatal(n: nat, events: seq<Event>) {
    var k := Leading(n, events);
    k < |events| && k < 4 * n + 3 && events[k] == EvCommandNotImplemented
  }

  /** Where a row of replies leaves the session. */
  function Final(s: Plan, events: seq<Event>): Client
    requires IsWhole(s)
  {
    var k := Leading(|s.paths|, events);
    var c := At(s, PlaceAfter(|s.paths|, k));
    if k >= 4 * |s.paths| + 3 || k == |events| then c
    else if k + 1 == |events| then Stopped(c)
    else Closed(c)
  }

  /** What a row of replies makes the session write. */
  function Written(s: Plan, host: string, events: seq<Event>): seq<Message>
    requires IsWhole(s)
  {
    var k := Leading(|s.paths|, events);
    Script(s, host)[..if k <= 4 * |s.paths| + 2 then k else 4 * |s.paths| + 2]
  }

  lemma LeadingGrows(n: nat, events: seq<Event>, event: Event)
    ensures var k := Leading(n, events);
            Leading(n, events + [event]) ==
              if k == |events| && Counts(n, PlaceAfter(n, k), event) then |events| + 1 else k
  {
    assert (events + [event])[..|events|] == events;
  }

  lemma FinalOk(s: Plan, events: seq<Event>)
    requires IsWhole(s) && Leading(|s.paths|, events) == |events|
    ensures Final(s, events) == At(s, PlaceAfter(|s.paths|, |events|))
  {
  }

  lemma {:induction false} WrittenOk(s: Plan, host: string, events: seq<Event>, event: Event)
    requires IsWhole(s) && s.paths != []
    requires Leading(|s.paths|, events) == |events| < 4 * |s.paths| + 3
    requires Counts(|s.paths|, PlaceAfter(|s.paths|, |events|), event)
    ensures Written(s, host, events) + Said(s, host, PlaceAfter(|s.paths|, |events| + 1)) ==
              Written(s, host, events + [event])
  {
    var k, script := |events|, Script(s, host);
    LeadingGrows(|s.paths|, events, event);
    SaidIsScript(s, host, k);
    OneMore(script, k);
    if k < |script| {
      assert Written(s, host, events + [event]) == script[..k + 1];
    } else {
      assert Written(s, host, events + [event]) == script[..|script|];
    }
  }

  lemma OneMore(s: seq<Message>, k: nat)
    ensures k < |s| ==> s[..k] + [s[k]] == s[..k + 1]
    ensures s[..|s|] + [] == s
  {
  }

  lemma {:induction false} AdvanceOther(s: Plan, host: string, events: seq<Event>, event: Event)
    requires IsWhole(s) && s.paths != [] && IsReply(event) && !IsFatal(|s.paths|, events)
    requires var k := Leading(|s.paths|, events); k == |events| < 4 * |s.paths| + 3 ==> event == EvError
    ensures !IsFatal(|s.paths|, events + [event])
    ensures Exchange(Final(s, events), event, host) == Live(Final(s, events + [event]), [])
    ensures Written(s, host, events) == Written(s, host, events + [event])
  {
    LeadingGrows(|s.paths|, events, event);
    var k := Leading(|s.paths|, events);
    if k < 4 * |s.paths| + 3 && k + 1 >= |events| {
      StepError(Final(s, events), event, host);
    }
  }

  lemma {:induction false} AdvanceOk(s: Plan, host: string, events: seq<Event>, event: Event)
    requires IsWhole(s) && s.paths != [] && Leading(|s.paths|, events) == |events| < 4 * |s.paths| + 3
    requires Counts(|s.paths|, PlaceAfter(|s.paths|, |events|), event)
    ensures !IsFatal(|s.paths|, events + [event])
    ensures var said := Said(s, host, PlaceAfter(|s.paths|, |events| + 1));
            && Exchange(Final(s, events), event, host) == Live(Final(s, events + [event]), said)
            && Written(s, host, events) + said == Written(s, host, events + [event])
  {
    var p := PlaceAfter(|s.paths|, |events|);
    LeadingGrows(|s.paths|, events, event);
    FinalOk(s, events);
    FinalOk(s, events + [event]);
    NextAfter(|s.paths|, |events|);
    CountsAsOk(s, host, p, event);
    StepOk(s, host, p);
    WrittenOk(s, host, events, event);
  }

  lemma {:induction false} AdvanceFatal(s: Plan, host: string, events: seq<Event>)
    requires IsWhole(s) && s.paths != [] && Leading(|s.paths|, events) == |events| < 4 * |s.paths| + 3
    requires !Counts(|s.paths|, PlaceAfter(|s.paths|, |events|), EvCommandNotImplemented)
    ensures IsFatal(|s.paths|, events + [EvCommandNotImplemented])
    ensures Exchange(Final(s, events), EvCommandNotImplemented, host) == Exit
  {
    LeadingGrows(|s.paths|, events, EvCommandNotImplemented);
    FinalOk(s, events);
    StepFatal(s, host, PlaceAfter(|s.paths|, |events|));
  }

  lemma FatalGrows(n: nat, events: seq<Event>, event: Event)
    requires IsFatal(n, events)
    ensures IsFatal(n, events + [event])
  {
    LeadingGrows(n, events, event);
  }

  lemma ConverseStep(
    c: Client, events: seq<Event>, event: Event, host: string,
    d: Client, written: seq<Message>, e: Client, said: seq<Message>)
    requires Converse(c, events, host) == Live(d, written)
    requires Exchange(d, event, host) == Live(e, said)
    ensures Converse(c, events + [event], host) == Live(e, written + said)
  {
    assert (events + [event])[..|events|] == events;
  }

  lemma ConverseExit(c: Client, events: seq<Event>, event: Event, host: string)
    requires var o := Converse(c, events, host); o.Live? ==> Exchange(o.client, event, host).Exit?
    ensures Converse(c, events + [event], host) == Exit
  {
    assert (events + [event])[..|events|] == events;
  }

  /** Exact session length and language. Whatever row of replies comes, what is
      written is the script as far as the replies before the first that does not
      count allow; the session returns to INIT with an empty queue exactly on the
      (4n+3)rd of them, having written the whole script; a negative reply leads to
      DONE, where nothing more is written; and the process ends exactly when the
      first reply that does not count says that the command is not implemented. */
  lemma {:induction false} SessionLanguage(s: Plan, host: string, events: seq<Event>)
    requires IsWhole(s) && s.paths != []
    requires forall i :: 0 <= i < |events| ==> IsReply(events[i])
    ensures Converse(At(s, Connected), events, host) ==
              if IsFatal(|s.paths|, events) then Exit else Live(Final(s, events), Written(s, host, events))
  {
    if events == [] {
      assert Written(s, host, events) == [];
    } else {
      var before := events[..|events| - 1];
      assert before + [events[|events| - 1]] == events;
      SessionLanguage(s, host, before);
      OneReply(s, host, before, events[|events| - 1]);
    }
  }

  lemma {:induction false} OneReply(s: Plan, host: string, events: seq<Event>, event: Event)
    requires IsWhole(s) && s.paths != [] && IsReply(event)
    requires Converse(At(s, Connected), events, host) ==
               if IsFatal(|s.paths|, events) then Exit else Live(Final(s, events), Written(s, host, events))
    ensures Converse(At(s, Connected), events + [event], host) ==
              if IsFatal(|s.paths|, events + [event]) then Exit
              else Live(Final(s, events + [event]), Written(s, host, events + [event]))
  {
    var start, n, k := At(s, Connected), |s.paths|, Leading(|s.paths|, events);
    if IsFatal(n, events) {
      FatalGrows(n, events, event);
      ConverseExit(start, events, event, host);
    } else if k == |events| < 4 * n + 3 && Counts(n, PlaceAfter(n, k), event) {
      AdvanceOk(s, host, events, event);
      ConverseStep(start, events, event, host, Final(s, events), Written(s, host, events),
                   Final(s, events + [event]), Said(s, host, PlaceAfter(n, |events| + 1)));
    } else if k == |events| < 4 * n + 3 && event == EvCommandNotImplemented {
      AdvanceFatal(s, host, events);
      ConverseExit(start, events, event, host);
    } else {
      AdvanceOther(s, host, events, event);
      ConverseStep(start, events, event, host, Final(s, events), Written(s, host, events),
                   Final(s, events + [event]), []);
      assert Written(s, host, events) + [] == Written(s, host, events);
    }
  }

  lemma {:induction false} LeadingAll(n: nat, events: seq<Event>)
    requires forall i :: 0 <= i < |events| ==> events[i] == EvOk
    ensures Leading(n, events) == |events| && !IsFatal(n, events)
  {
  }

  /** Under positive replies only, the session is back at INIT, with nothing
      queued and everything written, after 4n+3 of them and not before. */
  lemma SessionLength(s: Plan, host: string, events: seq<Event>)
    requires IsWhole(s) && s.paths != []
    requires forall i :: 0 <= i < |events| ==> events[i] == EvOk
    ensures var o := Converse(At(s, Connected), events, host);
            && o.Live?
            && (o.client.state.Init? <==> |events| >= 4 * |s.paths| + 3)
            && (o.client.state.Init? ==>
                  o.client == Fresh([], s.disks[|s.paths|]) && o.value == Script(s, host))
  {
    SessionLanguage(s, host, events);
    LeadingAll(|s.paths|, events);
  }

  // Mails that are not there.

  /** The first k positive replies, as long as every mail met can be read. */
  lemma {:induction false} Reaches(s: Plan, host: string, events: seq<Event>)
    requires s.paths != [] && InReach(s, PlaceAfter(|s.paths|, |events|)) && |events| <= 4 * |s.paths| + 3
    requires forall i :: 0 <= i < |events| ==> events[i] == EvOk
    ensures var o := Converse(At(s, Connected), events, host);
            o.Live? && o.client == At(s, PlaceAfter(|s.paths|, |events|))
  {
    if events == [] {
    } else {
      var n := |events| - 1;
      var p := PlaceAfter(|s.paths|, n);
      NextAfter(|s.paths|, n);
      ReachGrows(s, p);
      Reaches(s, host, events[..n]);
      var o := Converse(At(s, Connected), events[..n], host);
      StepOk(s, host, p);
      assert events == events[..n] + [EvOk];
      ConverseStep(At(s, Connected), events[..n], EvOk, host, o.client, o.value,
                   At(s, Next(|s.paths|, p)), Said(s, host, Next(|s.paths|, p)));
    }
  }

  lemma ReachGrows(s: Plan, p: Place)
    requires s.paths != [] && IsPlace(|s.paths|, p) && InReach(s, Next(|s.paths|, p))
    ensures InReach(s, p)
  {
  }

  /** The place before the MAIL of mail number j. */
  function PlaceBefore(j: nat): Place {
    if j == 0 then Greeted else InMail(j - 1, 3)
  }

  lemma TurnStops(c: Client, host: string)
    requires c.state.SendMailFrom? && c.tokens == [] && c.pending != [] && !IsMail(c.disk, c.pending[0])
    ensures var w := HandleWrite(c, host);
            w.Live? ==> w.client.reading && Exchange(w.client, EvOk, host).Exit?
  {
  }

  /** A mail that is not there, or has no second line, ends the process at its
      MAIL or at its RCPT. */
  lemma StopsAt(s: Plan, host: string, j: nat)
    requires IsPlan(s) && j == |s.texts| < |s.paths| && !IsMail(s.disks[j], s.paths[j])
    ensures var o := Exchange(At(s, PlaceBefore(j)), EvOk, host);
            o.Live? ==> Exchange(o.client, EvOk, host).Exit?
  {
    if j > 0 {
      ReadLastReply(s, j - 1);
    } else {
      ReadGreeting(s);
    }
    var c := At(s, PlaceBefore(j));
    assert c.reading && HandleRead(c, EvOk).client == Turn(s, j);
    TurnStops(Turn(s, j), host);
  }

  lemma {:induction false} ExitStays(c: Client, events: seq<Event>, k: nat, host: string)
    requires k <= |events| && Converse(c, events[..k], host).Exit?
    ensures Converse(c, events, host).Exit?
    decreases |events|
  {
    if k < |events| {
      assert events[..|events| - 1][..k] == events[..k];
      ExitStays(c, events[..|events| - 1], k, host);
    } else {
      assert events[..k] == events;
    }
  }

  /** Two more positive replies, the second of which ends the process at latest. */
  lemma {:induction false} ExitFollows(c: Client, d: Client, events: seq<Event>, k: nat, host: string)
    requires k + 2 <= |events| && events[k] == EvOk == events[k + 1]
    requires Converse(c, events[..k], host).Live? && Converse(c, events[..k], host).client == d
    requires var o := Exchange(d, EvOk, host); o.Live? ==> Exchange(o.client, EvOk, host).Exit?
    ensures Converse(c, events, host).Exit?
  {
    assert events[..k + 1][..k] == events[..k] && events[..k + 2][..k + 1] == events[..k + 1];
    if Exchange(d, EvOk, host).Exit? {
      ExitStays(c, events, k + 1, host);
    } else {
      ExitStays(c, events, k + 2, host);
    }
  }

  /** A session of positive replies comes to its end exactly when every mail can
      be read when its turn comes; else the process ends. */
  lemma SurvivesIff(paths: seq<string>, disk: Disk, host: string, events: seq<Event>)
    requires paths != [] && |events| >= 4 * |paths| + 3
    requires forall i :: 0 <= i < |events| ==> events[i] == EvOk
    ensures Converse(Connecting(paths, disk), events, host).Live? <==> IsWhole(PlanOf(paths, disk))
  {
    var s := PlanOf(paths, disk);
    if IsWhole(s) {
      SessionLanguage(s, host, events);
      LeadingAll(|paths|, events);
    } else {
      Stops(s, host, events);
    }
  }

  lemma {:induction false} Stops(s: Plan, host: string, events: seq<Event>)
    requires IsPlan(s) && |s.texts| < |s.paths| && !IsMail(s.disks[|s.texts|], s.paths[|s.texts|])
    requires |events| >= 4 * |s.paths| + 3 && forall i :: 0 <= i < |events| ==> events[i] == EvOk
    ensures Converse(Connecting(s.paths, s.disks[0]), events, host).Exit?
  {
    var j := |s.texts|;
    var k := 4 * j + 1;
    assert PlaceAfter(|s.paths|, k) == PlaceBefore(j);
    Reaches(s, host, events[..k]);
    StopsAt(s, host, j);
    ExitFollows(At(s, Connected), At(s, PlaceBefore(j)), events, k, host);
  }

  /** So a queue of new mails is sent exactly when it names no mail twice. */
  lemma NewMailsSurviveIff(paths: seq<string>, disk: Disk, host: string, events: seq<Event>)
    requires AreNew(paths, disk) && paths != [] && |events| >= 4 * |paths| + 3
    requires forall i :: 0 <= i < |events| ==> events[i] == EvOk
    ensures Converse(Connecting(paths, disk), events, host).Live? <==> Distinct(paths)
  {
    ReadableIffDistinct(paths, disk);
    SurvivesIff(paths, disk, host, events);
  }

  lemma {:induction false} NewInFront(b: string, paths: seq<string>, disk: Disk, j: nat)
    requires j < |paths| && AreNew([b] + paths, disk)
    ensures paths[j] in disk.files && Renamed(b) != paths[j]
    ensures forall i :: 0 <= i < |paths| ==> MovesAway(disk, paths[i]) && Renamed(paths[i]) != paths[j]
  {
    var all := [b] + paths;
    assert all[0] == b && forall i :: 0 <= i < |paths| ==> paths[i] == all[i + 1];
  }

  /** A mail that was read is not there when the session is taken up again, nor
      after the mail that took it up was read. */
  lemma {:induction false} IsGone(s: Plan, j: nat, b: string)
    requires IsPlan(s) && j < |s.texts| && AreNew([b] + s.paths, s.disks[0])
    ensures s.paths[j] !in Take(s.disks[j + 1], b).files
  {
    NewInFront(b, s.paths, s.disks[0], j);
    ReadIsGone(s.disks[0], s.paths, j);
    PlanDisk(s, j + 1);
    StaysGone(s.disks[j + 1], b, s.paths[j]);
  }

  lemma StaysGone(disk: Disk, b: string, path: string)
    requires path !in disk.files && Renamed(b) != path
    ensures path !in Take(disk, b).files
  {
  }

  /** After a negative reply the session begins again when the next mail arrives.
      The mails then are sent exactly when the negative reply came before the
      first MAIL: a mail that was read is no longer there. */
  lemma RestartSurvivesIff(s: Plan, host: string, p: Place, b: string, events: seq<Event>)
    requires InReach(s, p) && !p.Leaving? && !p.Over?
    requires s.paths != [] && AreNew([b] + s.paths, s.disks[0]) && Distinct([b] + s.paths)
    requires |events| >= 4 * |s.paths| + 7 && forall i :: 0 <= i < |events| ==> events[i] == EvOk
    ensures var o := Register(Closed(At(s, p)), b, true);
            o.Live? && (Converse(o.client, events, host).Live? <==> !p.InMail?)
  {
    var c := Closed(At(s, p));
    var queue := [b] + c.pending;
    assert Register(c, b, true).client == Connecting(queue, c.disk);
    SurvivesIff(queue, c.disk, host, events);
    if p.InMail? {
      IsGone(s, p.mail, b);
      GoneIsNotWhole(queue, c.disk);
    } else {
      ReadableIffDistinct(queue, c.disk);
    }
  }

  lemma GoneIsNotWhole(queue: seq<string>, disk: Disk)
    requires |queue| > 1 && queue[1] !in Take(disk, queue[0]).files
    ensures !IsWhole(PlanOf(queue, disk))
  {
    var s := PlanOf(queue, disk);
    assert |s.texts| > 0 ==> IsStep(s.disks[0], queue[0], s.texts[0], s.disks[0 + 1]);
    assert |s.texts| > 1 ==> IsMail(s.disks[1], queue[1]) by {
      assert |s.texts| > 1 ==> IsStep(s.disks[1], queue[1], s.texts[1], s.disks[1 + 1]);
    }
  }
}
