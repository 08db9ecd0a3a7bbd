/** Runs of a worker process in which mails are lost or mixed, one of each kind. */
module Mishaps {
  import opened Text
  import opened Commands
  import opened ClientFsm
  import opened Client
  import opened Disks
  import opened ClientRuns
  import MailName

  lemma OkReply()
    ensures CheckServerCode("250") == EvOk
  {
    PositiveIff("250");
  }

  lemma Then(s: seq<Action>, a: Action, l: Log, disk: Disk, host: string)
    requires Run(s, disk, host) == Some(l)
    ensures Run(s + [a], disk, host) == Act(l, a, host)
  {
    assert (s + [a])[..|s|] == s;
  }

  /** The wait for sockets, with those of two domains ready. */
  function Wait(): seq<Action> {
    [Select({0, 1})]
  }

  lemma WaitIs(l: Log, host: string)
    requires |l.rows| <= 2
    ensures Act(l, Select({0, 1}), host) == Some(l)
  {
    var ready: set<nat> := {0, 1};
    assert 0 in ready && 1 in ready;
    SelectAllReady(l, ready);
  }

  lemma {:induction false} ThenWait(s: seq<Action>, l: Log, disk: Disk, host: string)
    requires Run(s, disk, host) == Some(l) && |l.rows| <= 2
    ensures Run(s + Wait(), disk, host) == Some(l)
  {
    WaitIs(l, host);
    Then(s, Select({0, 1}), l, disk, host);
  }

  /** A positive reply to a domain, and what it then writes. */
  function Exchange(i: nat): seq<Action> {
    [Readable(i, "250")] + [Writable(i)]
  }

  /** The log when the domain has read the reply. */
  function Heard(l: Log, i: nat): Log
    requires i < |l.rows|
  {
    var o := HandleRead(View(l, i), EvOk);
    if o.Exit? then l else l.(rows := l.rows[i := l.rows[i].(client := o.client)])
  }

  predicate MayExchange(s: State) {
    s.Connect? || s.SendHelo? || s.SendMailFrom? || s.SendRcptTo? || s.SendData?
  }

  lemma Hears(l: Log, i: nat, host: string)
    requires i < |l.rows| && l.rows[i].client.reading && MayExchange(l.rows[i].client.state)
    ensures Act(l, Readable(i, "250"), host) == Some(Heard(l, i)) && |Heard(l, i).rows| == |l.rows|
    ensures Heard(l, i).rows[i].client.writing
  {
    OkReply();
  }

  lemma {:induction false} ThenExchange(s: seq<Action>, i: nat, l: Log, disk: Disk, host: string)
    requires Run(s, disk, host) == Some(l) && i < |l.rows| && l.rows[i].client.reading
    requires MayExchange(l.rows[i].client.state)
    ensures |Heard(l, i).rows| == |l.rows|
    ensures Run(s + Exchange(i), disk, host) == ActWritable(Heard(l, i), i, host)
  {
    Hears(l, i, host);
    Then(s, Readable(i, "250"), l, disk, host);
    Then(s + [Readable(i, "250")], Writable(i), Heard(l, i), disk, host);
    assert s + Exchange(i) == s + [Readable(i, "250")] + [Writable(i)];
  }

  /** A domain at a point of its session, its message written; nothing was taken
      off its queue so far. */
  predicate IsAt(l: Log, i: nat, state: State, pending: seq<string>, mail: Option<string>) {
    && i < |l.rows| && |l.names| == |l.rows|
    && var r := l.rows[i];
       && r.client.state == state && r.client.pending == pending && r.client.inFlight == mail
       && r.client.reading && !r.client.writing && r.removed == [] && r.sent == []
  }

  /** Nothing but one row has changed. */
  predicate OnlyRow(l: Log, l': Log, i: nat) {
    && |l'.rows| == |l.rows| && l'.names == l.names
    && forall j :: 0 <= j < |l.rows| && j != i ==> l'.rows[j] == l.rows[j]
  }

  lemma WriteHello(i: nat, l: Log, host: string, q: seq<string>) returns (l': Log)
    requires IsAt(l, i, Connect, q, None)
    ensures |Heard(l, i).rows| == |l.rows| && ActWritable(Heard(l, i), i, host) == Some(l')
    ensures IsAt(l', i, SendHelo, q, None)
    ensures OnlyRow(l, l', i) && l'.tokens == l.tokens && l'.disk == l.disk
  {
    Hears(l, i, host);
    l' := ActWritable(Heard(l, i), i, host).value;
  }

  lemma {:induction false} SayHello(s: seq<Action>, i: nat, l: Log, disk: Disk, host: string, q: seq<string>)
    returns (l': Log)
    requires Run(s, disk, host) == Some(l) && IsAt(l, i, Connect, q, None)
    ensures Run(s + Exchange(i), disk, host) == Some(l') && IsAt(l', i, SendHelo, q, None)
    ensures OnlyRow(l, l', i) && l'.tokens == l.tokens && l'.disk == l.disk
  {
    ThenExchange(s, i, l, disk, host);
    l' := WriteHello(i, l, host, q);
  }

  lemma WriteMail(i: nat, l: Log, host: string, path: string) returns (l': Log)
    requires IsAt(l, i, SendHelo, [path], None)
    requires path in l.disk.files && Tokens(l.disk.files[path], '\n') != []
    ensures |Heard(l, i).rows| == |l.rows| && ActWritable(Heard(l, i), i, host) == Some(l')
    ensures IsAt(l', i, SendMailFrom, [path], Some(path))
    ensures OnlyRow(l, l', i) && l'.disk == Take(l.disk, path)
    ensures var t := Tokens(l.disk.files[path], '\n');
            l'.tokens == t[1..] && l'.rows[i].draft == [MailFrom(t[0])]
  {
    Hears(l, i, host);
    l' := ActWritable(Heard(l, i), i, host).value;
  }

  lemma {:induction false} SayMail(s: seq<Action>, i: nat, l: Log, disk: Disk, host: string, path: string)
    returns (l': Log)
    requires Run(s, disk, host) == Some(l) && IsAt(l, i, SendHelo, [path], None)
    requires path in l.disk.files && Tokens(l.disk.files[path], '\n') != []
    ensures Run(s + Exchange(i), disk, host) == Some(l') && IsAt(l', i, SendMailFrom, [path], Some(path))
    ensures OnlyRow(l, l', i) && l'.disk == Take(l.disk, path)
    ensures var t := Tokens(l.disk.files[path], '\n');
            l'.tokens == t[1..] && l'.rows[i].draft == [MailFrom(t[0])]
  {
    ThenExchange(s, i, l, disk, host);
    l' := WriteMail(i, l, host, path);
  }

  lemma WriteRcpt(i: nat, l: Log, host: string, q: seq<string>, m: Option<string>)
    returns (l': Log)
    requires l.tokens != []
    requires IsAt(l, i, SendMailFrom, q, m)
    ensures |Heard(l, i).rows| == |l.rows| && ActWritable(Heard(l, i), i, host) == Some(l')
    ensures IsAt(l', i, SendRcptTo, q, m)
    ensures OnlyRow(l, l', i) && l'.tokens == l.tokens[1..] && l'.disk == l.disk
    ensures l'.rows[i].draft == l.rows[i].draft + [RcptTo(l.tokens[0])]
  {
    Hears(l, i, host);
    l' := ActWritable(Heard(l, i), i, host).value;
  }

  lemma {:induction false} SayRcpt(
      s: seq<Action>, i: nat, l: Log, disk: Disk, host: string, q: seq<string>, m: Option<string>)
    returns (l': Log)
    requires Run(s, disk, host) == Some(l) && l.tokens != []
    requires IsAt(l, i, SendMailFrom, q, m)
    ensures Run(s + Exchange(i), disk, host) == Some(l')
    ensures IsAt(l', i, SendRcptTo, q, m)
    ensures OnlyRow(l, l', i) && l'.tokens == l.tokens[1..] && l'.disk == l.disk
    ensures l'.rows[i].draft == l.rows[i].draft + [RcptTo(l.tokens[0])]
  {
    ThenExchange(s, i, l, disk, host);
    l' := WriteRcpt(i, l, host, q, m);
  }

  lemma WriteData(i: nat, l: Log, host: string, q: seq<string>, m: Option<string>)
    returns (l': Log)
    requires IsAt(l, i, SendRcptTo, q, m)
    ensures |Heard(l, i).rows| == |l.rows| && ActWritable(Heard(l, i), i, host) == Some(l')
    ensures IsAt(l', i, SendData, q, m)
    ensures OnlyRow(l, l', i) && l'.disk == l.disk && l'.tokens == l.tokens
    ensures l'.rows[i].draft == l.rows[i].draft + [DataLine]
  {
    Hears(l, i, host);
    l' := ActWritable(Heard(l, i), i, host).value;
  }

  lemma {:induction false} SayData(
      s: seq<Action>, i: nat, l: Log, disk: Disk, host: string, q: seq<string>, m: Option<string>)
    returns (l': Log)
    requires Run(s, disk, host) == Some(l)
    requires IsAt(l, i, SendRcptTo, q, m)
    ensures Run(s + Exchange(i), disk, host) == Some(l')
    ensures IsAt(l', i, SendData, q, m)
    ensures OnlyRow(l, l', i) && l'.disk == l.disk && l'.tokens == l.tokens
    ensures l'.rows[i].draft == l.rows[i].draft + [DataLine]
  {
    ThenExchange(s, i, l, disk, host);
    l' := WriteData(i, l, host, q, m);
  }

  lemma WriteBody(i: nat, l: Log, host: string, q: seq<string>, m: Option<string>)
    returns (l': Log)
    requires IsAt(l, i, SendData, q, m)
    ensures |Heard(l, i).rows| == |l.rows| && ActWritable(Heard(l, i), i, host) == Some(l')
    ensures IsAt(l', i, SendBody, q, m)
    ensures OnlyRow(l, l', i) && l'.disk == l.disk && l'.tokens == []
    ensures l'.rows[i].draft == l.rows[i].draft + [Body(l.tokens)]
  {
    Hears(l, i, host);
    l' := ActWritable(Heard(l, i), i, host).value;
  }

  lemma {:induction false} SayBody(
      s: seq<Action>, i: nat, l: Log, disk: Disk, host: string, q: seq<string>, m: Option<string>)
    returns (l': Log)
    requires Run(s, disk, host) == Some(l)
    requires IsAt(l, i, SendData, q, m)
    ensures Run(s + Exchange(i), disk, host) == Some(l')
    ensures IsAt(l', i, SendBody, q, m)
    ensures OnlyRow(l, l', i) && l'.disk == l.disk && l'.tokens == []
    ensures l'.rows[i].draft == l.rows[i].draft + [Body(l.tokens)]
  {
    ThenExchange(s, i, l, disk, host);
    l' := WriteBody(i, l, host, q, m);
  }

  /** The first mail of a new domain. */
  lemma EntersNew(l: Log, path: string, name: string) returns (l': Log)
    requires |l.names| == |l.rows| && name !in l.names && MailName.KeyOf(path) == Some(name)
    ensures ActArrive(l, path, true) == Some(l') && IsAt(l', |l.rows|, Connect, [path], None)
    ensures l'.names == l.names + [name] && |l'.rows| == |l.rows| + 1 && l'.tokens == [] && l'.disk == l.disk
    ensures forall j :: 0 <= j < |l.rows| ==> l'.rows[j] == l.rows[j]
  {
    assert PlaceOf(l, name) == |l.rows|;
    assert [path] + [] == [path];
    l' := Registered(Enter(l, name), |l.rows|, path, true).value;
  }

  lemma {:induction false} Opens(s: seq<Action>, l: Log, disk: Disk, host: string, path: string, name: string)
    returns (l': Log)
    requires Run(s, disk, host) == Some(l) && |l.names| == |l.rows| && name !in l.names
    requires MailName.KeyOf(path) == Some(name)
    ensures Run(s + [Arrive(path, true)], disk, host) == Some(l') && IsAt(l', |l.rows|, Connect, [path], None)
    ensures l'.names == l.names + [name] && |l'.rows| == |l.rows| + 1 && l'.tokens == [] && l'.disk == l.disk
    ensures forall j :: 0 <= j < |l.rows| ==> l'.rows[j] == l.rows[j]
  {
    Then(s, Arrive(path, true), l, disk, host);
    l' := EntersNew(l, path, name);
  }

  lemma {:induction false} OpensFirst(disk: Disk, host: string, path: string, name: string) returns (l: Log)
    requires MailName.KeyOf(path) == Some(name)
    ensures Run([Arrive(path, true)], disk, host) == Some(l) && IsAt(l, 0, Connect, [path], None)
    ensures l.names == [name] && |l.rows| == 1 && l.tokens == [] && l.disk == disk
  {
    assert [] + [Arrive(path, true)] == [Arrive(path, true)] && [] + [name] == [name];
    l := Opens([], Start(disk), disk, host, path, name);
  }

  // A mail that arrives while another is under way.

  /** A turn of the worker's loop in which no mail comes and domain 0 is served. */
  function Turn(): seq<Action> {
    Wait() + Exchange(0)
  }

  /** The whole transaction of the mail a, one turn for each message. */
  function Transaction(a: string): seq<Action> {
    [Arrive(a, true)] + Turn() + Turn() + Turn() + Turn() + Turn()
  }

  /** Then the turn in which the mail b comes, up to the reply. */
  function Interrupted(a: string, b: string): seq<Action> {
    Transaction(a) + [Arrive(b, true)] + Wait() + [Readable(0, "250")]
  }

  lemma ArrivesBehind(s: seq<Action>, l: Log, disk: Disk, host: string, a: string, b: string, name: string)
    returns (l': Log)
    requires Run(s, disk, host) == Some(l) && IsAt(l, 0, SendBody, [a], Some(a)) && l.names == [name]
    requires MailName.KeyOf(b) == Some(name) && |l.rows| == 1
    ensures Run(s + [Arrive(b, true)], disk, host) == Some(l') && IsAt(l', 0, SendBody, [b, a], Some(a))
    ensures |l'.rows| == 1
    ensures l'.disk == l.disk && l'.tokens == [] && l'.names == l.names
  {
    Then(s, Arrive(b, true), l, disk, host);
    assert PlaceOf(l, name) == 0;
    assert [b] + [a] == [b, a];
    l' := Registered(l, 0, b, true).value;
  }

  lemma TakesOff(l: Log, a: string, b: string)
    requires IsAt(l, 0, SendBody, [b, a], Some(a))
    ensures var o := ActReadable(l, 0, "250");
            && o.Some? && 0 < |o.value.rows| && o.value.tokens == l.tokens && o.value.disk == l.disk
            && var r := o.value.rows[0];
               && r.removed == [b] && |r.sent| == 1 && r.sent[0].mail == a
               && r.client.pending == [a] && r.client.state.SendMailFrom? && r.client.writing
  {
    OkReply();
    assert [b, a][1..] == [a];
  }

  lemma Replied(s: seq<Action>, l: Log, disk: Disk, host: string, a: string, b: string) returns (l': Log)
    requires Run(s, disk, host) == Some(l) && IsAt(l, 0, SendBody, [b, a], Some(a)) && l.tokens == []
    ensures Run(s + [Readable(0, "250")], disk, host) == Some(l') && 0 < |l'.rows|
    ensures var r := l'.rows[0];
            && r.removed == [b] && |r.sent| == 1 && r.sent[0].mail == a
            && r.client.pending == [a] && r.client.state.SendMailFrom? && r.client.writing
    ensures l'.tokens == [] && l'.disk == l.disk
  {
    Then(s, Readable(0, "250"), l, disk, host);
    TakesOff(l, a, b);
    l' := ActReadable(l, 0, "250").value;
  }

  lemma {:induction false} ThenTurn(s: seq<Action>, l: Log, disk: Disk, host: string) returns (t: seq<Action>)
    requires Run(s, disk, host) == Some(l) && |l.rows| <= 2
    ensures t == s + Wait() && Run(t, disk, host) == Some(l) && t + Exchange(0) == s + Turn()
  {
    ThenWait(s, l, disk, host);
    t := s + Wait();
  }

  /** A first mail up to its body. */
  lemma {:induction false} SendsWhole(a: string, name: string, disk: Disk, host: string) returns (l: Log)
    requires MailName.KeyOf(a) == Some(name) && IsMail(disk, a)
    ensures Run(Transaction(a), disk, host) == Some(l) && |l.rows| == 1
    ensures IsAt(l, 0, SendBody, [a], Some(a)) && l.names == [name] && l.disk == Take(disk, a)
  {
    l := OpensFirst(disk, host, a, name);
    var s := [Arrive(a, true)];
    var t := ThenTurn(s, l, disk, host);
    l := SayHello(t, 0, l, disk, host, [a]);
    s := s + Turn();
    t := ThenTurn(s, l, disk, host);
    l := SayMail(t, 0, l, disk, host, a);
    s := s + Turn();
    t := ThenTurn(s, l, disk, host);
    l := SayRcpt(t, 0, l, disk, host, [a], Some(a));
    s := s + Turn();
    t := ThenTurn(s, l, disk, host);
    l := SayData(t, 0, l, disk, host, [a], Some(a));
    s := s + Turn();
    t := ThenTurn(s, l, disk, host);
    l := SayBody(t, 0, l, disk, host, [a], Some(a));
  }

  /** The mail b arrives when the body of a has been written: it is taken off
      unsent in the place of a, and a, whose file is no longer there, ends the
      process at its next MAIL. */
  lemma {:induction false} ArrivalInFlightIsLost(a: string, b: string, name: string, disk: Disk, host: string)
    requires MailName.KeyOf(a) == Some(name) && MailName.KeyOf(b) == Some(name)
    requires IsMail(disk, a) && MovesAway(disk, a)
    ensures var o := Run(Interrupted(a, b), disk, host);
            && o.Some? && 0 < |o.value.rows|
            && var r := o.value.rows[0];
               r.removed == [b] && |r.sent| == 1 && r.sent[0].mail == a && r.client.pending == [a]
    ensures Run(Interrupted(a, b) + [Writable(0)], disk, host) == None
  {
    var l := SendsWhole(a, name, disk, host);
    TakenIsGone(disk, a);
    var l' := ArrivesBehind(Transaction(a), l, disk, host, a, b, name);
    var s := Transaction(a) + [Arrive(b, true)];
    ThenWait(s, l', disk, host);
    var l'' := Replied(s + Wait(), l', disk, host, a, b);
    Crashes(Interrupted(a, b), l'', disk, host, a);
  }

  lemma TakenIsGone(disk: Disk, a: string)
    requires MovesAway(disk, a)
    ensures a !in Take(disk, a).files
  {
  }

  lemma {:induction false} Crashes(s: seq<Action>, l: Log, disk: Disk, host: string, a: string)
    requires Run(s, disk, host) == Some(l) && 0 < |l.rows| && l.tokens == [] && a !in l.disk.files
    requires var c := l.rows[0].client; c.state.SendMailFrom? && c.writing && c.pending == [a]
    ensures Run(s + [Writable(0)], disk, host) == None
  {
    Then(s, Writable(0), l, disk, host);
  }

  // Two domains at once.

  /** Five turns of the worker's loop, in which every socket is ready: the mail a
      comes in the first, the mail b of another domain in the second. */
  function Interleaved(a: string, b: string): seq<Action> {
    Greeting(a, b) + Both() + Both() + Turn()
  }

  /** A turn in which no mail comes and both domains are served. */
  function Both(): seq<Action> {
    Turn() + Exchange(1)
  }

  function Greeting(a: string, b: string): seq<Action> {
    [Arrive(a, true)] + Turn() + [Arrive(b, true)] + Both()
  }

  lemma {:induction false} ThenBoth(s: seq<Action>, l: Log, disk: Disk, host: string) returns (t: seq<Action>)
    requires Run(s, disk, host) == Some(l) && |l.rows| <= 2
    ensures t == s + Wait() && Run(t, disk, host) == Some(l) && t + Exchange(0) + Exchange(1) == s + Both()
  {
    t := ThenTurn(s, l, disk, host);
    assert s + Turn() + Exchange(1) == s + Both();
  }

  /** The first two turns: MAIL for a, and HELO to the other server. */
  lemma {:induction false} BothGreet(a: string, b: string, x: string, y: string, disk: Disk, host: string)
    returns (l: Log)
    requires MailName.KeyOf(a) == Some(x) && MailName.KeyOf(b) == Some(y) && x != y && IsMail(disk, a)
    ensures Run(Greeting(a, b), disk, host) == Some(l) && |l.rows| == 2 && l.disk == Take(disk, a)
    ensures IsAt(l, 0, SendMailFrom, [a], Some(a)) && IsAt(l, 1, SendHelo, [b], None)
    ensures var t := Tokens(disk.files[a], '\n'); l.tokens == t[1..] && l.rows[0].draft == [MailFrom(t[0])]
  {
    var s := [Arrive(a, true)];
    var l0 := OpensFirst(disk, host, a, x);
    var t := ThenTurn(s, l0, disk, host);
    var l1 := SayHello(t, 0, l0, disk, host, [a]);
    s := s + Turn();
    var l2 := Opens(s, l1, disk, host, b, y);
    assert l2.rows[0] == l1.rows[0];
    s := s + [Arrive(b, true)];
    t := ThenBoth(s, l2, disk, host);
    var l3 := SayMail(t, 0, l2, disk, host, a);
    l := SayHello(t + Exchange(0), 1, l3, disk, host, [b]);
  }

  /** The next two: RCPT and DATA for a, and between and behind them MAIL and RCPT
      for b, which take the cursor to the text of b. */
  lemma {:induction false} BothCarry(a: string, b: string, s: seq<Action>, l: Log, disk: Disk, host: string)
    returns (l': Log)
    requires Run(s, disk, host) == Some(l) && |l.rows| == 2 && l.tokens != [] && IsMail(l.disk, b)
    requires IsAt(l, 0, SendMailFrom, [a], Some(a)) && IsAt(l, 1, SendHelo, [b], None)
    ensures Run(s + Both() + Both(), disk, host) == Some(l') && |l'.rows| == 2
    ensures IsAt(l', 0, SendData, [a], Some(a)) && l'.tokens == Tokens(l.disk.files[b], '\n')[1..][1..]
    ensures l'.rows[0].draft == l.rows[0].draft + [RcptTo(l.tokens[0])] + [DataLine]
  {
    var t := ThenBoth(s, l, disk, host);
    var l1 := SayRcpt(t, 0, l, disk, host, [a], Some(a));
    var l2 := SayMail(t + Exchange(0), 1, l1, disk, host, b);
    t := ThenBoth(s + Both(), l2, disk, host);
    var l3 := SayData(t, 0, l2, disk, host, [a], Some(a));
    l' := SayRcpt(t + Exchange(0), 1, l3, disk, host, [b], Some(b));
  }

  /** The recipient of the mail a is then sent the body of the mail b. */
  lemma {:induction false} SharedCursorMixesMails(
      a: string, b: string, x: string, y: string, disk: Disk, host: string)
    requires MailName.KeyOf(a) == Some(x) && MailName.KeyOf(b) == Some(y) && x != y
    requires IsMail(disk, a) && IsMail(disk, b) && a != b && Renamed(a) != b
    ensures var o := Run(Interleaved(a, b), disk, host);
            var t, u := Tokens(disk.files[a], '\n'), Tokens(disk.files[b], '\n');
            && o.Some? && |o.value.rows| == 2 && o.value.rows[0].client.inFlight == Some(a)
            && o.value.rows[0].draft == [MailFrom(t[0]), RcptTo(t[1]), DataLine, Body(u[2..])]
  {
    var l := BothGreet(a, b, x, y, disk, host);
    OtherStays(disk, a, b);
    var l' := BothCarry(a, b, Greeting(a, b), l, disk, host);
    var u := Tokens(disk.files[b], '\n');
    assert u[1..][1..] == u[2..];
    var s := ThenTurn(Greeting(a, b) + Both() + Both(), l', disk, host);
    var l'' := SayBody(s, 0, l', disk, host, [a], Some(a));
  }

  lemma OtherStays(disk: Disk, a: string, b: string)
    requires b in disk.files && a != b && Renamed(a) != b
    ensures b in Take(disk, a).files && Take(disk, a).files[b] == disk.files[b]
  {
  }
}
