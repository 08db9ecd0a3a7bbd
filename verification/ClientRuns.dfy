/** Whole runs of a worker process: a row of mail domains that share the cursor
    of strtok and the files. No mail is lost or taken twice in a queue, whatever
    arrives, whatever the servers reply and in whatever order sockets are
    served. */
module ClientRuns {
  import opened Text
  import opened Commands
  import opened ClientFsm
  import opened Client
  import opened Disks
  import MailName

  /** One thing the worker does: take a new mail from the message queue, wait for
      sockets, which leaves only those of the ready domains in the sets, serve the
      socket of a domain in the read set, serve it in the write set. */
  datatype Action =
    | Arrive(path: string, connects: bool)
    | Select(ready: set<nat>)
    | Readable(i: nat, response: string)
    | Writable(i: nat)

  /** Who moved the cursor of strtok. */
  datatype User = Registration | Domain(i: nat)

  /** A mail taken off a queue: the mail read at MAIL, its lines, what was written
      for it, and whether nobody else used the cursor from its MAIL to its body. */
  datatype Sent = Sent(mail: string, text: seq<string>, said: seq<Message>, alone: bool)

  /** A domain with its log: mails queued, mails taken off and what was sent for
      each, the arrivals since its last MAIL; and of that MAIL the number among
      the uses of the cursor, whether it found its file, the lines of the file,
      what was written since, and whether the cursor was used by no one else. */
  datatype Row = Row(
    client: Client, queued: multiset<string>, removed: seq<string>, sent: seq<Sent>, since: seq<string>,
    start: nat, found: bool, text: seq<string>, draft: seq<Message>, alone: bool)

  /** A process with its log: the mails that MAIL was sent for and the uses of the
      cursor so far, and where the cursor is: the use that set it on its text, the
      text as tokens, and the number of tokens it has passed. */
  datatype Log = Log(
    names: seq<string>, rows: seq<Row>, tokens: seq<string>, disk: Disk, taken: seq<string>,
    uses: seq<User>, source: nat, text: seq<string>, place: nat)

  function Start(disk: Disk): Log {
    Log([], [], [], disk, [], [], 0, [], 0)
  }

  /** A domain as its handlers find it. */
  function View(l: Log, i: nat): Client
    requires i < |l.rows|
  {
    l.rows[i].client.(tokens := l.tokens, disk := l.disk)
  }

  /** Nobody but the domain has used the cursor since its last MAIL. */
  predicate IsAlone(l: Log, i: nat)
    requires i < |l.rows|
  {
    forall k :: l.rows[i].start <= k < |l.uses| ==> l.uses[k] == Domain(i)
  }

  function NewRow(l: Log): Row {
    Row(Fresh(l.tokens, l.disk), multiset{}, [], [], [], 0, false, [], [], false)
  }

  /** The place of a domain, which a new one gets at the end. */
  function PlaceOf(l: Log, name: string): nat {
    var i := FindLast(l.names, name);
    if i.Some? && i.value < |l.rows| then i.value else |l.rows|
  }

  function Enter(l: Log, name: string): (l': Log)
    ensures PlaceOf(l, name) < |l'.rows|
  {
    if PlaceOf(l, name) < |l.rows| then l else l.(names := l.names + [name], rows := l.rows + [NewRow(l)])
  }

  /** A new mail is taken to the domain in its name. */
  ghost function ActArrive(l: Log, path: string, connects: bool): Option<Log> {
    var name := MailName.KeyOf(path);
    if name.None? then None else Registered(Enter(l, name.value), PlaceOf(l, name.value), path, connects)
  }

  /** Splitting the path has used up the cursor. */
  function Registered(l: Log, i: nat, path: string, connects: bool): Option<Log>
    requires i < |l.rows|
  {
    var o := Register(View(l, i), path, connects);
    if o.Exit? then None
    else
      var r := l.rows[i];
      var r' := if o.value then r.(client := o.client, queued := r.queued + multiset{path}, since := r.since + [path])
                else r.(client := o.client);
      Some(l.(rows := l.rows[i := r'], tokens := o.client.tokens,
              uses := l.uses + [Registration], source := |l.uses|, text := [], place := 0))
  }

  function ActReadable(l: Log, i: nat, response: string): Option<Log>
    requires i < |l.rows|
  {
    var r := l.rows[i];
    var o := HandleRead(View(l, i), CheckServerCode(response));
    if o.Exit? then None
    else
      var r' := if o.value.None? then r.(client := o.client)
                else r.(client := o.client, removed := r.removed + [o.value.value], sent := r.sent + [SentOf(r)]);
      Some(l.(rows := l.rows[i := r']))
  }

  function SentOf(r: Row): Sent {
    Sent(if r.client.inFlight.Some? then r.client.inFlight.value else "", r.text, r.draft, r.alone)
  }

  function ActWritable(l: Log, i: nat, host: string): Option<Log>
    requires i < |l.rows|
  {
    var o := HandleWrite(View(l, i), host);
    if o.Exit? then None else Some(Wrote(l, i, o.client, if o.value.Some? then [o.value.value] else []))
  }

  /** The log once a domain has written. */
  function Wrote(l: Log, i: nat, c: Client, said: seq<Message>): Log
    requires i < |l.rows|
  {
    var r := l.rows[i].(client := c, draft := l.rows[i].draft + said);
    var mine := l.(tokens := c.tokens, disk := c.disk, uses := l.uses + [Domain(i)]);
    match l.rows[i].client.state
    case SendMailFrom =>
      var path := if l.rows[i].client.pending == [] then "" else l.rows[i].client.pending[0];
      var found := path in l.disk.files;
      var text := if found then Tokens(l.disk.files[path], '\n') else [];
      mine.(rows := l.rows[i := r.(since := [], start := |l.uses|, found := found, text := text,
                                   draft := said, alone := found)],
            taken := l.taken + [path],
            source := if found then |l.uses| else l.source,
            text := if found then text else l.text, place := if found then 1 else l.place + 1)
    case SendRcptTo =>
      mine.(rows := l.rows[i := r.(alone := r.alone && IsAlone(l, i))], place := l.place + 1)
    case SendBody =>
      mine.(rows := l.rows[i := r.(alone := r.alone && IsAlone(l, i))], place := |l.text| + 1)
    case _ => l.(rows := l.rows[i := r])
  }

  /** A domain that is not ready leaves both sets. */
  function Polled(r: Row, ready: bool): Row {
    r.(client := r.client.(reading := r.client.reading && ready, writing := r.client.writing && ready))
  }

  function ActSelect(l: Log, ready: set<nat>): (l': Log)
    ensures l' == l.(rows := l'.rows) && |l'.rows| == |l.rows|
    ensures forall i :: 0 <= i < |l.rows| ==> l'.rows[i] == Polled(l.rows[i], i in ready)
  {
    l.(rows := seq(|l.rows|, i requires 0 <= i < |l.rows| => Polled(l.rows[i], i in ready)))
  }

  /** Waiting changes nothing when every domain is ready. */
  lemma SelectAllReady(l: Log, ready: set<nat>)
    requires forall i: nat :: i < |l.rows| ==> i in ready
    ensures ActSelect(l, ready) == l
  {
    assert forall i :: 0 <= i < |l.rows| ==> ActSelect(l, ready).rows[i] == l.rows[i];
    assert ActSelect(l, ready).rows == l.rows;
  }

  /** One action; None when the process exits. Sockets are served only when they
      are in the set. */
  ghost function Act(l: Log, a: Action, host: string): Option<Log> {
    match a
    case Arrive(path, connects) => ActArrive(l, path, connects)
    case Select(ready) => Some(ActSelect(l, ready))
    case Readable(i, response) =>
      if i < |l.rows| && l.rows[i].client.reading then ActReadable(l, i, response) else Some(l)
    case Writable(i) =>
      if i < |l.rows| && l.rows[i].client.writing then ActWritable(l, i, host) else Some(l)
  }

  ghost function Run(actions: seq<Action>, disk: Disk, host: string): Option<Log> {
    if actions == [] then Some(Start(disk))
    else
      var l := Run(actions[..|actions| - 1], disk, host);
      if l.None? then None else Act(l.value, actions[|actions| - 1], host)
  }

  // What every domain of every reachable log satisfies.

  /** A mail has been read and not yet acknowledged. */
  predicate Carrying(c: Client) {
    c.inFlight.Some?
  }

  function Reverse(s: seq<string>): (r: seq<string>)
    ensures |r| == |s|
    ensures s != [] ==> r[0] == s[|s| - 1]
  {
    if s == [] then [] else [s[|s| - 1]] + Reverse(s[..|s| - 1])
  }

  predicate InSession(s: State) {
    s.Connect? || s.SendHelo? || s.SendMailFrom? || s.SendRcptTo? || s.SendData? || s.SendBody? || s.SendQuit?
  }

  /** The socket is in one of the sets. */
  predicate IsWaiting(c: Client) {
    c.reading || c.writing
  }

  /** The queue is empty only outside a session, and then no socket waits; in a
      session the socket does not wait both to be read and to be written. */
  predicate Busy(c: Client) {
    && !c.state.Invalid?
    && (c.pending == [] ==> c.state.Init? || c.state.SendQuit? || c.state.Done?)
    && (c.pending == [] && c.state.Init? ==> !c.reading && !c.writing)
    && (InSession(c.state) ==> !(c.reading && c.writing))
  }

  /** No mail is lost and none invented. */
  predicate Conserved(r: Row) {
    && r.queued == multiset(r.removed) + multiset(r.client.pending)
    && |r.removed| == |r.sent|
  }

  /** The mail under way lies right behind what arrived since it was read. */
  predicate Tracked(r: Row) {
    var c := r.client;
    && (c.state.SendRcptTo? || c.state.SendData? || c.state.SendBody? ==> Carrying(c))
    && (c.state.SendMailFrom? ==> (c.reading ==> Carrying(c)) && (c.writing ==> !Carrying(c)))
    && (Carrying(c) ==>
          (c.state.SendMailFrom? || c.state.SendRcptTo? || c.state.SendData? || c.state.SendBody?) &&
          Reverse(r.since) + [c.inFlight.value] <= c.pending)
  }

  predicate Sound(r: Row) {
    Busy(r.client) && Conserved(r) && Tracked(r)
  }

  predicate AllSound(l: Log) {
    |l.rows| == |l.names| && forall i :: 0 <= i < |l.rows| ==> Sound(l.rows[i])
  }

  lemma Replies(response: string)
    ensures CheckServerCode(response) in [EvOk, EvError, EvCommandNotImplemented]
  {
  }

  lemma ReadBusy(c: Client, event: Event)
    requires Busy(c) && c.reading && event in [EvOk, EvError, EvCommandNotImplemented]
    requires HandleRead(c, event).Live?
    ensures Busy(HandleRead(c, event).client)
  {
  }

  lemma RegisterBusy(c: Client, path: string, connects: bool)
    requires Busy(c) && Register(c, path, connects).Live?
    ensures Busy(Register(c, path, connects).client)
  {
  }

  lemma WriteBusy(c: Client, host: string)
    requires Busy(c) && c.writing && HandleWrite(c, host).Live?
    ensures Busy(HandleWrite(c, host).client)
  {
  }

  /** What a visit to the read set does to the queue. */
  lemma ReadQueue(c: Client, event: Event)
    requires HandleRead(c, event).Live?
    ensures var o := HandleRead(c, event);
            if o.value.Some? then
              c.state.SendBody? && event != EvError && c.pending == [o.value.value] + o.client.pending
            else o.client.pending == c.pending && !(c.state.SendBody? && event != EvError)
  {
  }

  lemma ReadTracked(r: Row, c: Client, event: Event)
    requires Busy(c) && Tracked(r.(client := c)) && c.reading
    requires event in [EvOk, EvError, EvCommandNotImplemented] && HandleRead(c, event).Live?
    ensures Tracked(r.(client := HandleRead(c, event).client))
  {
  }

  lemma ReadConserved(r: Row, mail: string, sent: Sent, c: Client)
    requires Conserved(r) && r.client.pending == [mail] + c.pending
    ensures Conserved(r.(client := c, removed := r.removed + [mail], sent := r.sent + [sent]))
  {
    assert multiset(r.client.pending) == multiset{mail} + multiset(c.pending);
    assert multiset(r.removed + [mail]) == multiset(r.removed) + multiset{mail};
  }

  lemma ReadableSound(l: Log, i: nat, response: string)
    requires AllSound(l) && i < |l.rows| && l.rows[i].client.reading && ActReadable(l, i, response).Some?
    ensures Sound(ActReadable(l, i, response).value.rows[i])
  {
    var r, c, event := l.rows[i], View(l, i), CheckServerCode(response);
    Replies(response);
    ReadBusy(c, event);
    ReadQueue(c, event);
    ReadTracked(r, c, event);
    var o := HandleRead(c, event);
    if o.value.Some? { ReadConserved(r, o.value.value, SentOf(r), o.client); }
  }

  lemma RegisterQueue(c: Client, path: string, connects: bool)
    requires Register(c, path, connects).Live?
    ensures var o := Register(c, path, connects);
            && o.client.pending == (if o.value then [path] + c.pending else c.pending)
            && o.client.inFlight == c.inFlight && o.client.tokens == [] && o.client.disk == c.disk
            && (InSession(c.state) && c.pending != [] ==>
                  o.value && o.client.state == c.state &&
                  o.client.reading == c.reading && o.client.writing == c.writing)
  {
  }

  lemma ArriveConserved(r: Row, path: string, c: Client)
    requires Conserved(r) && c.pending == [path] + r.client.pending
    ensures Conserved(r.(client := c, queued := r.queued + multiset{path}, since := r.since + [path]))
  {
    assert multiset(c.pending) == multiset{path} + multiset(r.client.pending);
  }

  lemma StartsGrows(pending: seq<string>, since: seq<string>, mail: string, path: string)
    requires Reverse(since) + [mail] <= pending
    ensures Reverse(since + [path]) + [mail] <= [path] + pending
  {
    assert (since + [path])[..|since|] == since;
    assert Reverse(since + [path]) + [mail] == [path] + (Reverse(since) + [mail]);
  }

  lemma ArriveTracked(r: Row, path: string, connects: bool)
    requires Busy(r.client) && Tracked(r) && Register(r.client, path, connects).Live?
    ensures var o := Register(r.client, path, connects);
            Tracked(r.(client := o.client, since := if o.value then r.since + [path] else r.since))
  {
    if Carrying(r.client) {
      StartsGrows(r.client.pending, r.since, r.client.inFlight.value, path);
    }
  }

  lemma RegisteredSound(l: Log, i: nat, path: string, connects: bool)
    requires i < |l.rows| && Sound(l.rows[i]) && Registered(l, i, path, connects).Some?
    ensures Sound(Registered(l, i, path, connects).value.rows[i])
  {
    var c := View(l, i);
    var r := l.rows[i].(client := c);
    RegisterBusy(c, path, connects);
    RegisterQueue(c, path, connects);
    ArriveTracked(r, path, connects);
    var o := Register(c, path, connects);
    if o.value { ArriveConserved(r, path, o.client); }
  }

  lemma WriteTracked(r: Row, c: Client, host: string)
    requires Busy(c) && Tracked(r.(client := c)) && c.writing && HandleWrite(c, host).Live?
    ensures Tracked(r.(client := HandleWrite(c, host).client, since := if c.state.SendMailFrom? then [] else r.since))
    ensures HandleWrite(c, host).client.pending == c.pending && HandleWrite(c, host).client.state == c.state
  {
    assert Reverse([]) == [];
  }

  lemma WritableSound(l: Log, i: nat, host: string)
    requires AllSound(l) && i < |l.rows| && l.rows[i].client.writing && ActWritable(l, i, host).Some?
    ensures Sound(ActWritable(l, i, host).value.rows[i])
  {
    WriteBusy(View(l, i), host);
    WriteTracked(l.rows[i], View(l, i), host);
  }

  lemma NewRowSound(l: Log)
    ensures Sound(NewRow(l))
  {
  }

  lemma EnterSound(l: Log, name: string)
    requires AllSound(l)
    ensures AllSound(Enter(l, name))
  {
    NewRowSound(l);
  }

  /** A step that changes one row only. */
  lemma OneRowSound(l: Log, l': Log, i: nat)
    requires AllSound(l) && i < |l.rows| && l'.names == l.names
    requires |l'.rows| == |l.rows| && l'.rows == l.rows[i := l'.rows[i]] && Sound(l'.rows[i])
    ensures AllSound(l')
  {
  }

  lemma PolledSound(r: Row, ready: bool)
    requires Sound(r)
    ensures Sound(Polled(r, ready))
  {
  }

  lemma SelectSound(l: Log, ready: set<nat>)
    requires AllSound(l)
    ensures AllSound(ActSelect(l, ready))
  {
    forall i | 0 <= i < |l.rows| ensures Sound(Polled(l.rows[i], i in ready)) {
      PolledSound(l.rows[i], i in ready);
    }
  }

  lemma ActSound(l: Log, a: Action, host: string)
    requires AllSound(l) && Act(l, a, host).Some?
    ensures AllSound(Act(l, a, host).value)
  {
    var l' := Act(l, a, host).value;
    match a
    case Arrive(path, connects) =>
      var name := MailName.KeyOf(path).value;
      var i := PlaceOf(l, name);
      EnterSound(l, name);
      RegisteredSound(Enter(l, name), i, path, connects);
      OneRowSound(Enter(l, name), l', i);
    case Select(ready) => SelectSound(l, ready);
    case Readable(i, response) =>
      if i < |l.rows| && l.rows[i].client.reading {
        ReadableSound(l, i, response);
        OneRowSound(l, l', i);
      }
    case Writable(i) =>
      if i < |l.rows| && l.rows[i].client.writing {
        WritableSound(l, i, host);
        OneRowSound(l, l', i);
      }
  }

  lemma {:induction false} RunSound(actions: seq<Action>, disk: Disk, host: string)
    requires Run(actions, disk, host).Some?
    ensures AllSound(Run(actions, disk, host).value)
  {
    if actions == [] {
    } else {
      var before := actions[..|actions| - 1];
      RunSound(before, disk, host);
      ActSound(Run(before, disk, host).value, actions[|actions| - 1], host);
    }
  }

  lemma RunStep(actions: seq<Action>, a: Action, disk: Disk, host: string)
    requires Run(actions + [a], disk, host).Some?
    ensures Run(actions, disk, host).Some?
    ensures Run(actions + [a], disk, host) == Act(Run(actions, disk, host).value, a, host)
  {
    assert (actions + [a])[..|actions|] == actions;
  }

  /** Queue conservation, in every run and for every domain: the mails queued are
      those taken off and those still waiting, and the sentinel is never taken
      off. */
  lemma {:induction false} QueueConserved(actions: seq<Action>, disk: Disk, host: string, i: nat)
    requires Run(actions, disk, host).Some? && i < |Run(actions, disk, host).value.rows|
    ensures var r := Run(actions, disk, host).value.rows[i];
            && r.queued == multiset(r.removed) + multiset(r.client.pending)
            && (r.client.state.SendBody? ==> r.client.pending != [])
  {
    RunSound(actions, disk, host);
  }

  lemma ReplyExits(c: Client, event: Event)
    requires Busy(c) && event in [EvOk, EvError, EvCommandNotImplemented]
    ensures HandleRead(c, event).Exit? <==>
              event == EvCommandNotImplemented && !c.state.Done? && !(c.state.SendBody? && |c.pending| > 1)
  {
  }

  /** In every run, a reply ends the process exactly when it says that the command
      is not implemented, outside DONE and not behind a body with more mails
      waiting. */
  lemma {:induction false} ReplyFatalIff(actions: seq<Action>, response: string, disk: Disk, host: string, i: nat)
    requires Run(actions, disk, host).Some? && i < |Run(actions, disk, host).value.rows|
    requires Run(actions, disk, host).value.rows[i].client.reading
    ensures var c := Run(actions, disk, host).value.rows[i].client;
            Run(actions + [Readable(i, response)], disk, host) == None <==>
              CheckServerCode(response) == EvCommandNotImplemented &&
              !c.state.Done? && !(c.state.SendBody? && |c.pending| > 1)
  {
    RunSound(actions, disk, host);
    Replies(response);
    assert (actions + [Readable(i, response)])[..|actions|] == actions;
    ReplyExits(View(Run(actions, disk, host).value, i), CheckServerCode(response));
  }

  /** A mail leaves the queue exactly on a reply other than an error to a body,
      and it is the mail whose body that was exactly when nothing else was
      queued in front of it since it was read. */
  lemma {:induction false} RemovedIsSentIff(
      actions: seq<Action>, i: nat, response: string, disk: Disk, host: string)
    requires Run(actions + [Readable(i, response)], disk, host).Some?
    requires Run(actions, disk, host).Some? && i < |Run(actions, disk, host).value.rows|
    ensures i < |Run(actions + [Readable(i, response)], disk, host).value.rows|
    ensures var r := Run(actions, disk, host).value.rows[i];
            var r' := Run(actions + [Readable(i, response)], disk, host).value.rows[i];
            if r.client.reading && r.client.state.SendBody? && CheckServerCode(response) != EvError then
              r.client.inFlight.Some? && r.client.pending != [] &&
              r'.removed == r.removed + [r.client.pending[0]] &&
              r'.sent == r.sent + [Sent(r.client.inFlight.value, r.text, r.draft, r.alone)] &&
              (r.client.pending[0] == r.client.inFlight.value <==>
                 r.since == [] || r.since[|r.since| - 1] == r.client.inFlight.value)
            else r'.removed == r.removed && r'.sent == r.sent
  {
    RunStep(actions, Readable(i, response), disk, host);
    RunSound(actions, disk, host);
    var l := Run(actions, disk, host).value;
    var c := l.rows[i].client;
    if c.reading { ReadQueue(View(l, i), CheckServerCode(response)); }
    if Carrying(c) { FrontOf(l.rows[i]); }
  }

  lemma FrontOf(r: Row)
    requires Tracked(r) && Carrying(r.client)
    ensures r.client.pending != []
    ensures r.client.pending[0] == if r.since == [] then r.client.inFlight.value else r.since[|r.since| - 1]
  {
    var front := Reverse(r.since) + [r.client.inFlight.value];
    assert r.client.pending[0] == r.client.pending[..|front|][0] == front[0];
  }

  /** No mail arrives for a domain while another of its mails is under way. */
  ghost predicate IsCalm(actions: seq<Action>, disk: Disk, host: string) {
    forall k :: 0 <= k < |actions| && actions[k].Arrive? ==>
      var l := Run(actions[..k], disk, host);
      l.Some? ==> IsFree(l.value, actions[k].path)
  }

  ghost predicate IsFree(l: Log, path: string) {
    forall i :: 0 <= i < |l.rows| && i < |l.names| && Some(l.names[i]) == MailName.KeyOf(path) ==>
      !Carrying(l.rows[i].client)
  }

  /** The mails taken off are those that were sent, so far. */
  predicate InOrder(r: Row) {
    && |r.removed| == |r.sent| && (forall k :: 0 <= k < |r.sent| ==> r.removed[k] == r.sent[k].mail)
    && (Carrying(r.client) ==> r.since == [])
  }

  predicate AllInOrder(l: Log) {
    forall i :: 0 <= i < |l.rows| ==> InOrder(l.rows[i])
  }

  lemma ReadInOrder(l: Log, i: nat, response: string)
    requires AllSound(l) && AllInOrder(l) && i < |l.rows| && l.rows[i].client.reading
    requires ActReadable(l, i, response).Some?
    ensures InOrder(ActReadable(l, i, response).value.rows[i])
  {
    var r := l.rows[i];
    ReadQueue(View(l, i), CheckServerCode(response));
    if Carrying(r.client) { FrontOf(r); }
  }

  lemma ArriveInOrder(l: Log, i: nat, path: string, connects: bool)
    requires i < |l.rows| && InOrder(l.rows[i]) && !Carrying(l.rows[i].client)
    requires Registered(l, i, path, connects).Some?
    ensures InOrder(Registered(l, i, path, connects).value.rows[i])
  {
    RegisterQueue(View(l, i), path, connects);
  }

  lemma OneRowInOrder(l: Log, l': Log, i: nat)
    requires AllInOrder(l) && i < |l.rows| && |l'.rows| == |l.rows| && l'.rows == l.rows[i := l'.rows[i]]
    requires InOrder(l'.rows[i])
    ensures AllInOrder(l')
  {
  }

  lemma CalmArrive(l: Log, path: string, connects: bool)
    requires AllSound(l) && AllInOrder(l) && IsFree(l, path) && ActArrive(l, path, connects).Some?
    ensures AllInOrder(ActArrive(l, path, connects).value)
  {
    var name := MailName.KeyOf(path).value;
    var i := PlaceOf(l, name);
    var e := Enter(l, name);
    assert i < |l.rows| ==> l.names[i] == name;
    assert InOrder(NewRow(l));
    ArriveInOrder(e, i, path, connects);
    OneRowInOrder(e, ActArrive(l, path, connects).value, i);
  }

  lemma CalmStep(l: Log, a: Action, host: string)
    requires AllSound(l) && AllInOrder(l) && (a.Arrive? ==> IsFree(l, a.path)) && Act(l, a, host).Some?
    ensures AllInOrder(Act(l, a, host).value)
  {
    match a
    case Arrive(path, connects) => CalmArrive(l, path, connects);
    case Select(ready) =>
      assert forall i :: 0 <= i < |l.rows| ==> InOrder(Polled(l.rows[i], i in ready));
    case Readable(i, response) =>
      if i < |l.rows| && l.rows[i].client.reading {
        ReadInOrder(l, i, response);
        OneRowInOrder(l, Act(l, a, host).value, i);
      }
    case Writable(i) =>
      if i < |l.rows| && l.rows[i].client.writing {
        WriteInOrder(l, i, host);
        OneRowInOrder(l, Act(l, a, host).value, i);
      }
  }

  lemma WriteInOrder(l: Log, i: nat, host: string)
    requires AllInOrder(l) && AllSound(l) && i < |l.rows| && ActWritable(l, i, host).Some?
    requires l.rows[i].client.writing
    ensures InOrder(ActWritable(l, i, host).value.rows[i])
  {
  }

  /** In a calm run the mails that a domain takes off are, in order, the mails it
      sent. */
  lemma {:induction false} CalmRunRemovesWhatItSent(actions: seq<Action>, disk: Disk, host: string)
    requires Run(actions, disk, host).Some? && IsCalm(actions, disk, host)
    ensures AllInOrder(Run(actions, disk, host).value)
  {
    if actions == [] {
    } else {
      var before := actions[..|actions| - 1];
      var a := actions[|actions| - 1];
      assert IsCalm(before, disk, host) by {
        forall k | 0 <= k < |before| ensures before[..k] == actions[..k] && before[k] == actions[k] {}
      }
      CalmRunRemovesWhatItSent(before, disk, host);
      RunSound(before, disk, host);
      CalmStep(Run(before, disk, host).value, a, host);
    }
  }

  // Domains that are given up.

  /** Mails are waiting, but the socket is in neither set, and no session is to be
      begun. */
  predicate IsDeaf(c: Client) {
    c.pending != [] && !c.state.Init? && !IsWaiting(c)
  }

  /** When a domain that was not deaf becomes so: it is not ready when the process
      waits, or a mail arrives for it in DONE or finds no connection. */
  ghost predicate Deafens(l: Log, i: nat, a: Action)
    requires i < |l.rows|
  {
    var c := l.rows[i].client;
    c.pending != [] &&
    match a
    case Select(ready) => i !in ready && !c.state.Init?
    case Arrive(path, connects) =>
      IsFor(l, i, path) && (c.state.Done? || (c.state.Init? && !connects))
    case _ => false
  }

  ghost predicate IsFor(l: Log, i: nat, path: string) {
    MailName.KeyOf(path).Some? && i == PlaceOf(l, MailName.KeyOf(path).value)
  }

  lemma RegisterDeafens(c: Client, path: string, connects: bool)
    requires Busy(c) && Register(c, path, connects).Live?
    ensures IsDeaf(Register(c, path, connects).client) <==>
              c.pending != [] && ((!c.state.Init? && !IsWaiting(c)) || c.state.Done? || (c.state.Init? && !connects))
  {
  }

  lemma ReadHears(c: Client, event: Event)
    requires c.reading && HandleRead(c, event).Live?
    ensures !IsDeaf(HandleRead(c, event).client)
  {
  }

  lemma WriteHears(c: Client, host: string)
    requires HandleWrite(c, host).Live?
    ensures HandleWrite(c, host).client.reading
  {
  }

  lemma ArriveDeaf(l: Log, path: string, connects: bool, i: nat)
    requires AllSound(l) && i < |l.rows| && ActArrive(l, path, connects).Some?
    ensures i < |ActArrive(l, path, connects).value.rows|
    ensures IsDeaf(ActArrive(l, path, connects).value.rows[i].client) <==>
              IsDeaf(l.rows[i].client) || Deafens(l, i, Arrive(path, connects))
  {
    var name := MailName.KeyOf(path).value;
    if i == PlaceOf(l, name) { RegisterDeafens(View(l, i), path, connects); }
  }

  lemma ActDeaf(l: Log, a: Action, host: string, i: nat)
    requires AllSound(l) && i < |l.rows| && Act(l, a, host).Some?
    ensures i < |Act(l, a, host).value.rows|
    ensures IsDeaf(Act(l, a, host).value.rows[i].client) <==> IsDeaf(l.rows[i].client) || Deafens(l, i, a)
  {
    match a
    case Arrive(path, connects) => ArriveDeaf(l, path, connects, i);
    case Select(ready) =>
    case Readable(j, response) =>
      if i == j && l.rows[i].client.reading { ReadHears(View(l, i), CheckServerCode(response)); }
    case Writable(j) =>
      if i == j && l.rows[i].client.writing { WriteHears(View(l, i), host); }
  }

  /** In every run, an action leaves a domain deaf exactly when it was deaf, or was
      not ready when the process waited, or a mail arrived for it in DONE or found
      no connection. */
  lemma {:induction false} DeafIff(actions: seq<Action>, a: Action, disk: Disk, host: string, i: nat)
    requires Run(actions + [a], disk, host).Some?
    requires Run(actions, disk, host).Some? && i < |Run(actions, disk, host).value.rows|
    ensures var l, l' := Run(actions, disk, host).value, Run(actions + [a], disk, host).value;
            i < |l'.rows| && (IsDeaf(l'.rows[i].client) <==> IsDeaf(l.rows[i].client) || Deafens(l, i, a))
  {
    RunStep(actions, a, disk, host);
    RunSound(actions, disk, host);
    ActDeaf(Run(actions, disk, host).value, a, host, i);
  }

  // Arrivals.

  /** The domain as a mail for it finds it; one not seen before has nothing. */
  function Found(l: Log, i: nat): Client {
    if i < |l.rows| then View(l, i) else Fresh(l.tokens, l.disk)
  }

  /** The mail is kept when it finds a session under way, or a connection. */
  predicate IsKept(c: Client, connects: bool) {
    if c.pending == [] || c.state.Init? then connects else !c.state.Done?
  }

  /** A new connection begins in INIT behind an old session; without one the
      domain is in DONE. */
  predicate IsJoined(c: Client, path: string, connects: bool, c': Client) {
    var opens := c.pending == [] || c.state.Init?;
    && c'.pending == (if IsKept(c, connects) then [path] else []) + c.pending
    && (!opens ==> c'.state == c.state)
    && (opens && connects ==> c'.reading && !c'.writing && c'.state == if c.state.Init? then Connect else Init)
    && (opens && !connects ==> c'.state.Done?)
  }

  lemma RegisterJoins(c: Client, path: string, connects: bool)
    requires Busy(c)
    ensures Register(c, path, connects).Live?
    ensures IsJoined(c, path, connects, Register(c, path, connects).client)
    ensures Register(c, path, connects).value == IsKept(c, connects)
  {
  }

  /** The mail joins its own domain only. */
  ghost predicate Arrived(l: Log, name: string, path: string, connects: bool, l': Log) {
    var i := PlaceOf(l, name);
    && i < |l'.rows| == |l'.names| && l'.names[i] == name
    && IsJoined(Found(l, i), path, connects, l'.rows[i].client)
    && forall k :: 0 <= k < |l.rows| && k != i ==> k < |l'.rows| && l'.rows[k] == l.rows[k]
  }

  lemma ArriveJoins(l: Log, name: string, path: string, connects: bool)
    requires AllSound(l)
    ensures Registered(Enter(l, name), PlaceOf(l, name), path, connects).Some?
    ensures Arrived(l, name, path, connects, Registered(Enter(l, name), PlaceOf(l, name), path, connects).value)
  {
    NewRowSound(l);
    RegisterJoins(Found(l, PlaceOf(l, name)), path, connects);
  }

  /** In every run, a mail that arrives ends the process exactly when no domain can
      be taken from its path; else it joins the front of its own domain's list
      exactly when it finds a session under way or a connection, and no other
      domain changes. */
  lemma {:induction false} ArrivalIff(actions: seq<Action>, path: string, connects: bool, disk: Disk, host: string)
    requires Run(actions, disk, host).Some?
    ensures Run(actions + [Arrive(path, connects)], disk, host).Some? <==> MailName.KeyOf(path).Some?
    ensures MailName.KeyOf(path).Some? ==>
              Arrived(Run(actions, disk, host).value, MailName.KeyOf(path).value, path, connects,
                      Run(actions + [Arrive(path, connects)], disk, host).value)
  {
    assert (actions + [Arrive(path, connects)])[..|actions|] == actions;
    RunSound(actions, disk, host);
    if MailName.KeyOf(path).Some? {
      ArriveJoins(Run(actions, disk, host).value, MailName.KeyOf(path).value, path, connects);
    }
  }

  /** The mails and the log of a deaf domain stay, but for arrivals. */
  predicate IsLeft(r: Row, r': Row) {
    && IsDeaf(r'.client) && r'.client.state == r.client.state
    && r'.removed == r.removed && r'.sent == r.sent && r'.draft == r.draft
    && |r'.client.pending| >= |r.client.pending|
    && r'.client.pending[|r'.client.pending| - |r.client.pending|..] == r.client.pending
  }

  lemma PolledLeft(r: Row, ready: bool)
    requires IsDeaf(r.client)
    ensures Polled(r, ready) == r && IsLeft(r, r)
  {
  }

  lemma ArriveLeaves(l: Log, path: string, connects: bool, i: nat)
    requires AllSound(l) && i < |l.rows| && IsDeaf(l.rows[i].client) && ActArrive(l, path, connects).Some?
    ensures i < |ActArrive(l, path, connects).value.rows|
    ensures IsLeft(l.rows[i], ActArrive(l, path, connects).value.rows[i])
  {
    var name := MailName.KeyOf(path).value;
    if i == PlaceOf(l, name) { RegisterQueue(View(l, i), path, connects); }
  }

  lemma ActLeaves(l: Log, a: Action, host: string, i: nat)
    requires AllSound(l) && i < |l.rows| && IsDeaf(l.rows[i].client) && Act(l, a, host).Some?
    ensures i < |Act(l, a, host).value.rows| && IsLeft(l.rows[i], Act(l, a, host).value.rows[i])
  {
    var r := l.rows[i];
    PolledLeft(r, a.Select? && i in a.ready);
    match a
    case Arrive(path, connects) => ArriveLeaves(l, path, connects, i);
    case Select(ready) => assert ActSelect(l, ready).rows[i] == r;
    case Readable(j, response) => assert Act(l, a, host).value.rows[i] == r;
    case Writable(j) => assert Act(l, a, host).value.rows[i] == r;
  }

  lemma LeftTwice(r: Row, r': Row, r'': Row)
    requires IsLeft(r, r') && IsLeft(r', r'')
    ensures IsLeft(r, r'')
  {
    var p, p', p'' := r.client.pending, r'.client.pending, r''.client.pending;
    assert p''[|p''| - |p|..] == p''[|p''| - |p'|..][|p'| - |p|..];
  }

  /** A deaf domain stays so in every continuation: nothing more is written for it
      and none of its mails leaves the queue. */
  lemma {:induction false} DeafForever(actions: seq<Action>, more: seq<Action>, disk: Disk, host: string, i: nat)
    requires Run(actions, disk, host).Some? && i < |Run(actions, disk, host).value.rows|
    requires IsDeaf(Run(actions, disk, host).value.rows[i].client)
    requires Run(actions + more, disk, host).Some?
    ensures var l, l' := Run(actions, disk, host).value, Run(actions + more, disk, host).value;
            i < |l'.rows| && IsLeft(l.rows[i], l'.rows[i])
    decreases |more|
  {
    if more == [] {
      assert actions + more == actions;
      PolledLeft(Run(actions, disk, host).value.rows[i], true);
    } else {
      var n := |more| - 1;
      var before := actions + more[..n];
      assert actions + more == before + [more[n]];
      RunStep(before, more[n], disk, host);
      DeafForever(actions, more[..n], disk, host, i);
      RunSound(before, disk, host);
      var r, l := Run(actions, disk, host).value.rows[i], Run(before, disk, host).value;
      ActLeaves(l, more[n], host, i);
      LeftTwice(r, l.rows[i], Act(l, more[n], host).value.rows[i]);
    }
  }
}
