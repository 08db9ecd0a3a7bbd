/** What a worker's domains write in runs in which they share the one cursor of
    strtok with each other and with the registration of new mails. */
module CursorRuns {
  import opened Text
  import opened Commands
  import opened ClientFsm
  import opened Client
  import opened Disks
  import opened ClientRuns
  import MailName

  /** The tokens that are left, by the log; nothing is left once the end of the
      text was reported. */
  function Rest(text: seq<string>, place: nat): seq<string> {
    if place <= |text| then text[place..] else []
  }

  predicate IsPlaced(l: Log) {
    && l.tokens == Rest(l.text, l.place) && l.place <= |l.text| + 1
    && (if l.uses == [] then l.text == [] else l.source < |l.uses|)
  }

  lemma RestIs(text: seq<string>, place: nat)
    ensures Rest(text, place) == [] <==> place >= |text|
    ensures place < |text| ==> Rest(text, place)[0] == text[place] && Rest(text, place)[1..] == Rest(text, place + 1)
  {
  }

  /** The body has been written. */
  predicate IsThrough(c: Client) {
    c.state.SendBody? && !c.writing
  }

  /** The number of the token that is the domain's next. */
  function Due(c: Client): nat {
    if c.state.SendMailFrom? || (c.state.SendRcptTo? && c.writing) then 1 else 2
  }

  /** The cursor stands in the text of the domain's own last MAIL, at its next
      token, exactly when that MAIL found its file and nobody else used the cursor
      since. */
  predicate Explained(l: Log, i: nat)
    requires i < |l.rows|
  {
    var r := l.rows[i];
    Carrying(r.client) ==>
      && r.start < |l.uses| && l.uses[r.start] == Domain(i)
      && (IsWaiting(r.client) && !IsThrough(r.client) ==> StandsAt(l, i, Due(r.client)))
  }

  predicate StandsAt(l: Log, i: nat, due: nat)
    requires i < |l.rows|
  {
    var r := l.rows[i];
    && (l.source == r.start ==> due <= l.place && due <= |l.text| && l.text == r.text)
    && (l.source == r.start && l.place == due <==> r.found && IsAlone(l, i))
  }

  predicate AllExplained(l: Log) {
    IsPlaced(l) && forall i :: 0 <= i < |l.rows| ==> Explained(l, i)
  }

  /** Somebody sets the cursor on a new text, or moves it on or to the end. */
  predicate IsUse(l: Log, l': Log, user: User) {
    && l'.uses == l.uses + [user]
    && (l'.source == |l.uses| ||
        (l'.source == l.source && l'.text == l.text && (l'.place > l.place || l'.place == |l.text| + 1)))
  }

  lemma OtherUse(l: Log, l': Log, i: nat, user: User)
    requires i < |l.rows| && i < |l'.rows| && l'.rows[i] == l.rows[i] && Explained(l, i)
    requires user != Domain(i) && IsUse(l, l', user)
    ensures Explained(l', i)
  {
    var r := l.rows[i];
    if Carrying(r.client) {
      assert !IsAlone(l', i) by { assert l'.uses[|l.uses|] == user; }
    }
  }

  predicate IsSameCursor(l: Log, l': Log) {
    l'.uses == l.uses && l'.source == l.source && l'.text == l.text && l'.place == l.place && l'.tokens == l.tokens
  }

  lemma NoUse(l: Log, l': Log, i: nat)
    requires i < |l.rows| && i < |l'.rows| && l'.rows[i] == l.rows[i] && Explained(l, i) && IsSameCursor(l, l')
    ensures Explained(l', i)
  {
  }

  /** One step: its own row and the cursor are known, the other rows follow. */
  lemma OneRowExplained(l: Log, l': Log, i: nat, user: User)
    requires AllExplained(l) && i < |l.rows| && |l'.rows| == |l.rows| && l'.rows == l.rows[i := l'.rows[i]]
    requires IsPlaced(l') && Explained(l', i)
    requires IsSameCursor(l, l') || (IsUse(l, l', user) && (user == Registration || user == Domain(i)))
    ensures AllExplained(l')
  {
    forall j | 0 <= j < |l'.rows| ensures Explained(l', j) {
      if j != i {
        if IsSameCursor(l, l') {
          NoUse(l, l', j);
        } else {
          OtherUse(l, l', j, user);
        }
      }
    }
  }

  // Arrivals.

  /** The part of a row that says where its mail stands. */
  predicate SameMail(r: Row, r': Row) {
    && r'.start == r.start && r'.found == r.found && r'.text == r.text
    && (Carrying(r'.client) ==> Carrying(r.client))
    && (Carrying(r'.client) && IsWaiting(r'.client) ==>
          IsWaiting(r.client) && IsThrough(r'.client) == IsThrough(r.client) && Due(r'.client) == Due(r.client))
  }

  lemma RegisteredSame(l: Log, i: nat, path: string, connects: bool)
    requires i < |l.rows| && Sound(l.rows[i]) && Registered(l, i, path, connects).Some?
    ensures SameMail(l.rows[i], Registered(l, i, path, connects).value.rows[i])
  {
    RegisterQueue(View(l, i), path, connects);
    if Carrying(l.rows[i].client) { FrontOf(l.rows[i]); }
  }

  /** The row itself, when the cursor was used by somebody else. */
  lemma SameOtherUse(l: Log, l': Log, i: nat)
    requires i < |l.rows| && i < |l'.rows| && SameMail(l.rows[i], l'.rows[i]) && Explained(l, i)
    requires l'.uses == l.uses + [Registration] && l'.source == |l.uses|
    ensures Explained(l', i)
  {
    if Carrying(l'.rows[i].client) {
      assert !IsAlone(l', i) by { assert l'.uses[|l.uses|] == Registration; }
    }
  }

  lemma SameNoUse(l: Log, l': Log, i: nat)
    requires i < |l.rows| && i < |l'.rows| && SameMail(l.rows[i], l'.rows[i]) && Explained(l, i)
    requires IsSameCursor(l, l')
    ensures Explained(l', i)
  {
    assert IsAlone(l', i) == IsAlone(l, i);
  }

  /** A registration comes between a mail and its cursor. */
  lemma RegisteredExplained(l: Log, i: nat, path: string, connects: bool)
    requires AllExplained(l) && i < |l.rows| && Sound(l.rows[i]) && Registered(l, i, path, connects).Some?
    ensures AllExplained(Registered(l, i, path, connects).value)
  {
    var l' := Registered(l, i, path, connects).value;
    RegisterQueue(View(l, i), path, connects);
    RegisteredSame(l, i, path, connects);
    SameOtherUse(l, l', i);
    OneRowExplained(l, l', i, Registration);
  }

  lemma ArriveExplained(l: Log, path: string, connects: bool)
    requires AllExplained(l) && AllSound(l) && ActArrive(l, path, connects).Some?
    ensures AllExplained(ActArrive(l, path, connects).value)
  {
    var name := MailName.KeyOf(path).value;
    var e := Enter(l, name);
    EnterSound(l, name);
    forall j | 0 <= j < |e.rows| ensures Explained(e, j) {
      if j < |l.rows| { NoUse(l, e, j); }
    }
    RegisteredExplained(e, PlaceOf(l, name), path, connects);
  }

  // Replies.

  lemma ReadSame(c: Client, event: Event)
    requires Busy(c) && c.reading && event in [EvOk, EvError, EvCommandNotImplemented]
    requires HandleRead(c, event).Live? && Carrying(HandleRead(c, event).client)
    requires Carrying(c) ==> c.state.SendMailFrom? || c.state.SendRcptTo? || c.state.SendData? || c.state.SendBody?
    ensures var d := HandleRead(c, event).client;
            Carrying(c) && !IsThrough(d) && !IsThrough(c) && Due(d) == Due(c)
  {
  }

  lemma ReadableExplained(l: Log, i: nat, response: string)
    requires AllExplained(l) && AllSound(l) && i < |l.rows| && l.rows[i].client.reading
    requires ActReadable(l, i, response).Some?
    ensures AllExplained(ActReadable(l, i, response).value)
  {
    var l' := ActReadable(l, i, response).value;
    var c, event := View(l, i), CheckServerCode(response);
    Replies(response);
    if Carrying(l'.rows[i].client) { ReadSame(c, event); }
    assert SameMail(l.rows[i], l'.rows[i]);
    SameNoUse(l, l', i);
    OneRowExplained(l, l', i, Registration);
  }

  // Waiting.

  /** A domain that is still in a set stands where it stood. */
  lemma SelectExplained(l: Log, ready: set<nat>)
    requires AllExplained(l) && AllSound(l)
    ensures AllExplained(ActSelect(l, ready))
  {
    var l' := ActSelect(l, ready);
    forall i | 0 <= i < |l'.rows| ensures Explained(l', i) {
      assert SameMail(l.rows[i], l'.rows[i]);
      SameNoUse(l, l', i);
    }
  }

  // Writes.

  lemma UseIsAlone(l: Log, l': Log, i: nat)
    requires i < |l.rows| && i < |l'.rows| && l'.rows[i].start == l.rows[i].start <= |l.uses|
    requires l'.uses == l.uses + [Domain(i)]
    ensures IsAlone(l', i) <==> IsAlone(l, i)
  {
    assert forall k :: 0 <= k < |l.uses| ==> l'.uses[k] == l.uses[k];
  }

  lemma MailExplained(l: Log, i: nat, host: string)
    requires IsPlaced(l) && i < |l.rows| && l.rows[i].client.state.SendMailFrom? && ActWritable(l, i, host).Some?
    ensures var l' := ActWritable(l, i, host).value;
            IsPlaced(l') && Explained(l', i) && IsUse(l, l', Domain(i))
  {
    var l' := ActWritable(l, i, host).value;
    assert l'.uses[|l.uses|] == Domain(i);
  }

  /** RCPT takes the token the cursor stands at. */
  lemma RcptExplained(l: Log, i: nat, host: string)
    requires IsPlaced(l) && i < |l.rows| && Explained(l, i) && Sound(l.rows[i])
    requires l.rows[i].client.state.SendRcptTo? && l.rows[i].client.writing && ActWritable(l, i, host).Some?
    ensures var l' := ActWritable(l, i, host).value;
            IsPlaced(l') && Explained(l', i) && IsUse(l, l', Domain(i))
  {
    RestIs(l.text, l.place);
    UseIsAlone(l, ActWritable(l, i, host).value, i);
  }

  lemma BodyExplained(l: Log, i: nat, host: string)
    requires IsPlaced(l) && i < |l.rows| && Explained(l, i) && Sound(l.rows[i])
    requires l.rows[i].client.state.SendBody? && l.rows[i].client.writing && ActWritable(l, i, host).Some?
    ensures var l' := ActWritable(l, i, host).value;
            IsPlaced(l') && Explained(l', i) && IsUse(l, l', Domain(i))
  {
    assert ActWritable(l, i, host).value.uses[l.rows[i].start] == l.uses[l.rows[i].start];
  }

  lemma PlainExplained(l: Log, i: nat, host: string)
    requires IsPlaced(l) && i < |l.rows| && Explained(l, i) && Sound(l.rows[i]) && l.rows[i].client.writing
    requires var s := l.rows[i].client.state; !s.SendMailFrom? && !s.SendRcptTo? && !s.SendBody?
    requires ActWritable(l, i, host).Some?
    ensures var l' := ActWritable(l, i, host).value;
            IsPlaced(l') && Explained(l', i) && IsSameCursor(l, l')
  {
  }

  lemma WritableExplained(l: Log, i: nat, host: string)
    requires AllExplained(l) && AllSound(l) && i < |l.rows| && l.rows[i].client.writing
    requires ActWritable(l, i, host).Some?
    ensures AllExplained(ActWritable(l, i, host).value)
  {
    match l.rows[i].client.state {
      case SendMailFrom => MailExplained(l, i, host);
      case SendRcptTo => RcptExplained(l, i, host);
      case SendBody => BodyExplained(l, i, host);
      case _ => PlainExplained(l, i, host);
    }
    OneRowExplained(l, ActWritable(l, i, host).value, i, Domain(i));
  }

  lemma {:induction false} RunExplained(actions: seq<Action>, disk: Disk, host: string)
    requires Run(actions, disk, host).Some?
    ensures AllExplained(Run(actions, disk, host).value)
  {
    if actions == [] {
    } else {
      var before := actions[..|actions| - 1];
      RunExplained(before, disk, host);
      RunSound(before, disk, host);
      var l := Run(before, disk, host).value;
      match actions[|actions| - 1]
      case Arrive(path, connects) => ArriveExplained(l, path, connects);
      case Select(ready) => SelectExplained(l, ready);
      case Readable(i, response) =>
        if i < |l.rows| && l.rows[i].client.reading { ReadableExplained(l, i, response); }
      case Writable(i) =>
        if i < |l.rows| && l.rows[i].client.writing { WritableExplained(l, i, host); }
    }
  }

  // What RCPT and the body carry.

  lemma Stands(l: Log, i: nat)
    requires AllExplained(l) && AllSound(l) && i < |l.rows| && l.rows[i].client.writing
    requires l.rows[i].client.state.SendRcptTo? || l.rows[i].client.state.SendBody?
    ensures StandsAt(l, i, if l.rows[i].client.state.SendRcptTo? then 1 else 2)
  {
    assert Sound(l.rows[i]) && Explained(l, i);
  }

  /** In every run, RCPT carries the token at which the cursor stands, and ends
      the process when there is none; that is the second line of the mail read at
      the domain's own last MAIL exactly when this MAIL found its file and nobody,
      neither another domain nor a registration, used the cursor since. */
  lemma {:induction false} RcptIsOwnIff(actions: seq<Action>, disk: Disk, host: string, i: nat, l: Log)
    requires Run(actions, disk, host) == Some(l) && i < |l.rows|
    requires l.rows[i].client.state.SendRcptTo? && l.rows[i].client.writing
    ensures ActWritable(l, i, host).None? <==> l.place >= |l.text|
    ensures l.place < |l.text| ==>
              var l' := ActWritable(l, i, host).value;
              i < |l'.rows| && l'.rows[i].draft == l.rows[i].draft + [RcptTo(l.text[l.place])]
    ensures l.source == l.rows[i].start && l.place == 1 <==> l.rows[i].found && IsAlone(l, i)
    ensures l.source == l.rows[i].start ==> l.text == l.rows[i].text
  {
    RunExplained(actions, disk, host);
    RunSound(actions, disk, host);
    Stands(l, i);
    RestIs(l.text, l.place);
  }

  /** In every run, the body consists of the tokens from where the cursor stands;
      these are the lines of the mail from the third on exactly on the same
      condition. */
  lemma {:induction false} BodyIsOwnIff(actions: seq<Action>, disk: Disk, host: string, i: nat, l: Log)
    requires Run(actions, disk, host) == Some(l) && i < |l.rows|
    requires l.rows[i].client.state.SendBody? && l.rows[i].client.writing
    ensures ActWritable(l, i, host).Some?
    ensures var l' := ActWritable(l, i, host).value;
            i < |l'.rows| && l'.rows[i].draft == l.rows[i].draft + [Body(Rest(l.text, l.place))]
    ensures l.source == l.rows[i].start && l.place == 2 <==> l.rows[i].found && IsAlone(l, i)
    ensures l.source == l.rows[i].start ==> l.text == l.rows[i].text
  {
    RunExplained(actions, disk, host);
    RunSound(actions, disk, host);
    Stands(l, i);
  }

  predicate IsEmptied(l: Log) {
    l.uses != [] && l.uses[|l.uses| - 1] == Registration ==> l.tokens == []
  }

  lemma ActEmpties(l: Log, a: Action, host: string)
    requires IsEmptied(l) && Act(l, a, host).Some?
    ensures IsEmptied(Act(l, a, host).value)
  {
    match a
    case Arrive(path, connects) =>
      var name := MailName.KeyOf(path).value;
      RegisterQueue(View(Enter(l, name), PlaceOf(l, name)), path, connects);
    case Select(ready) =>
    case Readable(i, response) =>
    case Writable(i) =>
      if i < |l.rows| && l.rows[i].client.writing { WriteEmpties(l, i, host); }
  }

  lemma WriteEmpties(l: Log, i: nat, host: string)
    requires i < |l.rows| && IsEmptied(l) && ActWritable(l, i, host).Some?
    ensures IsEmptied(ActWritable(l, i, host).value)
  {
  }

  lemma {:induction false} RunEmpties(actions: seq<Action>, disk: Disk, host: string)
    requires Run(actions, disk, host).Some?
    ensures IsEmptied(Run(actions, disk, host).value)
  {
    if actions == [] {
    } else {
      RunEmpties(actions[..|actions| - 1], disk, host);
      ActEmpties(Run(actions[..|actions| - 1], disk, host).value, actions[|actions| - 1], host);
    }
  }

  /** Where a registration was the last to use the cursor, RCPT ends the process
      and a body is empty. */
  lemma {:induction false} AfterRegistration(actions: seq<Action>, disk: Disk, host: string, i: nat, l: Log)
    requires Run(actions, disk, host) == Some(l) && i < |l.rows| && l.rows[i].client.writing
    requires l.uses != [] && l.uses[|l.uses| - 1] == Registration
    ensures l.rows[i].client.state.SendRcptTo? ==> ActWritable(l, i, host).None?
    ensures l.rows[i].client.state.SendBody? ==>
              var o := ActWritable(l, i, host);
              o.Some? && i < |o.value.rows| && o.value.rows[i].draft == l.rows[i].draft + [Body([])]
  {
    RunEmpties(actions, disk, host);
  }

  // What is sent in the end.

  /** The first n messages for a mail with these lines. */
  predicate Matches(said: seq<Message>, t: seq<string>, n: nat) {
    && |said| == n
    && (n > 0 ==> |t| > 0 && said[0] == MailFrom(t[0]))
    && (n > 1 ==> |t| > 1 && said[1] == RcptTo(t[1]))
    && (n > 2 ==> said[2] == DataLine)
    && (n > 3 ==> said[3] == Body(t[2..]))
  }

  /** How many messages are written for the mail under way. */
  function Written(c: Client): nat {
    var before := if c.state.SendMailFrom? then 0 else if c.state.SendRcptTo? then 1
                  else if c.state.SendData? then 2 else 3;
    if c.writing then before else before + 1
  }

  predicate Drafted(r: Row) {
    && (Carrying(r.client) && IsWaiting(r.client) && r.alone ==>
          r.found && Matches(r.draft, r.text, Written(r.client)))
    && forall k :: 0 <= k < |r.sent| && r.sent[k].alone ==> Matches(r.sent[k].said, r.sent[k].text, 4)
  }

  predicate AllDrafted(l: Log) {
    forall i :: 0 <= i < |l.rows| ==> Drafted(l.rows[i])
  }

  lemma OneRowDrafted(l: Log, l': Log, i: nat)
    requires AllDrafted(l) && i < |l.rows| && |l'.rows| == |l.rows| && l'.rows == l.rows[i := l'.rows[i]]
    requires Drafted(l'.rows[i])
    ensures AllDrafted(l')
  {
  }

  lemma ArriveDrafted(l: Log, path: string, connects: bool)
    requires AllSound(l) && AllDrafted(l) && ActArrive(l, path, connects).Some?
    ensures AllDrafted(ActArrive(l, path, connects).value)
  {
    var name := MailName.KeyOf(path).value;
    var e, i := Enter(l, name), PlaceOf(l, name);
    EnterSound(l, name);
    assert Drafted(NewRow(l));
    assert AllDrafted(e);
    RegisterQueue(View(e, i), path, connects);
    if Carrying(e.rows[i].client) { FrontOf(e.rows[i]); }
    OneRowDrafted(e, ActArrive(l, path, connects).value, i);
  }

  lemma ReadWritten(c: Client, event: Event)
    requires Busy(c) && c.reading && event in [EvOk, EvError, EvCommandNotImplemented]
    requires Carrying(c) ==> c.state.SendMailFrom? || c.state.SendRcptTo? || c.state.SendData? || c.state.SendBody?
    requires HandleRead(c, event).Live?
    ensures var o := HandleRead(c, event);
            && (Carrying(o.client) ==> Carrying(c) && Written(o.client) == Written(c))
            && (o.value.Some? ==> c.state.SendBody? && Written(c) == 4)
  {
  }

  lemma ReadableDrafted(l: Log, i: nat, response: string)
    requires AllSound(l) && AllDrafted(l) && i < |l.rows| && l.rows[i].client.reading
    requires ActReadable(l, i, response).Some?
    ensures AllDrafted(ActReadable(l, i, response).value)
  {
    var l' := ActReadable(l, i, response).value;
    var r, r' := l.rows[i], l'.rows[i];
    assert Sound(r) && Drafted(r);
    Replies(response);
    ReadWritten(View(l, i), CheckServerCode(response));
    assert Drafted(r') by {
      forall k | 0 <= k < |r'.sent| && r'.sent[k].alone ensures Matches(r'.sent[k].said, r'.sent[k].text, 4) {
        if k < |r.sent| { assert r'.sent[k] == r.sent[k]; }
      }
    }
    OneRowDrafted(l, l', i);
  }

  lemma SelectDrafted(l: Log, ready: set<nat>)
    requires AllDrafted(l)
    ensures AllDrafted(ActSelect(l, ready))
  {
    forall i | 0 <= i < |l.rows| ensures Drafted(Polled(l.rows[i], i in ready)) {
      assert Drafted(l.rows[i]);
    }
  }

  lemma MailDrafted(l: Log, i: nat, host: string)
    requires AllDrafted(l) && i < |l.rows| && l.rows[i].client.state.SendMailFrom? && ActWritable(l, i, host).Some?
    ensures Drafted(ActWritable(l, i, host).value.rows[i])
  {
    assert Drafted(l.rows[i]);
  }

  lemma RcptDrafted(l: Log, i: nat, host: string)
    requires AllExplained(l) && AllSound(l) && AllDrafted(l) && i < |l.rows| && l.rows[i].client.writing
    requires l.rows[i].client.state.SendRcptTo? && ActWritable(l, i, host).Some?
    ensures Drafted(ActWritable(l, i, host).value.rows[i])
  {
    assert Sound(l.rows[i]) && Drafted(l.rows[i]);
    Stands(l, i);
    RestIs(l.text, l.place);
  }

  lemma BodyDrafted(l: Log, i: nat, host: string)
    requires AllExplained(l) && AllSound(l) && AllDrafted(l) && i < |l.rows| && l.rows[i].client.writing
    requires l.rows[i].client.state.SendBody? && ActWritable(l, i, host).Some?
    ensures Drafted(ActWritable(l, i, host).value.rows[i])
  {
    assert Sound(l.rows[i]) && Drafted(l.rows[i]);
    Stands(l, i);
  }

  lemma PlainDrafted(l: Log, i: nat, host: string)
    requires AllSound(l) && AllDrafted(l) && i < |l.rows| && l.rows[i].client.writing
    requires var s := l.rows[i].client.state; !s.SendMailFrom? && !s.SendRcptTo? && !s.SendBody?
    requires ActWritable(l, i, host).Some?
    ensures Drafted(ActWritable(l, i, host).value.rows[i])
  {
    assert Sound(l.rows[i]) && Drafted(l.rows[i]);
  }

  lemma WritableDrafted(l: Log, i: nat, host: string)
    requires AllExplained(l) && AllSound(l) && AllDrafted(l) && i < |l.rows| && l.rows[i].client.writing
    requires ActWritable(l, i, host).Some?
    ensures AllDrafted(ActWritable(l, i, host).value)
  {
    match l.rows[i].client.state {
      case SendMailFrom => MailDrafted(l, i, host);
      case SendRcptTo => RcptDrafted(l, i, host);
      case SendBody => BodyDrafted(l, i, host);
      case _ => PlainDrafted(l, i, host);
    }
    OneRowDrafted(l, ActWritable(l, i, host).value, i);
  }

  lemma {:induction false} RunDrafted(actions: seq<Action>, disk: Disk, host: string)
    requires Run(actions, disk, host).Some?
    ensures AllDrafted(Run(actions, disk, host).value)
  {
    if actions == [] {
    } else {
      var before := actions[..|actions| - 1];
      RunDrafted(before, disk, host);
      RunExplained(before, disk, host);
      RunSound(before, disk, host);
      var l := Run(before, disk, host).value;
      match actions[|actions| - 1]
      case Arrive(path, connects) => ArriveDrafted(l, path, connects);
      case Select(ready) => SelectDrafted(l, ready);
      case Readable(i, response) =>
        if i < |l.rows| && l.rows[i].client.reading { ReadableDrafted(l, i, response); }
      case Writable(i) =>
        if i < |l.rows| && l.rows[i].client.writing { WritableDrafted(l, i, host); }
    }
  }

  /** In every run, a mail taken off a queue whose transaction had the cursor to
      itself was sent as MAIL, RCPT, DATA and body of its own file. */
  lemma {:induction false} AloneIsSentWhole(actions: seq<Action>, disk: Disk, host: string, i: nat, k: nat)
    requires Run(actions, disk, host).Some? && i < |Run(actions, disk, host).value.rows|
    requires k < |Run(actions, disk, host).value.rows[i].sent|
    ensures var s := Run(actions, disk, host).value.rows[i].sent[k];
            s.alone ==> |s.text| >= 2 && s.said == [MailFrom(s.text[0]), RcptTo(s.text[1]), DataLine, Body(s.text[2..])]
  {
    RunDrafted(actions, disk, host);
    assert Drafted(Run(actions, disk, host).value.rows[i]);
  }

  // The files.

  lemma {:induction false} AfterGrows(disk: Disk, paths: seq<string>, path: string, n: nat)
    requires n <= |paths|
    ensures After(disk, paths + [path], n) == After(disk, paths, n)
  {
    if n == 0 {
    } else {
      AfterGrows(disk, paths, path, n - 1);
    }
  }

  predicate IsDiskAfter(l: Log, disk: Disk) {
    l.disk == After(disk, l.taken, |l.taken|)
  }

  lemma WriteTakes(l: Log, i: nat, host: string, disk: Disk)
    requires IsDiskAfter(l, disk) && i < |l.rows| && ActWritable(l, i, host).Some?
    ensures IsDiskAfter(ActWritable(l, i, host).value, disk)
  {
    var l' := ActWritable(l, i, host).value;
    if l.rows[i].client.state.SendMailFrom? {
      AfterGrows(disk, l.taken, l.rows[i].client.pending[0], |l.taken|);
    }
  }

  lemma {:induction false} RunTakes(actions: seq<Action>, disk: Disk, host: string)
    requires Run(actions, disk, host).Some?
    ensures IsDiskAfter(Run(actions, disk, host).value, disk)
  {
    if actions == [] {
    } else {
      RunTakes(actions[..|actions| - 1], disk, host);
      var l := Run(actions[..|actions| - 1], disk, host).value;
      match actions[|actions| - 1]
      case Arrive(path, connects) =>
      case Select(ready) =>
      case Readable(i, response) =>
      case Writable(i) =>
        if i < |l.rows| && l.rows[i].client.writing { WriteTakes(l, i, host, disk); }
    }
  }

  /** In every run, a mail with at least one line is found at its MAIL, as it was
      at the start, exactly when no MAIL was sent for it before; and its MAIL ends
      the process exactly when it is not found and the cursor holds nothing. */
  lemma {:induction false} MailIsFoundIff(actions: seq<Action>, disk: Disk, host: string, i: nat, l: Log)
    requires Run(actions, disk, host) == Some(l) && i < |l.rows|
    requires l.rows[i].client.state.SendMailFrom? && l.rows[i].client.pending != []
    requires var path := l.rows[i].client.pending[0];
             && path in disk.files && Tokens(disk.files[path], '\n') != []
             && forall j :: 0 <= j < |l.taken| ==> MovesAway(disk, l.taken[j]) && Renamed(l.taken[j]) != path
    ensures var path := l.rows[i].client.pending[0];
            && (path in l.disk.files <==> path !in l.taken)
            && (path in l.disk.files ==> l.disk.files[path] == disk.files[path])
            && (ActWritable(l, i, host).None? <==> path in l.taken && l.place >= |l.text|)
  {
    var path := l.rows[i].client.pending[0];
    RunTakes(actions, disk, host);
    RunExplained(actions, disk, host);
    RestIs(l.text, l.place);
    FoundIff(disk, l.taken, |l.taken|, path);
    IsAmongIff(l.taken, |l.taken|, path);
  }
}
