/** The client's domain descriptors as the handlers mutate them: FSM state, linked
    mail list and socket, and what the descriptors of a process share: interest
    sets, strtok cursor and files. */
module DomainProc {
  import opened Text
  import opened Commands
  import Pattern
  import opened ClientFsm
  import opened MailList
  import opened Disks
  import C = Client
  import MailName

  class Process {
    var readFds: set<int>
    var writeFds: set<int>
    const cursor: Strtok
    var disk: Disk

    constructor (disk: Disk)
      ensures Valid() && readFds == {} && writeFds == {} && this.disk == disk && fresh(cursor)
      ensures cursor.Remaining('\n') == []
    {
      readFds, writeFds, this.disk := {}, {}, disk;
      cursor := new Strtok("");
    }

    ghost predicate Valid()
      reads this, cursor
    {
      cursor.Valid() && -1 !in readFds && -1 !in writeFds
    }
  }

  lemma ConcatOne(s: string)
    ensures Concat([s]) == s
  {
    assert [s][1..] == [];
  }

  lemma LineWritten(writes: seq<string>, line: string, rest: seq<string>, all: string)
    requires Concat(writes) + Unlines([line] + rest) == all
    ensures Concat(writes + [line + "\n"]) + Unlines(rest) == all
    ensures rest == [] ==> Concat(writes + [line + "\n"]) == all
  {
    assert ([line] + rest)[1..] == rest;
    ConcatMore(writes, line + "\n");
  }

  /** What is written does not depend on the interest sets. */
  lemma WritesAlike(c: C.Client, host: string)
    ensures C.HandleWrite(c, host) == C.HandleWrite(c.(reading := true, writing := true), host)
  {
  }

  class Descriptor {
    var state: State
    var socketFd: int
    const mails: List
    /** The mail read at the last MAIL whose session still runs. */
    ghost var inFlight: Option<string>

    /** A domain not seen before: a list with its sentinel, in INIT. */
    constructor (p: Process)
      requires p.Valid()
      ensures Valid(p) && View(p) == C.Fresh(p.cursor.Remaining('\n'), p.disk) && socketFd == -1
      ensures fresh(mails) && fresh(mails.nodes)
    {
      state, socketFd, inFlight := Init, -1, None;
      mails := new List();
    }

    ghost predicate Valid(p: Process)
      reads this, mails, mails.nodes, p, p.cursor
    {
      mails.Valid() && mails.nodes != [] && p.Valid()
    }

    ghost function View(p: Process): C.Client
      requires Valid(p)
      reads this, mails, mails.nodes, p, p.cursor
    {
      C.Client(state, mails.Pending(), inFlight, socketFd in p.readFds, socketFd in p.writeFds,
               p.cursor.Remaining('\n'), p.disk)
    }

    /** client_fsm_step on this descriptor; false when the process exits. */
    method Step(e: Event) returns (ok: bool)
      modifies this`state
      ensures ok == ClientFsm.Step(old(state), e).Some?
      ensures state == if ok then ClientFsm.Step(old(state), e).value else old(state)
    {
      var next := ClientFsm.Step(state, e);
      ok := next.Some?;
      if ok { state := next.value; }
    }

    /** Drop the mail at the head of the list. */
    method DropMail() returns (left: int)
      requires mails.Valid() && mails.nodes != [] && mails.Pending() != []
      modifies mails
      ensures mails.Valid() && mails.nodes == old(mails.nodes)[1..] && mails.nodes != []
      ensures mails.Pending() == old(mails.Pending())[1..] && left == |mails.Pending()|
    {
      ghost var values := mails.Values();
      var code := mails.RemoveFirst();
      assert mails.Pending() == values[1..][..|values| - 2] == values[..|values| - 1][1..];
      left := mails.Count();
    }

    /** A reply other than an error to a body: the mail is done. */
    method TakeBodyReply(p: Process, event: Event) returns (exits: bool, ghost removed: Option<string>)
      requires Valid(p) && state.SendBody? && event != EvError && mails.Pending() != []
      modifies this, mails
      ensures Valid(p) && socketFd == old(socketFd)
      ensures C.HandleRead(old(View(p)), event) == if exits then C.Exit else C.Live(AfterReply(p), removed)
    {
      removed := Some(mails.Pending()[0]);
      var left := DropMail();
      var ok;
      if left > 0 {
        ok := Step(EvMultipleEmails);
      } else {
        ok := Step(event);
      }
      inFlight := None;
      exits := !ok;
    }

    /** Any other reply. */
    method TakeOtherReply(p: Process, event: Event) returns (exits: bool)
      requires Valid(p) && !(state.SendBody? && event != EvError)
      modifies this
      ensures Valid(p) && socketFd == old(socketFd)
      ensures C.HandleRead(old(View(p)), event) == if exits then C.Exit else C.Live(AfterReply(p), None)
    {
      var ok := Step(event);
      if state.Init? || state.Done? {
        inFlight := None;
      }
      exits := !ok;
    }

    /** This descriptor once a reply was taken: about to write, unless its session
        is over. */
    ghost function AfterReply(p: Process): C.Client
      requires Valid(p)
      reads this, mails, mails.nodes, p, p.cursor
    {
      View(p).(reading := false, writing := !state.Init?)
    }

    /** handle_read_socket, after the reply was turned into an event. */
    method HandleReadSocket(p: Process, event: Event) returns (exits: bool, ghost removed: Option<string>)
      requires Valid(p) && socketFd != -1
      requires state.SendBody? ==> mails.Pending() != []
      modifies this, mails, p
      ensures !exits ==> Valid(p)
      ensures C.HandleRead(old(View(p)), event) == if exits then C.Exit else C.Live(View(p), removed)
      ensures p.readFds - {socketFd} == old(p.readFds) - {socketFd} && socketFd == old(socketFd)
      ensures p.writeFds - {socketFd} == old(p.writeFds) - {socketFd} && p.disk == old(p.disk)
    {
      if state.SendBody? && event != EvError {
        exits, removed := TakeBodyReply(p, event);
      } else {
        exits := TakeOtherReply(p, event);
        removed := None;
      }
      if !exits {
        ReplyInterest(p);
      }
    }

    /** After a reply the socket waits to be written, unless its session is over. */
    method ReplyInterest(p: Process)
      requires socketFd != -1
      modifies p
      ensures p.readFds == old(p.readFds) - {socketFd} && p.disk == old(p.disk)
      ensures p.writeFds == if state.Init? then old(p.writeFds) - {socketFd} else old(p.writeFds) + {socketFd}
    {
      if state.Init? {
        p.writeFds := p.writeFds - {socketFd};
      } else {
        p.writeFds := p.writeFds + {socketFd};
      }
      p.readFds := p.readFds - {socketFd};
    }

    /** send_msg_body: one write per remaining line, then the terminator. */
    method SendMsgBody(cursor: Strtok) returns (writes: seq<string>)
      requires cursor.Valid()
      modifies cursor
      ensures cursor.Valid() && cursor.Remaining('\n') == []
      ensures Concat(writes) == Print(Body(old(cursor.Remaining('\n'))))
    {
      ghost var all := Unlines(cursor.Remaining('\n'));
      writes := [];
      var token := cursor.Next('\n');
      while token.Some?
        invariant cursor.Valid()
        invariant token.Some? ==> Concat(writes) + Unlines([token.value] + cursor.Remaining('\n')) == all
        invariant token.None? ==> Concat(writes) == all && cursor.pos == |cursor.text|
        decreases token.Some?, |cursor.Remaining('\n')|
      {
        LineWritten(writes, token.value, cursor.Remaining('\n'), all);
        writes := writes + [token.value + "\n"];
        token := cursor.Next('\n');
      }
      cursor.AtEnd('\n');
      ConcatMore(writes, Pattern.TERMINATOR);
      writes := writes + [Pattern.TERMINATOR];
    }

    /** The mail at the head of the queue is read and renamed: strtok starts on its
        text, or goes on where it was when the file is not there. */
    method ReadMail(p: Process) returns (token: Option<string>)
      requires Valid(p) && mails.Pending() != []
      modifies p`disk, p.cursor
      ensures p.Valid() && p.disk == Take(old(p.disk), mails.Pending()[0])
      ensures var path := mails.Pending()[0];
              var tokens := if path in old(p.disk).files then Tokens(old(p.disk).files[path], '\n')
                            else old(p.cursor.Remaining('\n'));
              if token.None? then tokens == [] else tokens == [token.value] + p.cursor.Remaining('\n')
    {
      var path := mails.head.val;
      assert path == mails.Values()[0] == mails.Pending()[0];
      var files := p.disk.files;
      p.disk := Take(p.disk, path);
      if path in files {
        p.cursor.Start(files[path]);
        assert files[path][0..] == files[path];
      }
      token := p.cursor.Next('\n');
    }

    method SendMailFrom(p: Process, ghost host: string)
      returns (exits: bool, writes: seq<string>, ghost message: Option<Message>)
      requires Valid(p) && state.SendMailFrom? && mails.Pending() != []
      modifies this`inFlight, p`disk, p.cursor
      ensures Valid(p)
      ensures C.HandleWrite(old(View(p)).(reading := true, writing := true), host) ==
                if exits then C.Exit else C.Live(View(p).(reading := true, writing := false), message)
      ensures !exits ==> Concat(writes) == if message.Some? then Print(message.value) else ""
    {
      var token := ReadMail(p);
      if token.None? {
        return true, [], None;
      }
      exits, inFlight, message := false, Some(mails.Pending()[0]), Some(MailFrom(token.value));
      writes := ["MAIL FROM: <" + token.value + ">\n"];
      ConcatOne(writes[0]);
    }

    /** send_msg_to_server: the writes made in the current state. */
    method SendMsg(p: Process, host: string)
      returns (exits: bool, writes: seq<string>, ghost message: Option<Message>)
      requires Valid(p) && (state.SendMailFrom? ==> mails.Pending() != [])
      modifies this`inFlight, p`disk, p.cursor
      ensures Valid(p)
      ensures C.HandleWrite(old(View(p)).(reading := true, writing := true), host) ==
                if exits then C.Exit else C.Live(View(p).(reading := true, writing := false), message)
      ensures !exits ==> Concat(writes) == if message.Some? then Print(message.value) else ""
    {
      exits, writes, message := false, [], None;
      match state
      case SendHelo =>
        message := Some(Hello(host));
        writes := ["HELO " + host + "\n"];
        ConcatOne(writes[0]);
      case SendMailFrom =>
        exits, writes, message := SendMailFrom(p, host);
      case SendRcptTo =>
        var token := p.cursor.Next('\n');
        if token.None? {
          return true, [], None;
        }
        message := Some(RcptTo(token.value));
        writes := ["RCPT TO:<" + token.value + ">\n"];
        ConcatOne(writes[0]);
      case SendData =>
        message := Some(DataLine);
        writes := ["DATA\n"];
        ConcatOne(writes[0]);
      case SendBody =>
        message := Some(Body(p.cursor.Remaining('\n')));
        writes := SendMsgBody(p.cursor);
      case SendQuit =>
        message := Some(QuitLine);
        writes := ["QUIT\n"];
        ConcatOne(writes[0]);
      case _ =>
    }

    /** handle_write_socket. */
    method HandleWriteSocket(p: Process, host: string)
      returns (exits: bool, writes: seq<string>, ghost message: Option<Message>)
      requires Valid(p) && socketFd != -1 && socketFd in p.writeFds
      requires state.SendMailFrom? ==> mails.Pending() != []
      modifies this`inFlight, p, p.cursor
      ensures !exits ==> Valid(p)
      ensures C.HandleWrite(old(View(p)), host) == if exits then C.Exit else C.Live(View(p), message)
      ensures !exits ==> Concat(writes) == if message.Some? then Print(message.value) else ""
      ensures p.readFds - {socketFd} == old(p.readFds) - {socketFd}
      ensures p.writeFds - {socketFd} == old(p.writeFds) - {socketFd}
    {
      WritesAlike(View(p), host);
      exits, writes, message := SendMsg(p, host);
      if exits {
        return;
      }
      p.writeFds := p.writeFds - {socketFd};
      p.readFds := p.readFds + {socketFd};
    }

    /** init_mail_domain_conn_settings: the descriptor of the new connection, or
        none when it fails. */
    method InitConnection(p: Process, connection: Option<int>) returns (ok: bool)
      requires Valid(p)
      requires connection.Some? ==> connection.value != -1 && connection.value !in p.writeFds
      modifies this`state, this`socketFd, p`readFds
      ensures Valid(p)
      ensures C.Connected(old(View(p)), connection.Some?) == if ok then Some(View(p)) else None
    {
      ok := Step(EvOk);
      if !ok {
        return;
      }
      if connection.Some? {
        socketFd := connection.value;
        p.readFds := p.readFds + {connection.value};
      } else {
        ok := Step(EvError);
      }
    }

    /** register_new_email for the domain of this descriptor: the path is split,
        which uses up the cursor, and the mail joins the queue. */
    method Register(p: Process, path: string, connection: Option<int>) returns (exits: bool, queued: bool)
      requires Valid(p)
      requires connection.Some? ==> connection.value != -1 && connection.value !in p.writeFds
      modifies this, mails, p`readFds, p.cursor
      ensures !exits ==> Valid(p)
      ensures MailName.KeyOf(path).None? ==> exits
      ensures MailName.KeyOf(path).Some? ==>
                C.Register(old(View(p)), path, connection.Some?) ==
                  if exits then C.Exit else C.Live(View(p), queued)
    {
      var key := MailName.GetKey(path, p.cursor);
      if key.None? {
        return true, false;
      }
      p.cursor.AtEnd('\n');
      ForgetsCursor(old(View(p)), path, connection.Some?);
      exits, queued := Join(p, path, connection);
    }

    method Join(p: Process, path: string, connection: Option<int>) returns (exits: bool, queued: bool)
      requires Valid(p) && p.cursor.Remaining('\n') == []
      requires connection.Some? ==> connection.value != -1 && connection.value !in p.writeFds
      modifies this, mails, p`readFds
      ensures !exits ==> Valid(p)
      ensures C.Register(old(View(p)), path, connection.Some?) ==
                if exits then C.Exit else C.Live(View(p), queued)
    {
      var n := mails.Count();
      if n == 0 || state.Init? {
        var ok := InitConnection(p, connection);
        if !ok {
          return true, false;
        }
      }
      queued := Enqueue(p, path);
      exits := false;
    }

    /** A domain in DONE keeps nothing; any other puts the mail first. */
    method Enqueue(p: Process, path: string) returns (queued: bool)
      requires Valid(p)
      modifies this`socketFd, mails, p`readFds
      ensures Valid(p) && queued == !state.Done?
      ensures View(p) == if queued then old(View(p)).(pending := [path] + old(mails.Pending()))
                         else old(View(p)).(reading := false, writing := false)
    {
      if state.Done? {
        p.readFds := p.readFds - {socketFd};
        socketFd := -1;
        return false;
      }
      ghost var pending := mails.Pending();
      mails.AddFirst(path);
      assert mails.Pending() == [path] + pending;
      return true;
    }
  }

  /** What a registration makes of a domain does not depend on the cursor. */
  lemma ForgetsCursor(c: C.Client, path: string, connects: bool)
    ensures C.Register(c, path, connects) == C.Register(c.(tokens := []), path, connects)
  {
  }

  /** The loop of register_new_email that looks for the domain of a mail; the last
      match is kept. */
  method FindDomain(names: seq<string>, name: string) returns (found: int)
    ensures FindLast(names, name) == if found < 0 then None else Some(found)
  {
    found := -1;
    var i := 0;
    while i < |names|
      invariant 0 <= i <= |names|
      invariant FindLast(names[..i], name) == if found < 0 then None else Some(found)
    {
      assert names[..i + 1][..i] == names[..i];
      if names[i] == name {
        found := i;
      }
      i := i + 1;
    }
    assert names[..|names|] == names;
  }
}
