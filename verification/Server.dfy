/** The server's protocol loop and its handlers on mutable connections. */
module Server {
  import opened Text
  import opened Pattern
  import F = ServerFsm
  import opened Session
  import opened Stopwatch

  /** event_map */
  function EventOf(t: PatternType): F.Event
    requires 2 <= t.Left() <= 11
  {
    match t
    case PtQuit => F.EvQuit
    case PtRset => F.EvRset
    case PtVrfy => F.EvVrfy
    case PtHelo => F.EvHelo
    case PtEhlo => F.EvEhlo
    case PtMail => F.EvMail
    case PtRcpt => F.EvRcpt
    case PtData => F.EvData
    case PtDataEnd => F.EvDataEnd
    case PtDataRecv => F.EvDataRecv
  }

  /** A command without a transition in the present state is fatal. */
  lemma NoTransitionIsExit(c: Conn, command: Command, opens: bool)
    requires F.Step(c.state, EventOf(TypeOf(command))).None? && (command.DataRecv? ==> c.state.ExpectDataRecv?)
    ensures Receive(c, command, opens) == Exit(UndefinedTransition)
  {
  }

  class Connection {
    var recvBuf: string
    var sendBuf: string
    var state: F.State
    var oldState: F.State
    var letter: Option<Letter>
    const watch: Watch

    constructor (watch: Watch)
      ensures this.watch == watch
      ensures View() == Conn("", "", F.Init, F.Init, None, watch.tv1)
    {
      recvBuf, sendBuf := "", "";
      state, oldState := F.Init, F.Init;
      letter := None;
      this.watch := watch;
    }

    ghost function View(): Conn
      reads this, watch
    {
      Conn(recvBuf, sendBuf, state, oldState, letter, watch.tv1)
    }

    /** server_step on this connection; false when the machine exits. */
    method Step(e: F.Event) returns (ok: bool)
      modifies this`state
      ensures ok == F.Step(old(state), e).Some?
      ensures state == if ok then F.Step(old(state), e).value else old(state)
    {
      var next := F.Step(state, e);
      ok := next.Some?;
      if ok { state := next.value; }
    }

    method ProcessHelo()
      requires state.ProcessHelo? || state.ProcessEhlo?
      modifies this
      ensures View() == old(View()).(state := F.ExpectMail, sendBuf := R250_HELO)
    {
      var ok := Step(F.EvOk);
      sendBuf := R250_HELO;
    }

    method ProcessMail(data: Option<string>)
      requires state.ProcessMail?
      modifies this
      ensures View() ==
                if data.None? then old(View()).(state := F.ExpectMail, sendBuf := R451)
                else old(View()).(state := F.ExpectRcpt, sendBuf := R250,
                                  letter := Some(Letter(data.value, "", "", "", "")))
    {
      if data.None? {
        var ok := Step(F.EvErr);
        sendBuf := R451;
      } else {
        var ok := Step(F.EvOk);
        letter := Some(Letter("", "", "", "", ""));
        letter := Some(letter.value.(mailFrom := data.value));
        sendBuf := R250;
      }
    }

    method ProcessRcpt(data: Option<string>) returns (fault: Option<Fault>)
      requires state.ProcessRcpt?
      modifies this
      ensures data.None? ==> fault == None && View() == old(View()).(state := F.ExpectRcpt, sendBuf := R501)
      ensures data.Some? ==>
                (fault == Some(NullPointer) <==> old(letter).None? || SplitAt(data.value).None?) &&
                (fault.None? ==>
                   View() == old(View()).(
                     state := F.ExpectData, sendBuf := R250,
                     letter := Some(old(letter).value.(rcptTo := data.value,
                                                       rcptUsername := SplitAt(data.value).value.0,
                                                       rcptDomain := SplitAt(data.value).value.1)))) &&
                (fault.Some? ==> fault.value.NullPointer?)
    {
      fault := None;
      if data.None? {
        var ok := Step(F.EvErr);
        sendBuf := R501;
      } else {
        var ok := Step(F.EvOk);
        if letter.None? {
          return Some(NullPointer);
        }
        letter := Some(letter.value.(rcptTo := data.value));
        var email := SplitAt(data.value);
        if email.None? {
          return Some(NullPointer);
        }
        letter := Some(letter.value.(rcptUsername := email.value.0));
        letter := Some(letter.value.(rcptDomain := email.value.1));
        sendBuf := R250;
      }
    }

    method ProcessData()
      requires state.ProcessData?
      modifies this
      ensures View() == old(View()).(state := F.ExpectDataRecv, sendBuf := R354)
    {
      var ok := Step(F.EvOk);
      sendBuf := R354;
    }

    method ProcessDataRecv(data: string, opens: bool) returns (fault: Option<Fault>, saved: seq<Letter>)
      requires state.ProcessDataRecv?
      modifies this
      ensures fault == if old(letter).None? then Some(NullPointer) else None
      ensures fault.None? && !HasSuffix(data, TERMINATOR) ==>
                saved == [] &&
                View() == old(View()).(state := F.ExpectDataRecv,
                                       letter := Some(WithChunk(old(letter).value, data)))
      ensures fault.None? && HasSuffix(data, TERMINATOR) ==>
                Alive(View(), saved) ==
                Save(old(View()).(letter := Some(WithChunk(old(letter).value, data))),
                     F.ProcessDataRecv, opens)
    {
      saved := [];
      if |data| >= 5 && data[|data| - 5..] == TERMINATOR {
        oldState := state;
        var ok := Step(F.EvOk);
        ok := Step(F.EvDataEnd);
        fault, saved := ProcessDataEnd(Some(data), opens);
        return;
      }
      if letter.None? {
        return Some(NullPointer), [];
      }
      letter := Some(letter.value.(body := letter.value.body + data));
      letter := Some(letter.value.(body := letter.value.body + CRLF));
      var ok := Step(F.EvOk);
      fault := None;
    }

    method ProcessDataEnd(data: Option<string>, opens: bool) returns (fault: Option<Fault>, saved: seq<Letter>)
      requires state.ProcessDataEnd?
      modifies this
      ensures fault == if old(letter).None? then Some(NullPointer) else None
      ensures fault.None? ==>
                var l := old(letter).value;
                var full := if data.Some? && data.value != "" then WithChunk(l, data.value) else l;
                Alive(View(), saved) ==
                Save(old(View()).(letter := Some(full)), old(oldState), opens)
    {
      saved := [];
      if letter.None? {
        return Some(NullPointer), [];
      }
      if data.Some? && |data.value| != 0 {
        letter := Some(letter.value.(body := letter.value.body + data.value));
        letter := Some(letter.value.(body := letter.value.body + CRLF));
      }
      if !opens {
        sendBuf := R554;
        state := F.Ready;
        return None, [];
      }
      saved := [letter.value];
      letter := None;
      sendBuf := R250_SAVED;
      var ok := Step(F.EvOk);
      fault := None;
    }

    method ProcessRset()
      requires state.ProcessRset?
      modifies this
      ensures View() == old(View()).(state := F.Ready, letter := None, sendBuf := R250)
    {
      letter := None;
      var ok := Step(F.EvOk);
      sendBuf := R250;
    }

    method ProcessVrfy()
      requires state.ProcessVrfy?
      modifies this
      ensures View() == old(View()).(state := old(oldState), sendBuf := R502)
    {
      state := oldState;
      sendBuf := R502;
    }

    method ProcessQuit()
      requires state.ProcessQuit?
      modifies this
      ensures View() == old(View()).(state := F.Disconnected, sendBuf := R221)
    {
      var ok := Step(F.EvOk);
      sendBuf := R221;
    }

    /** process_bind: run the handler of the processing state that the
        command's event led to. */
    method Dispatch(ghost command: Command, content: Option<string>, opens: bool)
      returns (fault: Option<Fault>, saved: seq<Letter>)
      requires Hands(command, content)
      requires F.Step(oldState, EventOf(TypeOf(command))) == Some(state)
      requires command.DataRecv? ==> oldState.ExpectDataRecv?
      modifies this
      ensures Receive(old(View()).(state := old(oldState)), command, opens) ==
                if fault.Some? then Exit(fault.value) else Alive(View(), saved)
    {
      fault, saved := None, [];
      match state
      case ProcessHelo => assert command.Helo?; ProcessHelo();
      case ProcessEhlo => assert command.Ehlo?; ProcessHelo();
      case ProcessMail => assert command.Mail?; ProcessMail(content);
      case ProcessRcpt => assert command.Rcpt?; fault := ProcessRcpt(content);
      case ProcessData => assert command.Data?; ProcessData();
      case ProcessDataEnd => assert command.DataEnd?; fault, saved := ProcessDataEnd(content, opens);
      case ProcessDataRecv => assert command.DataRecv?; fault, saved := ProcessDataRecv(recvBuf, opens);
      case ProcessVrfy => assert command.Vrfy?; ProcessVrfy();
      case ProcessRset => assert command.Rset?; ProcessRset();
      case ProcessQuit => assert command.Quit?; ProcessQuit();
      case _ => assert false;
    }

    /** What protocol_update does with a recognised input. */
    method Accept(t: PatternType, content: Option<string>, ghost command: Command, opens: bool)
      returns (fault: Option<Fault>, saved: seq<Letter>)
      requires t == TypeOf(command) && Hands(command, content)
      modifies this
      ensures Receive(old(View()), command, opens) ==
                if fault.Some? then Exit(fault.value) else Alive(View(), saved)
    {
      fault, saved := None, [];
      if t.PtEnd? || (t.PtDataRecv? && !state.ExpectDataRecv?) {
        sendBuf := R500;
      } else {
        oldState := state;
        var ok := Step(EventOf(t));
        if !ok {
          NoTransitionIsExit(old(View()), command, opens);
          return Some(UndefinedTransition), [];
        }
        fault, saved := Dispatch(command, content, opens);
        assert old(View()).(oldState := oldState).state == old(state);
      }
    }

    /** The greeting of a new connection and the check of its watch. */
    method GreetAndExpire(now: TimeVal)
      requires Normal(watch.tv1) && Normal(now)
      modifies this
      ensures View() == Expire(Greet(old(View())), now)
    {
      if state.Init? {
        oldState := state;
        var ok := Step(F.EvConnect);
        oldState := state;
        ok := Step(F.EvOk);
        sendBuf := R220;
      }
      var ms := watch.Elapsed(now);
      if ms > CONN_TIMEOUT {
        oldState := state;
        state := F.Disconnected;
        sendBuf := R421_TIMEOUT;
      }
    }

    /** The part of protocol_update that deals with one connection. */
    method Update(env: Env) returns (fault: Option<Fault>, saved: seq<Letter>)
      requires Normal(watch.tv1) && Normal(env.restart) && Normal(env.now)
      modifies this, watch
      ensures Normal(watch.tv1)
      ensures Pass(old(View()), env) == if fault.Some? then Exit(fault.value) else Alive(View(), saved)
    {
      fault, saved := None, [];
      if recvBuf != "" {
        var t, content := FirstMatch(recvBuf);
        fault, saved := Accept(t, content, Classify(recvBuf), env.opens);
        if fault.Some? {
          return;
        }
        recvBuf := "";
        watch.Start(env.restart);
      }
      GreetAndExpire(env.now);
    }
  }

  /** What its pass makes of a slot; nothing, of an empty one. */
  ghost function OutcomeOf(slot: Option<Conn>, env: Env): Outcome {
    if slot.None? then Alive(Conn("", "", F.Init, F.Init, None, TimeVal(0, 0)), []) else Pass(slot.value, env)
  }

  ghost function Outcomes(table: seq<Option<Conn>>, envs: seq<Env>): (os: seq<Outcome>)
    requires |table| == |envs|
    ensures |os| == |table|
  {
    if table == [] then []
    else
      var n := |table| - 1;
      Outcomes(table[..n], envs[..n]) + [OutcomeOf(table[n], envs[n])]
  }

  lemma {:induction false} OutcomeAt(table: seq<Option<Conn>>, envs: seq<Env>, i: nat)
    requires i < |table| == |envs|
    ensures Outcomes(table, envs)[i] == OutcomeOf(table[i], envs[i])
  {
    var n := |table| - 1;
    if i >= n {
    } else {
      OutcomeAt(table[..n], envs[..n], i);
    }
  }

  /** The letters the first n slots save in one round. */
  ghost function SavedBy(os: seq<Outcome>, n: nat): seq<Letter>
    requires n <= |os|
  {
    if n == 0 then [] else SavedBy(os, n - 1) + SavedIn(os[n - 1])
  }

  ghost function SavedIn(o: Outcome): seq<Letter> {
    if o.Alive? then o.saved else []
  }

  /** The letters of a slot come right behind those of the slots before it. */
  lemma {:induction false} SavedInOrder(os: seq<Outcome>, i: nat, n: nat)
    requires i < n <= |os|
    ensures SavedBy(os, i) + (if os[i].Alive? then os[i].saved else []) <= SavedBy(os, n)
  {
    if i + 1 < n { SavedInOrder(os, i, n - 1); }
  }

  class ProtocolServer {
    const connections: array<Connection?>
    var store: seq<Letter>
    ghost var Repr: set<object>

    constructor (size: nat)
      ensures fresh(connections) && connections.Length == size
      ensures Valid() && store == [] && forall i :: 0 <= i < size ==> connections[i] == null
    {
      connections := new Connection?[size](_ => null);
      store, Repr := [], {};
    }

    /** No two slots share a connection or a watch. */
    ghost predicate Valid()
      reads this, connections, Repr
    {
      && connections !in Repr && this !in Repr
      && (forall i :: 0 <= i < connections.Length && connections[i] != null ==>
            connections[i] in Repr && connections[i].watch in Repr && Normal(connections[i].watch.tv1))
      && (forall i, j :: 0 <= i < j < connections.Length && connections[i] != null && connections[j] != null ==>
            connections[i] != connections[j] && connections[i].watch != connections[j].watch)
    }

    /** Every slot as a value: None for an empty one. */
    ghost function Views(): (vs: seq<Option<Conn>>)
      requires Valid()
      reads this, connections, Repr
      ensures |vs| == connections.Length
      ensures forall i :: 0 <= i < connections.Length ==>
                vs[i] == if connections[i] == null then None else Some(connections[i].View())
    {
      seq(connections.Length, i requires 0 <= i < connections.Length && Valid() reads this, connections, Repr =>
        if connections[i] == null then None else Some(connections[i].View()))
    }

    /** One turn of the loop: an empty slot is skipped. */
    method UpdateSlot(at: nat, env: Env) returns (fault: Option<Fault>, saved: seq<Letter>)
      requires Valid() && at < connections.Length && Normal(env.restart) && Normal(env.now)
      modifies Repr
      ensures Valid() && connections[..] == old(connections[..])
      ensures connections[at] != null ==>
                Pass(old(connections[at].View()), env) ==
                  if fault.Some? then Exit(fault.value) else Alive(connections[at].View(), saved)
      ensures connections[at] == null ==> fault == None && saved == []
      ensures forall i :: 0 <= i < connections.Length && i != at && connections[i] != null ==>
                connections[i].View() == old(connections[i].View())
    {
      fault, saved := None, [];
      if connections[at] != null {
        fault, saved := connections[at].Update(env);
      }
    }

    /** The first n slots have made their pass. */
    ghost predicate HavePassed(os: seq<Outcome>, n: nat)
      requires Valid() && |os| == connections.Length
      reads this, connections, Repr
    {
      forall i :: 0 <= i < n && i < connections.Length && connections[i] != null ==>
        os[i].Alive? && connections[i].View() == os[i].conn
    }

    /** The slots from n on are as they were. */
    ghost predicate AreWaiting(table: seq<Option<Conn>>, n: nat)
      requires Valid() && |table| == connections.Length
      reads this, connections, Repr
    {
      forall i :: n <= i < connections.Length && connections[i] != null ==>
        table[i] == Some(connections[i].View())
    }

    /** One turn of the loop in a round. */
    method NextSlot(at: nat, env: Env, ghost table: seq<Option<Conn>>, ghost os: seq<Outcome>)
      returns (fault: Option<Fault>, saved: seq<Letter>)
      requires Valid() && at < connections.Length && Normal(env.restart) && Normal(env.now)
      requires |table| == |os| == connections.Length && os[at] == OutcomeOf(table[at], env)
      requires table[at].Some? <==> connections[at] != null
      requires HavePassed(os, at) && AreWaiting(table, at)
      modifies Repr
      ensures Valid() && connections[..] == old(connections[..])
      ensures HavePassed(os, at) && AreWaiting(table, at + 1)
      ensures fault.Some? ==> connections[at] != null && os[at] == Exit(fault.value)
      ensures fault.None? ==> HavePassed(os, at + 1) && saved == SavedIn(os[at])
    {
      fault, saved := UpdateSlot(at, env);
    }

    /** The loop over the slots; the letters are those written to files. */
    method PassSlots(envs: seq<Env>, ghost table: seq<Option<Conn>>, ghost os: seq<Outcome>)
      returns (fault: Option<Fault>, at: nat, letters: seq<Letter>)
      requires Valid() && |envs| == connections.Length && table == Views() && os == Outcomes(table, envs)
      requires forall i :: 0 <= i < |envs| ==> Normal(envs[i].restart) && Normal(envs[i].now)
      modifies Repr
      ensures Valid() && connections[..] == old(connections[..]) && at <= connections.Length
      ensures HavePassed(os, at) && AreWaiting(table, at + 1) && letters == SavedBy(os, at)
      ensures fault.None? ==> at == connections.Length
      ensures fault.Some? ==> at < connections.Length && connections[at] != null && os[at] == Exit(fault.value)
    {
      at, letters := 0, [];
      while at < connections.Length
        invariant 0 <= at <= connections.Length
        invariant Valid() && connections[..] == old(connections[..])
        invariant HavePassed(os, at) && AreWaiting(table, at)
        invariant letters == SavedBy(os, at)
      {
        var saved;
        OutcomeAt(table, envs, at);
        assert table[at].Some? <==> connections[at] != null;
        fault, saved := NextSlot(at, envs[at], table, os);
        if fault.Some? {
          return;
        }
        letters := letters + saved;
        at := at + 1;
      }
      fault := None;
    }

    /** protocol_update: one round over the whole table. Each connection makes
        its own pass, untouched by the others, and the letters reach the store
        in slot order; a slot whose pass is fatal ends the process there, before
        any later slot is touched. */
    method ProtocolUpdate(envs: seq<Env>) returns (fault: Option<Fault>, at: nat)
      requires Valid() && |envs| == connections.Length
      requires forall i :: 0 <= i < |envs| ==> Normal(envs[i].restart) && Normal(envs[i].now)
      modifies this`store, Repr
      ensures Valid() && connections[..] == old(connections[..])
      ensures var os := Outcomes(old(Views()), envs);
              && (fault.None? ==> at == connections.Length)
              && (fault.Some? ==>
                    at < connections.Length && connections[at] != null && os[at] == Exit(fault.value))
              && HavePassed(os, at) && AreWaiting(old(Views()), at + 1)
              && store == old(store) + SavedBy(os, at)
    {
      ghost var table := Views();
      var letters;
      fault, at, letters := PassSlots(envs, table, Outcomes(table, envs));
      store := store + letters;
    }
  }
}
