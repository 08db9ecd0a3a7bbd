/** End-to-end delivery: every step keeps the joint invariant and uses up one of
    the steps left, and only the finished session has no next step. */
module Delivery {
  import opened Text
  import opened Pattern
  import opened Commands
  import opened Conversation
  import S = Session
  import F = ServerFsm
  import W = Stopwatch
  import C = Client
  import G = ClientFsm
  import L = ClientLanguage
  import opened Disks

  // The server's turn.

  predicate IsPositive(reply: string) {
    reply != "" && C.CheckServerCode(reply) == G.EvOk
  }

  lemma PositiveReplies()
    ensures IsPositive(S.R220) && IsPositive(S.R221) && IsPositive(S.R250) && IsPositive(S.R250_HELO)
    ensures IsPositive(S.R250_SAVED) && IsPositive(S.R354)
  {
    assert S.R354[0] == '3' && S.R354[1] == '5' && S.R354[2] == '4';
    C.PositiveIff(S.R220);
    C.PositiveIff(S.R221);
    C.PositiveIff(S.R250);
    C.PositiveIff(S.R250_HELO);
    C.PositiveIff(S.R250_SAVED);
    C.PositiveIff(S.R354);
  }

  /** Commands the server takes in the phase that awaits them. */
  lemma TakesCommand(c: S.Conn, command: Command, env: S.Env, t: seq<string>, i: nat)
    requires c.recvBuf != "" && InTime(c, env) && |t| >= 2 && SplitAt(t[1]).Some? && i < 3
    requires AwaitsMail(c.(recvBuf := ""), t, i)
    requires command == if i == 0 then Mail(t[0]) else if i == 1 then Rcpt(t[1]) else Data
    ensures var o := S.PassOn(c, command, env);
            && o.Alive? && o.saved == [] && AwaitsMail(o.conn, t, i + 1) && o.conn.recvBuf == ""
            && o.conn.sendBuf == if i < 2 then S.R250 else S.R354
  {
  }

  lemma TakesOther(c: S.Conn, command: Command, env: S.Env)
    requires c.recvBuf != "" && InTime(c, env)
    requires (command.Helo? && c.state.Ready?) || (command.Quit? && c.state.ExpectMail?)
    ensures var o := S.PassOn(c, command, env);
            && o.Alive? && o.saved == [] && o.conn.recvBuf == ""
            && (command.Helo? ==> o.conn.state.ExpectMail? && o.conn.sendBuf == S.R250_HELO)
            && (command.Quit? ==> o.conn.state.Disconnected? && o.conn.sendBuf == S.R221)
  {
  }

  lemma TakesConnection(c: S.Conn, env: S.Env)
    requires c.recvBuf == "" && c.state.Init? && InTime(c, env)
    ensures var o := S.Pass(c, env);
            o.Alive? && o.saved == [] && o.conn.recvBuf == "" && o.conn.state.Ready? && o.conn.sendBuf == S.R220
  {
  }

  lemma PassHears(c: S.Conn, command: Command, env: S.Env)
    requires Classify(c.recvBuf) == command
    ensures S.Pass(c, env) == S.PassOn(c, command, env)
  {
  }

  lemma RecipientSplits(plan: Plan, j: nat)
    requires Deliverable(plan) && j < |plan.paths|
    ensures var t := plan.texts[j];
            IsArgument(t[0]) && IsArgument(t[1]) && SplitAt(t[1]).Some?
  {
    LinesOf(plan, j);
    EmailSplit(plan.texts[j][1]);
  }

  /** The server's answer to the commands of a mail. */
  lemma ServerTakes(c: S.Conn, env: S.Env, t: seq<string>, i: nat)
    requires |t| >= 2 && i < 3 && InTime(c, env) && IsArgument(t[0]) && IsArgument(t[1]) && SplitAt(t[1]).Some?
    requires c.recvBuf == Print(L.Command(t, i)) && AwaitsMail(c.(recvBuf := ""), t, i)
    ensures var o := S.Pass(c, env);
            && o.Alive? && o.saved == [] && AwaitsMail(o.conn, t, i + 1) && o.conn.recvBuf == ""
            && o.conn.sendBuf == if i < 2 then S.R250 else S.R354
  {
    MailRoundTrip(t[0]);
    RcptRoundTrip(t[1]);
    DataRoundTrip();
    var command := if i == 0 then Mail(t[0]) else if i == 1 then Rcpt(t[1]) else Data;
    PassHears(c, command, env);
    TakesCommand(c, command, env, t, i);
  }

  /** The server's answer to any message but a body. */
  lemma ServerAnswers(c: S.Conn, env: S.Env, plan: Plan, host: string, p: L.Place)
    requires Deliverable(plan) && IsArgument(host) && plan.paths != [] && L.IsPlace(|plan.paths|, p)
    requires !p.Over? && !(p.InMail? && p.command == 3)
    requires c.recvBuf == (if p.Connected? then "" else Print(L.Said(plan, host, p)[0])) && InTime(c, env)
    requires Awaits(c.(recvBuf := ""), plan, p)
    ensures var o := S.Pass(c, env);
            && o.Alive? && o.saved == [] && IsPositive(o.conn.sendBuf)
            && Awaits(o.conn.(sendBuf := ""), plan, L.Next(|plan.paths|, p))
  {
    PositiveReplies();
    match p
    case Connected => TakesConnection(c, env);
    case Greeted =>
      HeloRoundTrip(host);
      PassHears(c, Classify(c.recvBuf), env);
      TakesOther(c, Classify(c.recvBuf), env);
      RecipientSplits(plan, 0);
    case Leaving =>
      QuitRoundTrip();
      PassHears(c, Quit, env);
      TakesOther(c, Quit, env);
    case InMail(j, i) =>
      RecipientSplits(plan, j);
      ServerTakes(c, env, plan.texts[j], i);
  }

  lemma TurnPlain(
      w: World, w': World, env: S.Env, plan: Plan, host: string, p: L.Place)
    requires Deliverable(plan) && IsArgument(host) && plan.paths != [] && L.IsPlace(|plan.paths|, p)
    requires Sent(w, plan, host, p) && !(p.InMail? && p.command == 3)
    requires ServerTurnIn(w, w', env)
    ensures Replied(w', plan, p)
  {
    var c := w.server.(recvBuf := if w.toServer == [] then "" else w.toServer[0]);
    assert c.(recvBuf := "") == w.server;
    ServerAnswers(c, env, plan, host, p);
  }

  /** A buffer of the body that is not the last. */
  lemma {:induction false} TakesChunk(c: S.Conn, env: S.Env, t: seq<string>, read: seq<string>)
    requires InTime(c, env) && c.recvBuf != "" && |t| >= 2 && InBody(c.(recvBuf := ""), t, read)
    requires Classify(c.recvBuf) == DataRecv && !HasSuffix(c.recvBuf, TERMINATOR)
    ensures var o := S.Pass(c, env);
            o.Alive? && o.saved == [] && o.conn.sendBuf == "" && InBody(o.conn, t, read + [c.recvBuf])
  {
    PassHears(c, DataRecv, env);
    assert (read + [c.recvBuf])[..|read|] == read;
  }

  lemma KeptOf(read: seq<string>, last: string)
    ensures Kept(read + [last]) == if Classify(last) == DataEnd then Fold(read) else Fold(read) + last + CRLF
  {
    assert (read + [last])[..|read|] == read;
  }

  /** The last buffer of the body. */
  lemma {:induction false} TakesEnd(c: S.Conn, env: S.Env, t: seq<string>, read: seq<string>)
    requires InTime(c, env) && c.recvBuf != "" && |t| >= 2 && InBody(c.(recvBuf := ""), t, read)
    requires IsEnd(c.recvBuf)
    ensures var o := S.Pass(c, env);
            && o.Alive? && o.saved == [EnvelopeOf(t).(body := Kept(read + [c.recvBuf]))]
            && o.conn.sendBuf == S.R250_SAVED && o.conn.recvBuf == "" && o.conn.state.ExpectMail?
  {
    if HasSuffix(c.recvBuf, TERMINATOR) { TerminatedIsData(c.recvBuf); }
    KeptOf(read, c.recvBuf);
    PassHears(c, Classify(c.recvBuf), env);
  }

  lemma SameDelivered(l: S.Letter, l': S.Letter, t: seq<string>, chunks: seq<string>)
    requires |t| >= 2 && IsDelivered(l, t, chunks) && l == l'
    ensures IsDelivered(l', t, chunks)
  {
  }

  lemma OneMoreDelivered(w: World, w': World, plan: Plan, k: nat, l: S.Letter, i: nat)
    requires IsWhole(plan) && i <= k < |plan.paths| && k < |w.splits|
    requires Delivered(w, plan, k) && w'.store == w.store + [l]
    requires IsDelivered(l, plan.texts[k], w.splits[k])
    ensures IsDelivered(w'.store[i], plan.texts[i], w.splits[i])
  {
    if i < k {
      SameDelivered(w.store[i], w'.store[i], plan.texts[i], w.splits[i]);
    } else {
      SameDelivered(l, w'.store[i], plan.texts[i], w.splits[i]);
    }
  }

  lemma {:induction false} StoreGrows(w: World, w': World, plan: Plan, k: nat, l: S.Letter)
    requires IsWhole(plan) && k < |plan.paths|
    requires Delivered(w, plan, k) && k < |w.splits| && w'.splits == w.splits && w'.store == w.store + [l]
    requires IsDelivered(l, plan.texts[k], w.splits[k])
    ensures Delivered(w', plan, k + 1)
  {
    forall i: nat | i < k + 1 ensures IsDelivered(w'.store[i], plan.texts[i], w.splits[i]) {
      OneMoreDelivered(w, w', plan, k, l, i);
    }
  }

  /** The buffers of body j that are read, one more than are read in w. */
  function ReadNext(w: World, j: nat): seq<string>
    requires j < |w.splits| && 0 < |w.toServer| <= |w.splits[j]|
  {
    w.splits[j][..|w.splits[j]| - |w.toServer| + 1]
  }

  lemma {:induction false} BodyAdvances(w: World, w': World, t: seq<string>, j: nat)
    requires |t| >= 2 && BodySent(w, t, j) && |w.toServer| > 1
    requires w'.splits == w.splits && w'.toServer == w.toServer[1..] && InBody(w'.server, t, ReadNext(w, j))
    ensures BodySent(w', t, j)
  {
    var chunks := w.splits[j];
    var i := |chunks| - |w.toServer|;
    CutAt(chunks, i);
    assert BodySentFrom(w', t, chunks, i + 1);
  }

  lemma CutAt(chunks: seq<string>, i: nat)
    requires i < |chunks|
    ensures chunks[i..][0] == chunks[i] && chunks[i..][1..] == chunks[i + 1..]
    ensures chunks[..i] + [chunks[i]] == chunks[..i + 1]
  {
  }

  /** A pass over a buffer of the body that is not the last. */
  lemma {:induction false} ChunkPasses(w: World, env: S.Env, t: seq<string>, j: nat)
    requires |t| >= 2 && BodySent(w, t, j) && |w.toServer| > 1 && InTime(w.server.(recvBuf := w.toServer[0]), env)
    ensures var o := S.Pass(w.server.(recvBuf := w.toServer[0]), env);
            o.Alive? && o.saved == [] && o.conn.sendBuf == "" && InBody(o.conn, t, ReadNext(w, j))
  {
    var chunks := w.splits[j];
    var i := |chunks| - |w.toServer|;
    var chunk := w.toServer[0];
    CutAt(chunks, i);
    MiddleAt(chunks, Print(Body(t[2..])), i);
    var c := w.server.(recvBuf := chunk);
    assert c.(recvBuf := "") == w.server;
    TakesChunk(c, env, t, chunks[..i]);
  }

  lemma MiddleAt(chunks: seq<string>, text: string, i: nat)
    requires IsSplit(chunks, text) && i < |chunks| - 1
    ensures chunks[i] != "" && IsMiddle(chunks[i])
  {
  }

  lemma {:induction false} ChunkRead(w: World, w': World, env: S.Env, t: seq<string>, j: nat)
    requires |t| >= 2 && BodySent(w, t, j) && |w.toServer| > 1 && ServerTurnIn(w, w', env)
    ensures w' == w.(server := w'.server, toServer := w.toServer[1..], toClient := "") && BodySent(w', t, j)
  {
    ChunkPasses(w, env, t, j);
    BodyAdvances(w, w', t, j);
  }

  lemma TurnChunk(w: World, w': World, env: S.Env, plan: Plan, host: string, j: nat)
    requires Deliverable(plan) && j < |plan.paths| && |w.toServer| > 1
    requires Sent(w, plan, host, L.InMail(j, 3)) && ServerTurnIn(w, w', env)
    ensures Sent(w', plan, host, L.InMail(j, 3)) && |w'.toServer| == |w.toServer| - 1
  {
    ChunkRead(w, w', env, plan.texts[j], j);
    SplitsGrow(w, w', plan, j);
  }

  lemma AwaitsAfterMail(c: S.Conn, plan: Plan, j: nat)
    requires Deliverable(plan) && j < |plan.paths|
    requires c.recvBuf == "" && c.sendBuf == "" && c.state.ExpectMail?
    ensures Awaits(c, plan, L.Next(|plan.paths|, L.InMail(j, 3)))
  {
    if j + 1 < |plan.paths| { RecipientSplits(plan, j + 1); }
  }

  lemma SavedIsPositive()
    ensures IsPositive(S.R250_SAVED)
  {
    PositiveReplies();
  }

  /** The server has stored the mail and says so. */
  ghost predicate Stores(w: World, w': World, l: S.Letter) {
    && w' == w.(server := w'.server, toServer := [], toClient := S.R250_SAVED, store := w.store + [l])
    && w'.server.recvBuf == "" && w'.server.sendBuf == "" && w'.server.state.ExpectMail?
  }

  lemma {:induction false} EndStores(w: World, w': World, env: S.Env, t: seq<string>, j: nat)
    requires |t| >= 2 && BodySent(w, t, j) && |w.toServer| == 1 && ServerTurnIn(w, w', env)
    ensures Stores(w, w', EnvelopeOf(t).(body := Kept(w.splits[j])))
  {
    var chunks := w.splits[j];
    var i := |chunks| - 1;
    var c := w.server.(recvBuf := w.toServer[0]);
    assert c.(recvBuf := "") == w.server && w.toServer[0] == chunks[i];
    assert chunks[..i] + [chunks[i]] == chunks;
    TakesEnd(c, env, t, chunks[..i]);
  }

  lemma RepliedAfterBody(w: World, w': World, plan: Plan, host: string, j: nat)
    requires Deliverable(plan) && j < |plan.paths|
    requires Sent(w, plan, host, L.InMail(j, 3))
    requires Stores(w, w', EnvelopeOf(plan.texts[j]).(body := Kept(w.splits[j])))
    ensures Replied(w', plan, L.InMail(j, 3))
  {
    StoreGrows(w, w', plan, j, EnvelopeOf(plan.texts[j]).(body := Kept(w.splits[j])));
    SavedIsPositive();
    AwaitsAfterMail(w'.server, plan, j);
  }

  lemma TurnEnd(w: World, w': World, env: S.Env, plan: Plan, host: string, j: nat)
    requires Deliverable(plan) && j < |plan.paths| && |w.toServer| == 1
    requires Sent(w, plan, host, L.InMail(j, 3)) && ServerTurnIn(w, w', env)
    ensures Replied(w', plan, L.InMail(j, 3))
  {
    EndStores(w, w', env, plan.texts[j], j);
    RepliedAfterBody(w, w', plan, host, j);
  }

  // The client's turn.

  /** Reading a positive reply and writing the next message, one by one. */
  lemma ReadThenWrite(plan: Plan, host: string, p: L.Place)
    requires IsWhole(plan) && plan.paths != [] && L.IsPlace(|plan.paths|, p) && !p.Over?
    ensures var r := C.HandleRead(L.At(plan, p), G.EvOk);
            var q := L.Next(|plan.paths|, p);
            && r.Live?
            && (q.Over? ==> r.client == C.Fresh([], plan.disks[|plan.paths|]))
            && (!q.Over? ==> r.client.writing && !r.client.reading && |L.Said(plan, host, q)| == 1)
            && (!q.Over? ==> C.HandleWrite(r.client, host) ==
                             C.Live(L.At(plan, q), Some(L.Said(plan, host, q)[0])))
  {
    L.StepOk(plan, host, p);
  }

  lemma Reads(w: World, w': World, plan: Plan, host: string, p: L.Place)
    requires IsWhole(plan) && plan.paths != [] && L.IsPlace(|plan.paths|, p)
    requires Replied(w, plan, p) && ClientReads(w, w')
    ensures if p.Leaving? then Finished(w', plan) else Writing(w', plan, p)
  {
    ReadThenWrite(plan, host, p);
  }

  lemma {:induction false} SplitIsShort(chunks: seq<string>)
    requires forall i :: 0 <= i < |chunks| ==> chunks[i] != ""
    ensures |chunks| <= |Concat(chunks)|
  {
    if chunks == [] {
    } else {
      SplitIsShort(chunks[1..]);
    }
  }

  lemma SplitsGrow(w: World, w': World, plan: Plan, k: nat)
    requires IsWhole(plan) && k <= |plan.paths|
    requires Delivered(w, plan, k) && w'.store == w.store && w.splits <= w'.splits
    ensures Delivered(w', plan, k)
  {
  }

  /** A world in which the message of a place has just been written. */
  ghost predicate Begins(w: World, w': World, plan: Plan, host: string, q: L.Place, chunks: seq<string>)
    requires IsWhole(plan) && L.IsPlace(|plan.paths|, q) && |L.Said(plan, host, q)| == 1
  {
    var m := Some(L.Said(plan, host, q)[0]);
    && !w.exited && w.toServer == [] && w.toClient == "" && Quiet(w, plan, q)
    && Delivers(chunks, m) && w' == Sends(w, L.At(plan, q), m, chunks)
  }

  lemma BeginsPlain(w: World, w': World, plan: Plan, host: string, q: L.Place, chunks: seq<string>)
    requires Deliverable(plan) && L.IsPlace(|plan.paths|, q) && |L.Said(plan, host, q)| == 1
    requires Begins(w, w', plan, host, q, chunks) && !(q.InMail? && q.command == 3)
    ensures Sent(w', plan, host, q) && |w'.toServer| == 1
  {
    SplitsGrow(w, w', plan, Through(|plan.paths|, q));
  }

  lemma BeginsBody(w: World, w': World, plan: Plan, host: string, j: nat, chunks: seq<string>)
    requires Deliverable(plan) && j < |plan.paths| && Begins(w, w', plan, host, L.InMail(j, 3), chunks)
    ensures Sent(w', plan, host, L.InMail(j, 3))
    ensures |w'.toServer| <= |Print(Body(plan.texts[j][2..]))|
  {
    SplitsGrow(w, w', plan, j);
    SplitIsShort(chunks);
    assert w'.toServer == chunks == w'.splits[j][0..];
    assert chunks[..0] == [];
  }

  lemma Writes(w: World, w': World, plan: Plan, host: string, p: L.Place)
    requires Deliverable(plan) && plan.paths != [] && L.IsPlace(|plan.paths|, p)
    requires Writing(w, plan, p) && ClientWrites(w, w', host)
    ensures var q := L.Next(|plan.paths|, p);
            && Sent(w', plan, host, q) && !q.Connected?
            && |w'.toServer| + 2 <= Cost(plan, host, q)
  {
    var q := L.Next(|plan.paths|, p);
    ReadThenWrite(plan, host, p);
    var m := L.Said(plan, host, q)[0];
    var chunks :| Delivers(chunks, Some(m)) && w' == Sends(w, L.At(plan, q), Some(m), chunks);
    assert Begins(w, w', plan, host, q, chunks);
    if q.InMail? && q.command == 3 {
      BeginsBody(w, w', plan, host, q.mail, chunks);
    } else {
      BeginsPlain(w, w', plan, host, q, chunks);
    }
  }

  // Every step, every run.

  lemma ServerKeeps(
      w: World, w': World, plan: Plan, host: string, p: L.Place, m: int)
    requires Deliverable(plan) && IsArgument(host) && plan.paths != [] && L.IsPlace(|plan.paths|, p)
    requires InvAt(w, plan, host, p, m) && ServerTurn(w, w')
    ensures InvAt(w', plan, host, p, m - 1)
  {
    var env: S.Env :| ServerTurnIn(w, w', env);
    assert Sent(w, plan, host, p) by { NoIdleTurn(w, plan, host, p); }
    if p.InMail? && p.command == 3 {
      if |w.toServer| > 1 {
        TurnChunk(w, w', env, plan, host, p.mail);
      } else {
        TurnEnd(w, w', env, plan, host, p.mail);
      }
    } else {
      TurnPlain(w, w', env, plan, host, p);
    }
  }

  /** The server has something to do only while a message is on its way. */
  lemma NoIdleTurn(w: World, plan: Plan, host: string, p: L.Place)
    requires IsWhole(plan) && plan.paths != [] && L.IsPlace(|plan.paths|, p)
    requires w.toServer != [] || w.server.state.Init?
    ensures !Replied(w, plan, p) && !Writing(w, plan, p)
  {
    var q := L.Next(|plan.paths|, p);
    assert !q.Connected?;
  }

  /** The client and the server are never both to move. */
  lemma ClientOrServer(w: World, plan: Plan, host: string, p: L.Place)
    requires IsWhole(plan) && plan.paths != [] && L.IsPlace(|plan.paths|, p)
    ensures Sent(w, plan, host, p) ==> w.client.reading && !w.client.writing && w.toClient == ""
    ensures Replied(w, plan, p) ==> w.client.reading && !w.client.writing && w.toClient != ""
    ensures Writing(w, plan, p) ==> !w.client.reading && w.client.writing && w.toClient == ""
  {
    if !p.Over? { ReadThenWrite(plan, host, p); }
  }

  /** One step: the invariant is kept with one step less to go. */
  lemma StepKeeps(w: World, w': World, plan: Plan, host: string, m: int)
    requires Deliverable(plan) && IsArgument(host) && plan.paths != []
    requires Inv(w, plan, host, m) && Next(w, w', host)
    ensures m > 0 && Inv(w', plan, host, m - 1)
  {
    if Finished(w, plan) {
      assert false;
    } else {
      var p: L.Place :| L.IsPlace(|plan.paths|, p) && InvAt(w, plan, host, p, m);
      ClientOrServer(w, plan, host, p);
      if ServerTurn(w, w') {
        ServerKeeps(w, w', plan, host, p, m);
      } else if ClientReads(w, w') {
        Reads(w, w', plan, host, p);
      } else {
        Writes(w, w', plan, host, p);
      }
    }
  }

  lemma StartHolds(plan: Plan, host: string, accepted: W.TimeVal)
    requires IsWhole(plan) && plan.paths != []
    ensures Inv(Start(plan, accepted), plan, host, Longest(plan, host))
  {
    var w := Start(plan, accepted);
    assert Sent(w, plan, host, L.Connected);
    assert InvAt(w, plan, host, L.Connected, Longest(plan, host));
  }

  /** The length of the longest session. */
  function Longest(plan: Plan, host: string): nat
    requires IsWhole(plan) && plan.paths != []
  {
    Future(plan, host, L.Connected) + 2
  }

  /** There is always a pass of the server that is in time. */
  lemma ServerCanMove(w: World)
    requires w.toServer != [] || w.server.state.Init?
    ensures exists w' :: ServerTurn(w, w')
  {
    var c := w.server.(recvBuf := if w.toServer == [] then "" else w.toServer[0]);
    var env := S.Env(w.server.watch, w.server.watch, true);
    var o := S.Pass(c, env);
    var w' := if o.Exit? then w.(exited := true)
              else w.(server := o.conn.(sendBuf := ""), toClient := o.conn.sendBuf,
                      toServer := if w.toServer == [] then [] else w.toServer[1..],
                      store := w.store + o.saved);
    assert InTime(c, env);
    assert ServerTurnIn(w, w', env);
    assert ServerTurn(w, w');
  }

  lemma WholeBodyIsSplit(lines: seq<string>)
    ensures IsSplit([Print(Body(lines))], Print(Body(lines)))
  {
    var s := Print(Body(lines));
    assert s[|s| - 5..] == TERMINATOR;
    assert Concat([s]) == s + Concat([]);
  }

  lemma ClientCanWrite(w: World, host: string)
    requires w.client.writing
    ensures exists w' :: ClientWrites(w, w', host)
  {
    var o := C.HandleWrite(w.client, host);
    if o.Exit? {
      assert ClientWrites(w, w.(exited := true), host);
    } else {
      var chunks := if o.value.None? then [] else [Print(o.value.value)];
      if o.value.Some? && o.value.value.Body? { WholeBodyIsSplit(o.value.value.lines); }
      assert Delivers(chunks, o.value);
      assert ClientWrites(w, Sends(w, o.client, o.value, chunks), host);
    }
  }

  lemma ClientCanRead(w: World)
    requires w.client.reading && w.toClient != ""
    ensures exists w' :: ClientReads(w, w')
  {
    var o := C.HandleRead(w.client, C.CheckServerCode(w.toClient));
    assert ClientReads(w, if o.Exit? then w.(exited := true) else w.(client := o.client, toClient := ""));
  }

  /** Only the finished session has no next step. */
  lemma StuckIffFinished(w: World, plan: Plan, host: string, m: int)
    requires IsWhole(plan) && plan.paths != [] && Inv(w, plan, host, m)
    ensures Finished(w, plan) <==> !exists w' :: Next(w, w', host)
  {
    if !Finished(w, plan) {
      var p: L.Place :| L.IsPlace(|plan.paths|, p) && InvAt(w, plan, host, p, m);
      ClientOrServer(w, plan, host, p);
      if Sent(w, plan, host, p) {
        ServerCanMove(w);
        var w' :| ServerTurn(w, w');
        assert Next(w, w', host);
      } else if w.client.writing {
        ClientCanWrite(w, host);
        var w' :| ClientWrites(w, w', host);
        assert Next(w, w', host);
      } else {
        ClientCanRead(w);
        var w' :| ClientReads(w, w');
        assert Next(w, w', host);
      }
    }
  }

  ghost predicate IsTrace(
      trace: seq<World>, plan: Plan, host: string, accepted: W.TimeVal)
    requires IsPlan(plan)
  {
    && trace != [] && trace[0] == Start(plan, accepted)
    && forall i :: 0 <= i < |trace| - 1 ==> Next(trace[i], trace[i + 1], host)
  }

  lemma {:induction false} TraceKeeps(
      trace: seq<World>, i: nat, plan: Plan, host: string, accepted: W.TimeVal)
    requires Deliverable(plan) && IsArgument(host) && plan.paths != []
    requires IsTrace(trace, plan, host, accepted) && i < |trace|
    ensures Inv(trace[i], plan, host, Longest(plan, host) - i)
  {
    if i == 0 {
      StartHolds(plan, host, accepted);
    } else {
      TraceKeeps(trace, i - 1, plan, host, accepted);
      assert Next(trace[i - 1], trace[i - 1 + 1], host);
      StepKeeps(trace[i - 1], trace[i], plan, host, Longest(plan, host) - (i - 1));
    }
  }

  /** End-to-end delivery. From n >= 1 queued mails and a fresh connection, every
      run, whatever the network and the clock do within the assumptions, has a
      bounded length; it cannot stop before the client is back at INIT with an
      empty queue and the server disconnected; and then the store holds exactly
      the n mails, in queue order, each under its own sender and recipient, with
      the body its buffers made. No process exits on the way. */
  lemma EveryRunDelivers(
      trace: seq<World>, plan: Plan, host: string, accepted: W.TimeVal)
    requires Deliverable(plan) && IsArgument(host) && plan.paths != []
    requires IsTrace(trace, plan, host, accepted)
    ensures |trace| <= Longest(plan, host) + 1
    ensures forall i :: 0 <= i < |trace| ==> !trace[i].exited
    ensures var w := trace[|trace| - 1];
            Finished(w, plan) <==> !exists w' :: Next(w, w', host)
  {
    var last := |trace| - 1;
    TraceKeeps(trace, last, plan, host, accepted);
    InvMeasure(trace[last], plan, host, Longest(plan, host) - last);
    StuckIffFinished(trace[last], plan, host, Longest(plan, host) - last);
    forall i | 0 <= i < |trace| ensures !trace[i].exited {
      TraceKeeps(trace, i, plan, host, accepted);
    }
  }

  /** A queue of new mails with good recipients is deliverable exactly when it
      names no mail twice. */
  lemma {:induction false} DeliverableIffDistinct(paths: seq<string>, disk: Disk)
    requires AreNew(paths, disk)
    requires forall i :: 0 <= i < |paths| ==> IsUserAtDomain(Tokens(disk.files[paths[i]], '\n')[1])
    ensures Deliverable(PlanOf(paths, disk)) <==> Distinct(paths)
  {
    ReadableIffDistinct(paths, disk);
  }

  lemma InvMeasure(w: World, plan: Plan, host: string, m: int)
    requires IsWhole(plan) && plan.paths != [] && Inv(w, plan, host, m)
    ensures m >= 0
  {
  }

  /** Where client and server can be when the client is to write. */
  predicate IsMeeting(c: G.State, s: F.State) {
    || (c.SendHelo? && s.Ready?)
    || (c.SendMailFrom? && s.ExpectMail?)
    || (c.SendRcptTo? && s.ExpectRcpt?)
    || (c.SendData? && s.ExpectData?)
    || (c.SendBody? && s.ExpectDataRecv?)
    || (c.SendQuit? && s.ExpectMail?)
  }

  lemma WriteKeepsState(c: C.Client, host: string)
    requires C.HandleWrite(c, host).Live?
    ensures C.HandleWrite(c, host).client.state == c.state
  {
  }

  lemma MeetingAtPlace(c: C.Client, s: S.Conn, plan: Plan, q: L.Place)
    requires IsWhole(plan) && L.IsPlace(|plan.paths|, q) && !q.Connected? && !q.Over?
    requires c.state == L.At(plan, q).state && Awaits(s, plan, q)
    ensures IsMeeting(c.state, s.state)
  {
  }

  lemma MeetingAt(w: World, plan: Plan, host: string, p: L.Place)
    requires IsWhole(plan) && plan.paths != [] && L.IsPlace(|plan.paths|, p)
    requires Writing(w, plan, p)
    ensures IsMeeting(w.client.state, w.server.state)
  {
    var q := L.Next(|plan.paths|, p);
    assert !q.Connected? && !q.Over?;
    ReadThenWrite(plan, host, p);
    WriteKeepsState(w.client, host);
    MeetingAtPlace(w.client, w.server, plan, q);
  }

  /** The joint invariant: in every reachable state in which the client is to
      write, the two machines stand in one of six pairs of states. */
  lemma JointStates(
      trace: seq<World>, i: nat, plan: Plan, host: string, accepted: W.TimeVal)
    requires Deliverable(plan) && IsArgument(host) && plan.paths != []
    requires IsTrace(trace, plan, host, accepted) && i < |trace|
    ensures trace[i].client.writing ==> IsMeeting(trace[i].client.state, trace[i].server.state)
  {
    TraceKeeps(trace, i, plan, host, accepted);
    MeetingIn(trace[i], plan, host, Longest(plan, host) - i);
  }

  lemma MeetingIn(w: World, plan: Plan, host: string, m: int)
    requires IsWhole(plan) && plan.paths != [] && Inv(w, plan, host, m)
    ensures w.client.writing ==> IsMeeting(w.client.state, w.server.state)
  {
    if w.client.writing {
      var p: L.Place :| L.IsPlace(|plan.paths|, p) && InvAt(w, plan, host, p, m);
      ClientOrServer(w, plan, host, p);
      MeetingAt(w, plan, host, p);
    }
  }

  /** The passes left out of the steps above, those without input, change
      nothing while they are in time. */
  lemma IdlePass(c: S.Conn, env: S.Env)
    requires c.recvBuf == "" && !c.state.Init? && InTime(c, env)
    ensures S.Pass(c, env) == S.Alive(c, [])
  {
  }
}
