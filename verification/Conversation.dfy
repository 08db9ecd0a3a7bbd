/** Client and server joined by a channel that holds what one side last said.
    The network decides how the body is cut into buffers; the clock and the file
    system decide the rest. */
module Conversation {
  import opened Text
  import opened Pattern
  import opened Commands
  import S = Session
  import F = ServerFsm
  import W = Stopwatch
  import C = Client
  import G = ClientFsm
  import L = ClientLanguage
  import opened Disks

  datatype World = World(
    client: C.Client, server: S.Conn, toServer: seq<string>, toClient: string,
    store: seq<S.Letter>, splits: seq<seq<string>>, exited: bool)

  function Start(plan: Plan, accepted: W.TimeVal): World
    requires IsPlan(plan)
  {
    World(L.Connecting(plan.paths, plan.disks[0]),
          S.Conn("", "", F.Init, F.Init, None, accepted), [], "", [], [], false)
  }

  // The network.

  /** A buffer that ends the data. */
  predicate IsEnd(chunk: string) {
    HasSuffix(chunk, TERMINATOR) || Classify(chunk) == DataEnd
  }

  /** A buffer that is neither a command nor ends the data. */
  predicate IsMiddle(chunk: string) {
    Classify(chunk) == DataRecv && !HasSuffix(chunk, TERMINATOR)
  }

  /** A way to deliver a body: no buffer but the last is a command or ends the
      data, and the last one does. */
  ghost predicate IsSplit(chunks: seq<string>, text: string) {
    && chunks != [] && Concat(chunks) == text
    && (forall i :: 0 <= i < |chunks| ==> chunks[i] != "")
    && (forall i {:trigger IsMiddle(chunks[i])} :: 0 <= i < |chunks| - 1 ==> IsMiddle(chunks[i]))
    && IsEnd(chunks[|chunks| - 1])
  }

  ghost predicate Delivers(chunks: seq<string>, m: Option<Message>) {
    if m.None? then chunks == []
    else if m.value.Body? then IsSplit(chunks, Print(m.value))
    else chunks == [Print(m.value)]
  }

  // The steps.

  /** A pass of the server that is not too late and whose file, if it opens one,
      opens. */
  ghost predicate ServerTurn(w: World, w': World) {
    && (w.toServer != [] || w.server.state.Init?)
    && exists env: S.Env :: ServerTurnIn(w, w', env)
  }

  predicate InTime(c: S.Conn, env: S.Env) {
    env.opens && !S.Expired(if c.recvBuf == "" then c.watch else env.restart, env.now)
  }

  ghost predicate ServerTurnIn(w: World, w': World, env: S.Env) {
    var c := w.server.(recvBuf := if w.toServer == [] then "" else w.toServer[0]);
    && InTime(c, env)
    && var o := S.Pass(c, env);
       w' == if o.Exit? then w.(exited := true)
             else w.(server := o.conn.(sendBuf := ""), toClient := o.conn.sendBuf,
                     toServer := if w.toServer == [] then [] else w.toServer[1..],
                     store := w.store + o.saved)
  }

  ghost predicate ClientReads(w: World, w': World) {
    && w.client.reading && w.toClient != ""
    && var o := C.HandleRead(w.client, C.CheckServerCode(w.toClient));
       w' == if o.Exit? then w.(exited := true) else w.(client := o.client, toClient := "")
  }

  ghost predicate ClientWrites(w: World, w': World, host: string) {
    && w.client.writing
    && var o := C.HandleWrite(w.client, host);
       if o.Exit? then w' == w.(exited := true)
       else exists chunks :: Delivers(chunks, o.value) && w' == Sends(w, o.client, o.value, chunks)
  }

  function Sends(w: World, c: C.Client, m: Option<Message>, chunks: seq<string>): World {
    w.(client := c, toServer := w.toServer + chunks,
       splits := if m.Some? && m.value.Body? then w.splits + [chunks] else w.splits)
  }

  ghost predicate Next(w: World, w': World, host: string) {
    !w.exited && (ServerTurn(w, w') || ClientReads(w, w') || ClientWrites(w, w', host))
  }

  // What is meant to be delivered.

  /** Every mail has a sender, a recipient user@domain and a body. */
  ghost predicate Deliverable(plan: Plan) {
    && IsWhole(plan)
    && forall i :: 0 <= i < |plan.paths| ==> IsUserAtDomain(plan.texts[i][1])
  }

  /** The body the server keeps of a delivery. */
  function Kept(chunks: seq<string>): string {
    if chunks != [] && Classify(chunks[|chunks| - 1]) == DataEnd then Fold(chunks[..|chunks| - 1]) else Fold(chunks)
  }

  ghost function EnvelopeOf(t: seq<string>): S.Letter
    requires |t| >= 2 && SplitAt(t[1]).Some?
  {
    S.Letter(t[0], t[1], SplitAt(t[1]).value.0, SplitAt(t[1]).value.1, "")
  }

  /** The first k mails lie in the store, each under its own envelope with the
      body that one delivery of its lines left. */
  ghost predicate Delivered(w: World, plan: Plan, k: nat)
    requires IsWhole(plan) && k <= |plan.paths|
  {
    && |w.store| == k <= |w.splits|
    && forall i :: 0 <= i < k ==> IsDelivered(w.store[i], plan.texts[i], w.splits[i])
  }

  ghost predicate IsDelivered(l: S.Letter, t: seq<string>, chunks: seq<string>)
    requires |t| >= 2
  {
    && SplitAt(t[1]).Some? && l == EnvelopeOf(t).(body := Kept(chunks))
    && IsSplit(chunks, Print(Body(t[2..])))
  }

  // The joint invariant.

  /** How many mails are through before the message of a place is sent. */
  function Through(n: nat, p: L.Place): nat {
    match p
    case InMail(j, _) => j
    case Leaving => n
    case Over => n
    case _ => 0
  }

  /** The server's state and letter when the message of a place is due. */
  ghost predicate Awaits(c: S.Conn, plan: Plan, p: L.Place)
    requires IsWhole(plan) && L.IsPlace(|plan.paths|, p)
  {
    && c.recvBuf == "" && c.sendBuf == ""
    && match p
       case Connected => c.state.Init?
       case Greeted => c.state.Ready?
       case InMail(j, i) => AwaitsMail(c, plan.texts[j], i)
       case Leaving => c.state.ExpectMail?
       case Over => c.state.Disconnected?
  }

  ghost predicate AwaitsMail(c: S.Conn, t: seq<string>, i: nat)
    requires |t| >= 2
  {
    && SplitAt(t[1]).Some?
    && if i == 0 then c.state.ExpectMail?
       else if i == 1 then c.state.ExpectRcpt? && c.letter == Some(S.Letter(t[0], "", "", "", ""))
       else if i == 2 then c.state.ExpectData? && c.letter == Some(EnvelopeOf(t))
       else c.state.ExpectDataRecv? && c.letter == Some(EnvelopeOf(t))
  }

  /** The message of a place is on its way. */
  ghost predicate Sent(w: World, plan: Plan, host: string, p: L.Place)
    requires IsWhole(plan) && L.IsPlace(|plan.paths|, p)
  {
    && !w.exited && w.client == L.At(plan, p) && w.toClient == "" && !p.Over?
    && Delivered(w, plan, Through(|plan.paths|, p))
    && if p.InMail? && p.command == 3 then BodySent(w, plan.texts[p.mail], p.mail)
       else
         && |w.splits| == Through(|plan.paths|, p) && Awaits(w.server, plan, p)
         && w.toServer == (if p.Connected? then [] else [Print(L.Said(plan, host, p)[0])])
  }

  /** Some buffers of the body are read, the others on their way. */
  ghost predicate BodySent(w: World, t: seq<string>, j: nat)
    requires |t| >= 2
  {
    && |w.splits| == j + 1 && 0 < |w.toServer| <= |w.splits[j]|
    && BodySentFrom(w, t, w.splits[j], |w.splits[j]| - |w.toServer|)
  }

  ghost predicate BodySentFrom(w: World, t: seq<string>, chunks: seq<string>, i: nat)
    requires |t| >= 2 && i < |chunks|
  {
    IsSplit(chunks, Print(Body(t[2..]))) && w.toServer == chunks[i..] && InBody(w.server, t, chunks[..i])
  }

  ghost predicate InBody(c: S.Conn, t: seq<string>, read: seq<string>)
    requires |t| >= 2
  {
    && c.recvBuf == "" && c.sendBuf == "" && c.state.ExpectDataRecv? && SplitAt(t[1]).Some?
    && c.letter == Some(EnvelopeOf(t).(body := Fold(read)))
  }

  /** The positive reply to the message of a place is on its way. */
  ghost predicate Replied(w: World, plan: Plan, p: L.Place)
    requires IsWhole(plan) && L.IsPlace(|plan.paths|, p) && plan.paths != []
  {
    && !w.exited && w.client == L.At(plan, p) && w.toServer == [] && !p.Over?
    && w.toClient != "" && C.CheckServerCode(w.toClient) == G.EvOk
    && Quiet(w, plan, L.Next(|plan.paths|, p))
  }

  /** The client is about to write the message after a place. */
  ghost predicate Writing(w: World, plan: Plan, p: L.Place)
    requires IsWhole(plan) && L.IsPlace(|plan.paths|, p) && plan.paths != []
  {
    && !w.exited && !p.Over? && !p.Leaving? && w.toServer == [] && w.toClient == ""
    && C.HandleRead(L.At(plan, p), G.EvOk).Live?
    && w.client == C.HandleRead(L.At(plan, p), G.EvOk).client
    && Quiet(w, plan, L.Next(|plan.paths|, p))
  }

  /** The server awaits the message of a place, all earlier mails stored. */
  ghost predicate Quiet(w: World, plan: Plan, p: L.Place)
    requires IsWhole(plan) && L.IsPlace(|plan.paths|, p)
  {
    && Awaits(w.server, plan, p)
    && |w.splits| == Through(|plan.paths|, p) && Delivered(w, plan, Through(|plan.paths|, p))
  }

  /** The session is over and everything delivered. */
  ghost predicate Finished(w: World, plan: Plan)
    requires IsWhole(plan)
  {
    && !w.exited && w.client == C.Fresh([], plan.disks[|plan.paths|])
    && w.server.state.Disconnected? && w.toServer == [] && w.toClient == ""
    && |w.splits| == |plan.paths| && Delivered(w, plan, |plan.paths|)
  }

  // How many steps are left at most.

  function Rank(n: nat, p: L.Place): nat {
    match p
    case Connected => 4 * n + 3
    case Greeted => 4 * n + 2
    case InMail(j, i) => if 4 * j + i <= 4 * n + 1 then 4 * n + 1 - 4 * j - i else 0
    case Leaving => 1
    case Over => 0
  }

  /** Steps to write, deliver and acknowledge the message of a place. */
  function Cost(plan: Plan, host: string, p: L.Place): nat
    requires IsWhole(plan) && L.IsPlace(|plan.paths|, p)
  {
    if p.Over? then 0
    else if p.InMail? && p.command == 3 then |Print(L.Said(plan, host, p)[0])| + 2
    else 3
  }

  /** Steps after the reply to the message of a place was read. */
  function Future(plan: Plan, host: string, p: L.Place): nat
    requires IsWhole(plan) && L.IsPlace(|plan.paths|, p) && plan.paths != []
    decreases Rank(|plan.paths|, p)
  {
    if p.Over? then 0
    else
      var q := L.Next(|plan.paths|, p);
      Cost(plan, host, q) + Future(plan, host, q)
  }

  /** The joint invariant with at most m steps left. */
  ghost predicate Inv(w: World, plan: Plan, host: string, m: int)
    requires IsWhole(plan) && plan.paths != []
  {
    || (Finished(w, plan) && m >= 0)
    || exists p: L.Place :: L.IsPlace(|plan.paths|, p) && InvAt(w, plan, host, p, m)
  }

  ghost predicate InvAt(w: World, plan: Plan, host: string, p: L.Place, m: int)
    requires IsWhole(plan) && plan.paths != [] && L.IsPlace(|plan.paths|, p)
  {
    var f := Future(plan, host, p);
    || (Sent(w, plan, host, p) && m >= f + 1 + if p.Connected? then 1 else |w.toServer|)
    || (Replied(w, plan, p) && m >= f + 1)
    || (Writing(w, plan, p) && m >= f)
  }
}
