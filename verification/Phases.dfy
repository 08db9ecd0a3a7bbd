/** The phase of a session as its inputs alone give it, and with it every input
    that ends the server's process. */
module Phases {
  import opened Text
  import opened Pattern
  import F = ServerFsm
  import opened Stopwatch
  import opened Session
  import opened History

  ghost predicate IdleAfter(h: seq<Input>, m: nat) {
    forall i :: m < i < |h| ==> Idle(h[i])
  }

  predicate Greets(x: Input) {
    x.buf != "" && (x.command.Helo? || x.command.Ehlo?)
  }

  predicate Resets(x: Input) {
    x.buf != "" && x.command.Rset?
  }

  /** Input number m ends the data of a transaction. */
  ghost predicate EndsAt(h: seq<Input>, m: nat)
    requires m < |h|
  {
    Ends(h[m]) && Receiving(h[..m])
  }

  /** Nothing effective came since the connection, a reset, or the end of data that
      were not saved. */
  ghost predicate IsReset(h: seq<Input>) {
    && h != []
    && ((forall i :: 0 <= i < |h| ==> Idle(h[i]))
        || exists m: nat :: m < |h| && IsResetAt(h, m))
  }

  ghost predicate IsResetAt(h: seq<Input>, m: nat)
    requires m < |h|
  {
    IdleAfter(h, m) && (Resets(h[m]) || (EndsAt(h, m) && !h[m].env.opens))
  }

  /** Nothing effective came since HELO or EHLO, or the end of data that were
      saved. */
  ghost predicate AwaitsMail(h: seq<Input>) {
    exists m: nat :: m < |h| && AwaitsMailAt(h, m)
  }

  ghost predicate AwaitsMailAt(h: seq<Input>, m: nat)
    requires m < |h|
  {
    IdleAfter(h, m) && (Greets(h[m]) || (EndsAt(h, m) && h[m].env.opens))
  }

  ghost predicate AwaitsRcpt(h: seq<Input>) {
    exists m: nat :: MailOpen(h, m)
  }

  ghost predicate AwaitsData(h: seq<Input>) {
    exists m: nat, r: nat :: RcptOpen(h, m, r)
  }

  // The state gives the phase.

  lemma ResetGrows(h: seq<Input>, x: Input)
    requires IsReset(h) && Idle(x)
    ensures IsReset(h + [x])
  {
    if !forall i :: 0 <= i < |h| ==> Idle(h[i]) {
      var m: nat :| m < |h| && IsResetAt(h, m);
      assert (h + [x])[..m] == h[..m];
      assert IsResetAt(h + [x], m);
    }
  }

  lemma AwaitsMailGrows(h: seq<Input>, x: Input)
    requires AwaitsMail(h) && Idle(x)
    ensures AwaitsMail(h + [x])
  {
    var m: nat :| m < |h| && AwaitsMailAt(h, m);
    assert (h + [x])[..m] == h[..m];
    assert AwaitsMailAt(h + [x], m);
  }

  /** The inputs that open the two phases. */
  lemma PhaseOpens(h: seq<Input>, x: Input)
    ensures Resets(x) || (Ends(x) && Receiving(h) && !x.env.opens) ==> IsReset(h + [x])
    ensures Greets(x) || (Ends(x) && Receiving(h) && x.env.opens) ==> AwaitsMail(h + [x])
    ensures h == [] && Idle(x) ==> IsReset(h + [x])
  {
    var l := h + [x];
    assert l[..|h|] == h && IdleAfter(l, |h|);
    if Resets(x) || (Ends(x) && Receiving(h) && !x.env.opens) { assert IsResetAt(l, |h|); }
    if Greets(x) || (Ends(x) && Receiving(h) && x.env.opens) { assert AwaitsMailAt(l, |h|); }
  }

  /** Which inputs lead to the two states. */
  lemma NextIs(s: Record, x: Input)
    requires Next(s, x).Some? && !s.conn.state.Disconnected?
    requires s.conn.state in [F.Init, F.Ready, F.ExpectMail, F.ExpectRcpt, F.ExpectData, F.ExpectDataRecv]
    ensures var t := Next(s, x).value.conn.state;
            && (t.Ready? ==>
                  (s.conn.state.Init? && Idle(x)) || (s.conn.state.Ready? && Idle(x)) || Resets(x) ||
                  (s.conn.state.ExpectDataRecv? && Ends(x) && !x.env.opens))
            && (t.ExpectMail? ==>
                  (s.conn.state.ExpectMail? && Idle(x)) || Greets(x) ||
                  (s.conn.state.ExpectDataRecv? && Ends(x) && x.env.opens))
  {
  }

  lemma {:induction false} StateGivesPhase(accepted: TimeVal, h: seq<Input>)
    requires Run(accepted, h).Some?
    ensures Run(accepted, h).value.conn.state.Ready? ==> IsReset(h)
    ensures Run(accepted, h).value.conn.state.ExpectMail? ==> AwaitsMail(h)
  {
    if h == [] {
    } else {
      var f, x := Front(h), Last(h);
      assert f + [x] == h;
      RunStep(accepted, f, x);
      StateGivesPhase(accepted, f);
      RunExplained(accepted, f);
      ReceivingIffDataPhase(accepted, f);
      NextIs(Run(accepted, f).value, x);
      PhaseOpens(f, x);
      if IsReset(f) && Idle(x) { ResetGrows(f, x); }
      if AwaitsMail(f) && Idle(x) { AwaitsMailGrows(f, x); }
    }
  }

  // The phase gives the state.

  /** A phase that idle inputs leave as it is. */
  predicate IsQuiet(s: F.State) {
    s.Ready? || s.ExpectMail? || s.ExpectRcpt? || s.ExpectData?
  }

  lemma IdleKeeps(s: Record, x: Input)
    requires IsQuiet(s.conn.state) && Idle(x)
    ensures Next(s, x).Some?
    ensures Next(s, x).value.conn.state == s.conn.state || Next(s, x).value.conn.state.Disconnected?
  {
  }

  /** After input number m the session is in that state, if it is live. */
  ghost predicate IsIn(accepted: TimeVal, h: seq<Input>, state: F.State) {
    Run(accepted, h).Some? &&
    (Run(accepted, h).value.conn.state == state || Run(accepted, h).value.conn.state.Disconnected?)
  }

  lemma {:induction false} Stays(accepted: TimeVal, h: seq<Input>, m: nat, state: F.State)
    requires Run(accepted, h).Some? && m < |h| && IdleAfter(h, m) && IsQuiet(state)
    requires Run(accepted, h[..m + 1]).Some? ==> IsIn(accepted, h[..m + 1], state)
    ensures IsIn(accepted, h, state)
  {
    if m + 1 == |h| {
      assert h[..m + 1] == h;
    } else {
      var f, x := Front(h), Last(h);
      assert f + [x] == h && f[..m + 1] == h[..m + 1];
      RunStep(accepted, f, x);
      Stays(accepted, f, m, state);
      IdleKeeps(Run(accepted, f).value, x);
    }
  }

  /** The state that an input of each kind leads to. */
  lemma LeadsTo(s: Record, x: Input)
    requires Next(s, x).Some? && !s.conn.state.Disconnected?
    ensures var t := Next(s, x).value.conn.state;
            !t.Disconnected? ==>
              (s.conn.state.Init? && Idle(x) ==> t.Ready?) &&
              (Resets(x) ==> t.Ready?) &&
              (Greets(x) ==> t.ExpectMail?) &&
              (x.buf != "" && x.command.Mail? ==> t.ExpectRcpt?) &&
              (x.buf != "" && x.command.Rcpt? ==> t.ExpectData?) &&
              (s.conn.state.ExpectDataRecv? && Ends(x) ==> if x.env.opens then t.ExpectMail? else t.Ready?)
  {
  }

  /** Input number m, if the session gets that far, leads to the state. */
  ghost predicate Leads(accepted: TimeVal, h: seq<Input>, m: nat, state: F.State)
    requires m < |h|
  {
    var s := Run(accepted, h[..m]);
    s.Some? && !s.value.conn.state.Disconnected? && Next(s.value, h[m]).Some? ==>
      var t := Next(s.value, h[m]).value.conn.state; t == state || t.Disconnected?
  }

  lemma {:induction false} LedTo(accepted: TimeVal, h: seq<Input>, m: nat, state: F.State)
    requires Run(accepted, h).Some? && m < |h| && IdleAfter(h, m) && IsQuiet(state) && Leads(accepted, h, m, state)
    ensures IsIn(accepted, h, state)
  {
    var g := h[..m + 1];
    assert g == h[..m] + [h[m]];
    if Run(accepted, g).Some? {
      RunStep(accepted, h[..m], h[m]);
    }
    Stays(accepted, h, m, state);
  }

  lemma {:induction false} InputLeads(accepted: TimeVal, h: seq<Input>, m: nat)
    requires m < |h|
    ensures m == 0 && Idle(h[m]) ==> Leads(accepted, h, m, F.Ready)
    ensures Resets(h[m]) ==> Leads(accepted, h, m, F.Ready)
    ensures Greets(h[m]) ==> Leads(accepted, h, m, F.ExpectMail)
    ensures h[m].buf != "" && h[m].command.Mail? ==> Leads(accepted, h, m, F.ExpectRcpt)
    ensures h[m].buf != "" && h[m].command.Rcpt? ==> Leads(accepted, h, m, F.ExpectData)
    ensures EndsAt(h, m) ==> Leads(accepted, h, m, if h[m].env.opens then F.ExpectMail else F.Ready)
  {
    var s := Run(accepted, h[..m]);
    if s.Some? && !s.value.conn.state.Disconnected? && Next(s.value, h[m]).Some? {
      ReceivingIffDataPhase(accepted, h[..m]);
      LeadsTo(s.value, h[m]);
      assert m == 0 ==> h[..m] == [];
    }
  }

  lemma {:induction false} PhaseGivesState(accepted: TimeVal, h: seq<Input>)
    requires Run(accepted, h).Some?
    ensures IsReset(h) ==> IsIn(accepted, h, F.Ready)
    ensures AwaitsMail(h) ==> IsIn(accepted, h, F.ExpectMail)
    ensures AwaitsRcpt(h) ==> IsIn(accepted, h, F.ExpectRcpt)
    ensures AwaitsData(h) ==> IsIn(accepted, h, F.ExpectData)
  {
    if IsReset(h) { ResetIsReady(accepted, h); }
    if AwaitsMail(h) {
      var m: nat :| m < |h| && AwaitsMailAt(h, m);
      InputLeads(accepted, h, m);
      LedTo(accepted, h, m, F.ExpectMail);
    }
    if AwaitsRcpt(h) {
      var m: nat :| MailOpen(h, m);
      InputLeads(accepted, h, m);
      LedTo(accepted, h, m, F.ExpectRcpt);
    }
    if AwaitsData(h) {
      var m: nat, r: nat :| RcptOpen(h, m, r);
      InputLeads(accepted, h, r);
      LedTo(accepted, h, r, F.ExpectData);
    }
  }

  lemma {:induction false} ResetIsReady(accepted: TimeVal, h: seq<Input>)
    requires Run(accepted, h).Some? && IsReset(h)
    ensures IsIn(accepted, h, F.Ready)
  {
    var m: nat := 0;
    if !forall i :: 0 <= i < |h| ==> Idle(h[i]) {
      m :| m < |h| && IsResetAt(h, m);
    }
    InputLeads(accepted, h, m);
    LedTo(accepted, h, m, F.Ready);
  }

  /** In every live session the state and the inputs give each other. */
  lemma {:induction false} PhaseIff(accepted: TimeVal, h: seq<Input>)
    requires Run(accepted, h).Some? && !Run(accepted, h).value.conn.state.Disconnected?
    ensures var state := Run(accepted, h).value.conn.state;
            && (state.Init? <==> h == [])
            && (state.Ready? <==> IsReset(h))
            && (state.ExpectMail? <==> AwaitsMail(h))
            && (state.ExpectRcpt? <==> AwaitsRcpt(h))
            && (state.ExpectData? <==> AwaitsData(h))
            && (state.ExpectDataRecv? <==> Receiving(h))
  {
    RunExplained(accepted, h);
    StateGivesPhase(accepted, h);
    PhaseGivesState(accepted, h);
    ReceivingIffDataPhase(accepted, h);
  }

  // Inputs that end the process.

  /** The commands that a phase has no place for, and recipients that do not
      split. */
  ghost predicate IsFatal(h: seq<Input>, command: Command) {
    match command
    case Helo(_) => !IsReset(h)
    case Ehlo(_) => !IsReset(h)
    case Mail(_) => !AwaitsMail(h)
    case Rcpt(recipient) => !AwaitsRcpt(h) || SplitAt(recipient).None?
    case Data => !AwaitsData(h)
    case DataEnd => !Receiving(h)
    case DataRecv => false
    case _ => h == [] || Receiving(h)
  }

  lemma NextFatal(s: Record, x: Input)
    requires s.conn.state in [F.Init, F.Ready, F.ExpectMail, F.ExpectRcpt, F.ExpectData, F.ExpectDataRecv]
    requires s.conn.state in [F.ExpectRcpt, F.ExpectData, F.ExpectDataRecv] ==> s.conn.letter.Some?
    ensures Next(s, x).None? <==>
              x.buf != "" &&
              match x.command
              case Helo(_) => !s.conn.state.Ready?
              case Ehlo(_) => !s.conn.state.Ready?
              case Mail(_) => !s.conn.state.ExpectMail?
              case Rcpt(recipient) => !s.conn.state.ExpectRcpt? || SplitAt(recipient).None?
              case Data => !s.conn.state.ExpectData?
              case DataEnd => !s.conn.state.ExpectDataRecv?
              case DataRecv => false
              case _ => s.conn.state.Init? || s.conn.state.ExpectDataRecv?
  {
  }

  /** In every live session, whatever came before, an input ends the process exactly
      when it is a command that its phase has no place for, or a recipient that
      does not split. */
  lemma {:induction false} FatalIff(accepted: TimeVal, h: seq<Input>, x: Input)
    requires Run(accepted, h).Some? && !Run(accepted, h).value.conn.state.Disconnected?
    ensures Run(accepted, h + [x]).None? <==> x.buf != "" && IsFatal(h, x.command)
  {
    PhaseIff(accepted, h);
    RunExplained(accepted, h);
    NextFatal(Run(accepted, h).value, x);
    assert Front(h + [x]) == h && Last(h + [x]) == x;
  }
}
