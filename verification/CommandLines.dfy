/** The command lines of the server, letter by letter: for every buffer, what it
    is classified as and with which argument. The patterns are tried one by one;
    here every command has one description that needs no order. */
module CommandLines {
  import opened Text
  import P = Pattern

  /** What may stand behind a command: nothing, CR, LF, CRLF, or two line feeds. */
  predicate IsEol(e: string) {
    e in ["", "\r", "\n", "\r\n", "\n\n"]
  }

  /** The same word in any mixture of upper and lower case. */
  predicate Spells(s: string, upper: string, lower: string)
    requires |upper| == |lower|
  {
    |s| == |upper| && forall i :: 0 <= i < |s| ==> s[i] == upper[i] || s[i] == lower[i]
  }

  predicate Opens(s: string, upper: string, lower: string)
    requires |upper| == |lower|
  {
    |s| >= |upper| && Spells(s[..|upper|], upper, lower)
  }

  /** A line of the one word. */
  predicate IsBare(s: string, upper: string, lower: string)
    requires |upper| == |lower|
  {
    Opens(s, upper, lower) && IsEol(s[|upper|..])
  }

  /** The rest of a line is the argument and an end of line. Of two readings the
      one with the shorter argument counts. */
  ghost predicate IsRest(rest: string, a: string) {
    && a != "" && '\n' !in a
    && exists e :: IsEol(e) && rest == a + e && (|a| >= 2 && a[|a| - 1] == '\r' ==> e !in ["", "\n"])
  }

  ghost predicate IsNamed(s: string, upper: string, lower: string, a: string)
    requires |upper| == |lower|
  {
    Opens(s, upper, lower) && IsRest(s[|upper|..], a)
  }

  predicate IsBlank(c: char) {
    c in " \t\n\U{B}\U{C}\r"
  }

  /** What may stand in front of an address: a blank, a bracket, both or nothing. */
  predicate IsOpening(o: string) {
    o == "" || o == "<" || (|o| == 1 && IsBlank(o[0])) || (|o| == 2 && IsBlank(o[0]) && o[1] == '<')
  }

  predicate IsClosing(c: string) {
    c == "" || c == ">"
  }

  /** The verb, one blank, the second word. */
  predicate OpensTwo(s: string, upper: string, lower: string, upper2: string, lower2: string)
    requires |upper| == |lower| && |upper2| == |lower2|
  {
    && Opens(s, upper, lower) && |s| > |upper| && IsBlank(s[|upper|])
    && Opens(s[|upper| + 1..], upper2, lower2)
  }

  /** The address, its brackets if any, an end of line. */
  ghost predicate IsAddress(rest: string, a: string) {
    a != "" && '\n' !in a && exists o, c, e :: IsAround(rest, o, a, c, e)
  }

  predicate IsAround(rest: string, o: string, a: string, c: string, e: string) {
    IsOpening(o) && IsClosing(c) && IsEol(e) && rest == o + a + c + e
  }

  ghost predicate IsMailLine(s: string, a: string) {
    OpensTwo(s, "MAIL", "mail", "FROM:", "from:") && IsAddress(s[10..], a)
  }

  ghost predicate IsRcptLine(s: string, a: string) {
    OpensTwo(s, "RCPT", "rcpt", "TO:", "to:") && IsAddress(s[8..], a)
  }

  /** A lone dot, perhaps behind the end of the line before. */
  predicate IsDotLine(s: string) {
    |s| >= 1 && ((s[0] == '.' && IsEol(s[1..])) || (|s| >= 2 && s[0] in "\r\n" && s[1] == '.' && IsEol(s[2..])))
  }

  /** An address in which nothing could be taken for something around it. */
  predicate IsPlain(a: string) {
    && a != "" && '\n' !in a && '\r' !in a
    && !IsBlank(a[0]) && a[0] != '<' && a[|a| - 1] != '>'
  }

  /** Any address without an end of line, in brackets. */
  ghost predicate IsBracketed(rest: string, a: string) {
    && a != "" && '\n' !in a && '\r' !in a
    && exists o, e :: IsAround(rest, o, a, ">", e) && o != "" && o[|o| - 1] == '<'
  }

  // Words.

  lemma EolIs(e: string)
    ensures P.EndsLine(e) <==> IsEol(e)
  {
  }

  /** The upper-case letters of a word, and their lower-case forms. */
  predicate IsWord(upper: string, lower: string) {
    |upper| == |lower| && forall i :: 0 <= i < |upper| ==>
      lower[i] == (if 'A' <= upper[i] <= 'Z' then (upper[i] as int + 32) as char else upper[i]) &&
      !('a' <= upper[i] <= 'z')
  }

  lemma OpensIs(s: string, upper: string, lower: string)
    requires IsWord(upper, lower)
    ensures P.Keyword(s, upper) <==> Opens(s, upper, lower)
  {
    if |s| >= |upper| {
      assert forall i :: 0 <= i < |upper| ==> s[..|upper|][i] == s[i];
    }
  }

  lemma BareWords()
    ensures IsWord("QUIT", "quit") && IsWord("RSET", "rset") && IsWord("DATA", "data")
  {
  }

  lemma NamedWords()
    ensures IsWord("VRFY ", "vrfy ") && IsWord("HELO ", "helo ") && IsWord("EHLO ", "ehlo ")
  {
  }

  lemma AddressWords()
    ensures IsWord("MAIL", "mail") && IsWord("FROM:", "from:") && IsWord("RCPT", "rcpt") && IsWord("TO:", "to:")
  {
  }

  /** The only pattern that a line with these first two characters can match, the
      one for data apart. */
  function Only(s: string): P.PatternType {
    if s == "" then P.PtStart
    else
      match P.Upper(s[0])
      case 'Q' => P.PtQuit
      case 'V' => P.PtVrfy
      case 'H' => P.PtHelo
      case 'E' => P.PtEhlo
      case 'M' => P.PtMail
      case 'D' => P.PtData
      case 'R' => if |s| > 1 && P.Upper(s[1]) == 'S' then P.PtRset else P.PtRcpt
      case _ => P.PtDataEnd
  }

  lemma {:induction false} OnlyMatches(s: string, t: P.PatternType)
    requires P.Matches(t, s) && !t.PtDataRecv? && !t.PtEmail?
    ensures t == Only(s)
  {
    match t
    case PtRset => assert P.Upper(s[1]) == 'S';
    case PtRcpt => assert P.Upper(s[1]) == 'C';
    case _ =>
  }

  /** So the order of the patterns does not matter. */
  lemma {:induction false} OrderIsFree(s: string, t: P.PatternType)
    requires !t.PtDataRecv? && !t.PtEmail?
    ensures P.Matches(t, s) <==> P.TypeOf(P.Classify(s)) == t
  {
    var u := P.TypeOf(P.Classify(s));
    P.ClassifyHands(s);
    if P.Matches(t, s) {
      OnlyMatches(s, t);
      if !u.PtDataRecv? {
        OnlyMatches(s, u);
      } else {
        P.ClassifyIsFirst(s, t);
      }
    }
  }

  // Arguments.

  lemma {:induction false} CaptureIs(rest: string, a: string)
    ensures P.Capture(rest, P.LineEnd) == Some(a) <==> IsRest(rest, a)
  {
    if P.Capture(rest, P.LineEnd) == Some(a) {
      CapturedRest(rest, a);
    }
    if IsRest(rest, a) {
      var e :| IsEol(e) && rest == a + e && (|a| >= 2 && a[|a| - 1] == '\r' ==> e !in ["", "\n"]);
      RestIsCaptured(a, e);
    }
  }

  lemma {:induction false} ShorterFits(a: string, e: string)
    requires |a| >= 2 && a[|a| - 1] == '\r' && '\n' !in a && (e == "" || e == "\n")
    ensures P.Fits(a + e, |a| - 1, P.LineEnd)
  {
    var k := |a| - 1;
    assert (a + e)[..k] == a[..k];
    assert (a + e)[k..] == ['\r'] + e;
  }

  lemma {:induction false} CapturedRest(rest: string, a: string)
    requires P.Capture(rest, P.LineEnd) == Some(a)
    ensures IsRest(rest, a)
  {
    var e := rest[|a|..];
    EolIs(e);
    assert rest == a + e;
    if |a| >= 2 && a[|a| - 1] == '\r' && (e == "" || e == "\n") {
      ShorterFits(a, e);
    }
  }

  /** A capture that fits at |a| and at no shorter length. */
  lemma {:induction false} CaptureAt(rest: string, a: string, tail: P.Tail)
    requires a <= rest && P.Fits(rest, |a|, tail)
    requires forall j :: 1 <= j < |a| ==> !P.Accepts(tail, rest[j..])
    ensures P.Capture(rest, tail) == Some(a)
  {
    var r := P.Capture(rest, tail);
    assert r.Some? && |r.value| == |a| && rest[..|a|] == a;
  }

  lemma {:induction false} RestIsCaptured(a: string, e: string)
    requires a != "" && '\n' !in a && IsEol(e) && (|a| >= 2 && a[|a| - 1] == '\r' ==> e !in ["", "\n"])
    ensures P.Capture(a + e, P.LineEnd) == Some(a)
  {
    var rest := a + e;
    assert rest[..|a|] == a && rest[|a|..] == e;
    forall j | 1 <= j < |a| ensures !P.Accepts(P.LineEnd, rest[j..]) {
      var t := rest[j..];
      assert t[0] == a[j] && a[j] in a && |t| == |a| - j + |e|;
      if |a| - j == 1 { assert t == [a[j]] + e; }
      else { assert t[1] == a[j + 1] && a[j + 1] in a; }
    }
    CaptureAt(rest, a, P.LineEnd);
  }

  lemma {:induction false} ClosedRest(rest: string, a: string) returns (c: string, e: string)
    requires P.Capture(rest, P.Closing) == Some(a)
    ensures IsClosing(c) && IsEol(e) && rest == a + c + e
  {
    var t := rest[|a|..];
    if P.EndsLine(t) {
      c, e := "", t;
    } else {
      c, e := ">", t[1..];
      assert t == c + e;
    }
  }

  lemma {:induction false} AngleRest(s: string, a: string) returns (o: string, c: string, e: string)
    requires P.Angle(s) == Some(a)
    ensures (o == "" || o == "<") && IsClosing(c) && IsEol(e) && s == o + (a + c + e)
  {
    if s != "" && s[0] == '<' && P.Capture(s[1..], P.Closing).Some? {
      o := "<";
      c, e := ClosedRest(s[1..], a);
      assert s == o + s[1..];
    } else {
      o := "";
      c, e := ClosedRest(s, a);
      assert s == o + s;
    }
  }

  lemma {:induction false} BlankAround(rest: string, o: string, a: string, c: string, e: string)
    requires rest != "" && IsBlank(rest[0]) && rest[1..] == o + (a + c + e)
    requires (o == "" || o == "<") && IsClosing(c) && IsEol(e)
    ensures IsAround(rest, [rest[0]] + o, a, c, e)
  {
    Regroup([rest[0]], o, a, c, e);
    assert rest == [rest[0]] + rest[1..];
  }

  lemma Regroup(b: string, o: string, a: string, c: string, e: string)
    ensures b + (o + (a + c + e)) == (b + o) + a + c + e
  {
  }

  /** A captured address stands between its opening and its closing. */
  lemma {:induction false} CapturedAddress(rest: string, a: string)
    requires P.Address(rest) == Some(a)
    ensures IsAddress(rest, a)
  {
    if rest != "" && P.IsSpace(rest[0]) && P.Angle(rest[1..]).Some? {
      var o, c, e := AngleRest(rest[1..], a);
      BlankAround(rest, o, a, c, e);
    } else {
      var o, c, e := AngleRest(rest, a);
      Regroup("", o, a, c, e);
      assert IsAround(rest, o, a, c, e);
    }
  }

  /** Nothing inside the argument can end a capture in front of its closing. */
  lemma {:induction false} ClosedIsCaptured(a: string, c: string, e: string)
    requires a != "" && '\n' !in a && '\r' !in a && IsClosing(c) && IsEol(e)
    requires c == "" && |a| > 1 ==> a[|a| - 1] != '>'
    ensures P.Capture(a + c + e, P.Closing) == Some(a)
  {
    var rest := a + c + e;
    assert rest[..|a|] == a && rest[|a|..] == c + e;
    assert c == ">" ==> (c + e)[1..] == e;
    forall j | 1 <= j < |a| ensures !P.Accepts(P.Closing, rest[j..]) {
      InsideArgument(a, c, e, j, rest[j..]);
    }
    CaptureAt(rest, a, P.Closing);
  }

  lemma {:induction false} InsideArgument(a: string, c: string, e: string, j: nat, t: string)
    requires 1 <= j < |a| && '\n' !in a && '\r' !in a && t == (a + c + e)[j..]
    requires c == "" ==> a[|a| - 1] != '>'
    requires IsClosing(c)
    ensures !P.Accepts(P.Closing, t)
  {
    assert t[0] == a[j] && a[j] in a;
    if j + 1 < |a| {
      assert t[1..][0] == a[j + 1] && a[j + 1] in a;
    } else if c == ">" {
      assert c[0] == '>' && (a + c + e)[|a|] == c[0];
    }
  }

  /** The line behind its opening. */
  lemma Inner(rest: string, o: string, a: string, c: string, e: string) returns (t: string)
    requires rest == o + a + c + e && a != ""
    ensures t == a + c + e && rest == o + t && t != "" && t[0] == a[0]
  {
    t := a + c + e;
  }

  /** Something is always captured from an address line. */
  lemma {:induction false} ClosedFits(a: string, c: string, e: string)
    requires a != "" && '\n' !in a && IsClosing(c) && IsEol(e)
    ensures P.Capture(a + c + e, P.Closing).Some?
  {
    var t := a + c + e;
    assert t[..|a|] == a && t[|a|..] == c + e;
    assert c == ">" ==> (c + e)[1..] == e;
    assert P.Fits(t, |a|, P.Closing);
  }

  lemma {:induction false} AngleFits(s: string, o: string, t: string)
    requires (o == "" || o == "<") && P.Capture(t, P.Closing).Some? && s == o + t
    ensures P.Angle(s).Some?
  {
    if o == "<" { assert s[1..] == t; } else { assert s == t; }
  }

  lemma {:induction false} OpenedFits(rest: string, o: string, t: string)
    requires IsOpening(o) && P.Capture(t, P.Closing).Some? && rest == o + t
    ensures P.Address(rest).Some?
  {
    if o == "" || o == "<" {
      AngleFits(rest, o, t);
    } else {
      assert rest[1..] == o[1..] + t;
      AngleFits(rest[1..], o[1..], t);
    }
  }

  lemma {:induction false} AddressFits(rest: string, a: string)
    requires IsAddress(rest, a)
    ensures P.Address(rest).Some?
  {
    var o, c, e :| IsAround(rest, o, a, c, e);
    ClosedFits(a, c, e);
    var t := Inner(rest, o, a, c, e);
    OpenedFits(rest, o, t);
  }

  lemma {:induction false} OpenedIsCaptured(rest: string, o: string, t: string, a: string)
    requires IsOpening(o) && rest == o + t && t != "" && P.Capture(t, P.Closing) == Some(a)
    requires (o == "" || IsBlank(o[0])) && |o| < 2 ==> t[0] != '<'
    requires o == "" ==> !IsBlank(t[0])
    ensures P.Address(rest) == Some(a)
  {
    if o == "" {
      assert rest == t;
    } else if |o| == 2 {
      assert rest[1..] == "<" + t && rest[1..][1..] == t;
    } else {
      assert rest[1..] == t && rest[0] == o[0];
    }
  }

  lemma {:induction false} PlainIsCaptured(rest: string, a: string)
    requires IsAddress(rest, a) && IsPlain(a)
    ensures P.Address(rest) == Some(a)
  {
    var o, c, e :| IsAround(rest, o, a, c, e);
    ClosedIsCaptured(a, c, e);
    var t := Inner(rest, o, a, c, e);
    OpenedIsCaptured(rest, o, t, a);
  }

  lemma {:induction false} BracketedIsCaptured(rest: string, a: string)
    requires IsBracketed(rest, a)
    ensures P.Address(rest) == Some(a)
  {
    var o, e :| IsAround(rest, o, a, ">", e) && o != "" && o[|o| - 1] == '<';
    ClosedIsCaptured(a, ">", e);
    var t := Inner(rest, o, a, ">", e);
    OpenedIsCaptured(rest, o, t, a);
  }

  // Lines.

  lemma {:induction false} BareIs(s: string, upper: string, lower: string)
    requires IsWord(upper, lower) && |upper| == 4
    ensures P.Keyword(s, upper) && P.EndsLine(s[4..]) <==> IsBare(s, upper, lower)
  {
    OpensIs(s, upper, lower);
  }

  lemma {:induction false} QuitIff(s: string)
    ensures P.Classify(s) == P.Quit <==> IsBare(s, "QUIT", "quit")
  {
    BareWords();
    BareIs(s, "QUIT", "quit");
    OrderIsFree(s, P.PtQuit);
  }

  lemma {:induction false} RsetIff(s: string)
    ensures P.Classify(s) == P.Rset <==> IsBare(s, "RSET", "rset")
  {
    BareWords();
    BareIs(s, "RSET", "rset");
    OrderIsFree(s, P.PtRset);
  }

  lemma {:induction false} DataIff(s: string)
    ensures P.Classify(s) == P.Data <==> IsBare(s, "DATA", "data")
  {
    BareWords();
    BareIs(s, "DATA", "data");
    OrderIsFree(s, P.PtData);
  }

  lemma {:induction false} DataEndIff(s: string)
    ensures P.Classify(s) == P.DataEnd <==> IsDotLine(s)
  {
    OrderIsFree(s, P.PtDataEnd);
  }

  lemma {:induction false} VrfyIff(s: string, a: string)
    ensures P.Classify(s) == P.Vrfy(a) <==> IsNamed(s, "VRFY ", "vrfy ", a)
  {
    NamedWords();
    OpensIs(s, "VRFY ", "vrfy ");
    if |s| >= 5 { CaptureIs(s[5..], a); }
    OrderIsFree(s, P.PtVrfy);
  }

  lemma {:induction false} HeloIff(s: string, a: string)
    ensures P.Classify(s) == P.Helo(a) <==> IsNamed(s, "HELO ", "helo ", a)
  {
    NamedWords();
    OpensIs(s, "HELO ", "helo ");
    if |s| >= 5 { CaptureIs(s[5..], a); }
    OrderIsFree(s, P.PtHelo);
  }

  lemma {:induction false} EhloIff(s: string, a: string)
    ensures P.Classify(s) == P.Ehlo(a) <==> IsNamed(s, "EHLO ", "ehlo ", a)
  {
    NamedWords();
    OpensIs(s, "EHLO ", "ehlo ");
    if |s| >= 5 { CaptureIs(s[5..], a); }
    OrderIsFree(s, P.PtEhlo);
  }

  lemma {:induction false} TwoWordsAre(s: string, upper: string, lower: string, upper2: string, lower2: string)
    requires IsWord(upper, lower) && IsWord(upper2, lower2)
    ensures P.TwoWords(s, upper, upper2) <==> OpensTwo(s, upper, lower, upper2, lower2)
  {
    OpensIs(s, upper, lower);
    if |s| > |upper| { OpensIs(s[|upper| + 1..], upper2, lower2); }
  }

  lemma {:induction false} MailOpens(s: string)
    ensures P.TwoWords(s, "MAIL", "FROM:") <==> OpensTwo(s, "MAIL", "mail", "FROM:", "from:")
  {
    AddressWords();
    TwoWordsAre(s, "MAIL", "mail", "FROM:", "from:");
  }

  lemma {:induction false} RcptOpens(s: string)
    ensures P.TwoWords(s, "RCPT", "TO:") <==> OpensTwo(s, "RCPT", "rcpt", "TO:", "to:")
  {
    AddressWords();
    TwoWordsAre(s, "RCPT", "rcpt", "TO:", "to:");
  }

  /** What MAIL hands over always stands in its line; a plain sender is read
      exactly from the lines it stands in, and in brackets any sender is. */
  lemma {:induction false} MailIff(s: string, a: string)
    ensures P.Classify(s) == P.Mail(a) ==> IsMailLine(s, a)
    ensures IsMailLine(s, a) ==>
              P.Classify(s).Mail? && (IsPlain(a) || IsBracketed(s[10..], a) ==> P.Classify(s) == P.Mail(a))
  {
    MailOpens(s);
    OrderIsFree(s, P.PtMail);
    P.ClassifyHands(s);
    if P.Classify(s) == P.Mail(a) { CapturedAddress(s[10..], a); }
    if IsMailLine(s, a) { AddressFits(s[10..], a); }
    if IsMailLine(s, a) && IsPlain(a) { PlainIsCaptured(s[10..], a); }
    if IsMailLine(s, a) && IsBracketed(s[10..], a) { BracketedIsCaptured(s[10..], a); }
  }

  lemma {:induction false} RcptIff(s: string, a: string)
    ensures P.Classify(s) == P.Rcpt(a) ==> IsRcptLine(s, a)
    ensures IsRcptLine(s, a) ==>
              P.Classify(s).Rcpt? && (IsPlain(a) || IsBracketed(s[8..], a) ==> P.Classify(s) == P.Rcpt(a))
  {
    RcptOpens(s);
    OrderIsFree(s, P.PtRcpt);
    P.ClassifyHands(s);
    if P.Classify(s) == P.Rcpt(a) { CapturedAddress(s[8..], a); }
    if IsRcptLine(s, a) { AddressFits(s[8..], a); }
    if IsRcptLine(s, a) && IsPlain(a) { PlainIsCaptured(s[8..], a); }
    if IsRcptLine(s, a) && IsBracketed(s[8..], a) { BracketedIsCaptured(s[8..], a); }
  }

  /** Every other buffer is data. */
  ghost predicate IsCommandLine(s: string) {
    || IsBare(s, "QUIT", "quit") || IsBare(s, "RSET", "rset") || IsBare(s, "DATA", "data") || IsDotLine(s)
    || (exists a :: IsNamed(s, "VRFY ", "vrfy ", a)) || (exists a :: IsNamed(s, "HELO ", "helo ", a))
    || (exists a :: IsNamed(s, "EHLO ", "ehlo ", a)) || (exists a :: IsMailLine(s, a))
    || (exists a :: IsRcptLine(s, a))
  }

  lemma {:induction false} OtherIff(s: string)
    ensures P.Classify(s) == P.DataRecv <==> !IsCommandLine(s)
  {
    forall a ensures IsNamed(s, "VRFY ", "vrfy ", a) <==> P.Classify(s) == P.Vrfy(a) { VrfyIff(s, a); }
    forall a ensures IsNamed(s, "HELO ", "helo ", a) <==> P.Classify(s) == P.Helo(a) { HeloIff(s, a); }
    forall a ensures IsNamed(s, "EHLO ", "ehlo ", a) <==> P.Classify(s) == P.Ehlo(a) { EhloIff(s, a); }
    forall a ensures (IsMailLine(s, a) ==> P.Classify(s).Mail?) &&
                     (P.Classify(s) == P.Mail(a) ==> IsMailLine(s, a)) { MailIff(s, a); }
    forall a ensures (IsRcptLine(s, a) ==> P.Classify(s).Rcpt?) &&
                     (P.Classify(s) == P.Rcpt(a) ==> IsRcptLine(s, a)) { RcptIff(s, a); }
    QuitIff(s);
    RsetIff(s);
    DataIff(s);
    DataEndIff(s);
  }
}
