/** The lines the client prints, read back by the server's patterns. */
module Commands {
  import opened Text
  import opened Pattern

  /** What the client sends in one visit to the write set. */
  datatype Message =
    | Hello(host: string)
    | MailFrom(sender: string)
    | RcptTo(recipient: string)
    | DataLine
    | Body(lines: seq<string>)
    | QuitLine

  function Unlines(lines: seq<string>): string {
    if lines == [] then "" else lines[0] + "\n" + Unlines(lines[1..])
  }

  /** The characters written to the socket. */
  function Print(m: Message): string {
    match m
    case Hello(host) => "HELO " + host + "\n"
    case MailFrom(sender) => "MAIL FROM: <" + sender + ">\n"
    case RcptTo(recipient) => "RCPT TO:<" + recipient + ">\n"
    case DataLine => "DATA\n"
    case Body(lines) => Unlines(lines) + TERMINATOR
    case QuitLine => "QUIT\n"
  }

  lemma {:induction false} OneLine(line: string, rest: string)
    requires '\n' !in line
    ensures Fields(line + "\n" + rest, '\n') == [line] + Fields(rest, '\n')
  {
    FieldsConcat(line, '\n', rest);
    SpanAll(line, '\n');
    assert line + "\n" + rest == line + ['\n'] + rest;
  }

  lemma Behind(a: string, b: string, c: string)
    ensures (a + b) + c == a + (b + c)
  {
  }

  lemma Refront(lines: seq<string>, more: seq<string>)
    requires lines != []
    ensures [lines[0]] + (lines[1..] + more) == lines + more
  {
  }

  lemma {:induction false} UnlinesFields(lines: seq<string>, rest: string)
    requires forall i :: 0 <= i < |lines| ==> '\n' !in lines[i]
    ensures Fields(Unlines(lines) + rest, '\n') == lines + Fields(rest, '\n')
  {
    if lines == [] {
      assert Unlines(lines) + rest == rest;
    } else {
      var tail := Unlines(lines[1..]) + rest;
      UnlinesFields(lines[1..], rest);
      OneLine(lines[0], tail);
      Behind(lines[0] + "\n", Unlines(lines[1..]), rest);
      Refront(lines, Fields(rest, '\n'));
    }
  }

  lemma TerminatorFields()
    ensures Fields(TERMINATOR, '\n') == ["\r"] + (["." + "\r"] + [""])
  {
    var dot := "." + "\r";
    OneLine("\r", dot + "\n" + "");
    OneLine(dot, "");
    SpanAll("", '\n');
    assert "\r" + "\n" + (dot + "\n" + "") == TERMINATOR;
  }

  /** A body is written as its lines, then an empty one and the lone dot, which end
      in CRLF. */
  lemma {:induction false} BodyLinesAre(lines: seq<string>)
    requires forall i :: 0 <= i < |lines| ==> '\n' !in lines[i]
    ensures Fields(Print(Body(lines)), '\n') == lines + (["\r"] + (["." + "\r"] + [""]))
  {
    UnlinesFields(lines, TERMINATOR);
    TerminatorFields();
  }

  predicate IsArgument(a: string) {
    a != "" && '\n' !in a
  }

  /** A different letter rules a keyword out. */
  lemma NotKeyword(s: string, word: string, i: nat)
    requires i < |s| && i < |word| && Upper(s[i]) != word[i]
    ensures !Keyword(s, word)
  {
  }

  lemma IsKeyword(s: string, word: string)
    requires |word| <= |s| && s[..|word|] == word && forall i :: 0 <= i < |word| ==> Upper(word[i]) == word[i]
    ensures Keyword(s, word)
  {
    forall i | 0 <= i < |word| ensures Upper(s[i]) == word[i] {
      assert s[..|word|][i] == s[i];
    }
  }

  /** The closing bracket and line feed end the capture, wherever else a
      bracket stands in the address. */
  lemma CaptureClosed(a: string)
    requires IsArgument(a)
    ensures Capture(a + ">\n", Closing) == Some(a)
  {
    var s := a + ">\n";
    assert s[..|a|] == a && s[|a|..] == ">\n" && ">\n"[1..] == "\n";
    assert Fits(s, |a|, Closing);
    forall j | 0 <= j < |a| ensures !Fits(s, j, Closing) {
      var t := s[j..];
      assert |t| >= 3 && t[|t| - 1] == '\n' && t[|t| - 2] == '>';
      assert t[1..][|t| - 3] == '>';
    }
    assert Capture(s, Closing).Some?;
  }

  lemma AngleClosed(a: string)
    requires IsArgument(a)
    ensures Angle("<" + a + ">\n") == Some(a)
  {
    CaptureClosed(a);
    assert ("<" + a + ">\n")[1..] == a + ">\n";
  }

  lemma MailAddress(a: string)
    requires IsArgument(a)
    ensures Address(" <" + a + ">\n") == Some(a)
  {
    AngleClosed(a);
    assert (" <" + a + ">\n")[1..] == "<" + a + ">\n";
  }

  lemma RcptAddress(a: string)
    requires IsArgument(a)
    ensures Address("<" + a + ">\n") == Some(a)
  {
    AngleClosed(a);
    assert ("<" + a + ">\n")[0] == '<';
  }

  /** Nothing tried before a verb matches a line that opens with it. */
  lemma OnlyMail(s: string)
    requires s != "" && s[0] == 'M'
    ensures !Matches(PtQuit, s) && !Matches(PtRset, s) && !Matches(PtVrfy, s)
    ensures !Matches(PtHelo, s) && !Matches(PtEhlo, s)
  {
    NotKeyword(s, "QUIT", 0);
    NotKeyword(s, "RSET", 0);
    NotKeyword(s, "VRFY ", 0);
    NotKeyword(s, "HELO ", 0);
    NotKeyword(s, "EHLO ", 0);
  }

  lemma OnlyRcpt(s: string)
    requires |s| > 1 && s[0] == 'R' && s[1] == 'C'
    ensures !Matches(PtQuit, s) && !Matches(PtRset, s) && !Matches(PtVrfy, s)
    ensures !Matches(PtHelo, s) && !Matches(PtEhlo, s) && !Matches(PtMail, s)
  {
    NotKeyword(s, "QUIT", 0);
    NotKeyword(s, "RSET", 1);
    NotKeyword(s, "VRFY ", 0);
    NotKeyword(s, "HELO ", 0);
    NotKeyword(s, "EHLO ", 0);
    NotKeyword(s, "MAIL", 0);
  }

  lemma OnlyData(s: string)
    requires s != "" && s[0] == 'D'
    ensures !Matches(PtQuit, s) && !Matches(PtRset, s) && !Matches(PtVrfy, s)
    ensures !Matches(PtHelo, s) && !Matches(PtEhlo, s) && !Matches(PtMail, s) && !Matches(PtRcpt, s)
  {
    NotKeyword(s, "QUIT", 0);
    NotKeyword(s, "RSET", 0);
    NotKeyword(s, "VRFY ", 0);
    NotKeyword(s, "HELO ", 0);
    NotKeyword(s, "EHLO ", 0);
    NotKeyword(s, "MAIL", 0);
    NotKeyword(s, "RCPT", 0);
  }

  lemma AreTwoWords(s: string, first: string, second: string, rest: string)
    requires s == first + " " + second + rest
    requires forall i :: 0 <= i < |first| ==> Upper(first[i]) == first[i]
    requires forall i :: 0 <= i < |second| ==> Upper(second[i]) == second[i]
    ensures TwoWords(s, first, second) && s[|first| + 1 + |second|..] == rest
  {
    var n := |first|;
    assert s[..n] == first && s[n] == ' ' && s[n + 1..][..|second|] == second;
    IsKeyword(s, first);
    IsKeyword(s[n + 1..], second);
  }

  lemma MailIs(s: string, rest: string, a: string)
    requires s == "MAIL" + " " + "FROM:" + rest && Address(rest) == Some(a)
    ensures Compute(PtMail, s) == Match(Some(a))
  {
    AreTwoWords(s, "MAIL", "FROM:", rest);
  }

  lemma RcptIs(s: string, rest: string, a: string)
    requires s == "RCPT" + " " + "TO:" + rest && Address(rest) == Some(a)
    ensures Compute(PtRcpt, s) == Match(Some(a))
  {
    AreTwoWords(s, "RCPT", "TO:", rest);
  }

  lemma Reassociate(verb: string, open: string, a: string, close: string)
    ensures (verb + open) + a + close == verb + (open + a + close)
  {
  }

  lemma {:induction false} ClassifiedMail(s: string, a: string)
    requires s != "" && s[0] == 'M' && Compute(PtMail, s) == Match(Some(a))
    ensures Classify(s) == Mail(a)
  {
    OnlyMail(s);
  }

  lemma {:induction false} ClassifiedRcpt(s: string, a: string)
    requires |s| > 1 && s[0] == 'R' && s[1] == 'C' && Compute(PtRcpt, s) == Match(Some(a))
    ensures Classify(s) == Rcpt(a)
  {
    OnlyRcpt(s);
  }

  lemma MailPrefix()
    ensures "MAIL FROM: <" == "MAIL" + " " + "FROM:" + " <"
  {
  }

  /** MAIL round trip: the sender comes back whatever characters but a line
      feed it holds. */
  lemma {:induction false} MailRoundTrip(a: string)
    requires IsArgument(a)
    ensures Classify(Print(MailFrom(a))) == Mail(a)
  {
    var s := Print(MailFrom(a));
    MailAddress(a);
    Reassociate("MAIL" + " " + "FROM:", " <", a, ">\n");
    MailPrefix();
    MailIs(s, " <" + a + ">\n", a);
    ClassifiedMail(s, a);
  }

  /** RCPT round trip. */
  lemma {:induction false} RcptRoundTrip(a: string)
    requires IsArgument(a)
    ensures Classify(Print(RcptTo(a))) == Rcpt(a)
  {
    var s := Print(RcptTo(a));
    RcptAddress(a);
    Reassociate("RCPT" + " " + "TO:", "<", a, ">\n");
    assert "RCPT TO:<" == "RCPT" + " " + "TO:" + "<";
    RcptIs(s, "<" + a + ">\n", a);
    ClassifiedRcpt(s, a);
  }

  /** HELO loses a carriage return at the end of the host name, and nothing else. */
  lemma HeloCapture(host: string)
    requires IsArgument(host)
    ensures Capture(host + "\n", LineEnd) ==
              Some(if |host| >= 2 && host[|host| - 1] == '\r' then host[..|host| - 1] else host)
  {
    var s := host + "\n";
    var k := if |host| >= 2 && host[|host| - 1] == '\r' then |host| - 1 else |host|;
    assert s[..k] == host[..k];
    assert '\n' !in host[..k];
    if k == |host| {
      assert s[k..] == "\n";
    } else {
      assert host[k..] == "\r" && s[k..] == host[k..] + "\n";
    }
    assert Fits(s, k, LineEnd);
    forall j | 1 <= j < k ensures !Fits(s, j, LineEnd) {
      var t := s[j..];
      assert |t| >= 2 && t[0] == host[j] && host[j] in host && t[|t| - 1] == '\n';
    }
  }

  lemma HeloRoundTrip(host: string)
    requires IsArgument(host)
    ensures Classify(Print(Hello(host))).Helo?
    ensures Classify(Print(Hello(host))) == Helo(host) <==> !(|host| >= 2 && host[|host| - 1] == '\r')
  {
    var s := Print(Hello(host));
    assert s[0] == 'H';
    NotKeyword(s, "QUIT", 0);
    NotKeyword(s, "RSET", 0);
    NotKeyword(s, "VRFY ", 0);
    assert s[..5] == "HELO ";
    IsKeyword(s, "HELO ");
    assert s[5..] == host + "\n";
    HeloCapture(host);
  }

  lemma BareLine(s: string, word: string)
    requires s == word + "\n" && |word| == 4 && forall i :: 0 <= i < 4 ==> Upper(word[i]) == word[i]
    ensures Keyword(s, word) && EndsLine(s[4..])
  {
    IsKeyword(s, word);
    assert s[4..] == "\n";
  }

  lemma DataIs(s: string)
    requires Keyword(s, "DATA") && EndsLine(s[4..]) && s[0] == 'D'
    ensures Classify(s) == Data
  {
    OnlyData(s);
  }

  lemma {:induction false} DataRoundTrip()
    ensures Classify(Print(DataLine)) == Data
  {
    BareLine("DATA\n", "DATA");
    DataIs("DATA\n");
  }

  lemma QuitRoundTrip()
    ensures Classify(Print(QuitLine)) == Quit
  {
    BareLine("QUIT\n", "QUIT");
  }
}
