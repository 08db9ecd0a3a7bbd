/** The mailbox file: the server prints a letter, the client reads it line by
    line. */
module Mailbox {
  import opened Text
  import opened Pattern
  import opened Commands
  import S = Session
  import W = Stopwatch
  import H = History

  /** What process_data_end writes to the file. */
  function PrintLetter(l: S.Letter): string {
    l.mailFrom + "\n" + l.rcptTo + "\n" + l.body + "\n"
  }

  lemma LineTokens(a: string, rest: string)
    ensures Tokens(a + "\n" + rest, '\n') == Tokens(a, '\n') + Tokens(rest, '\n')
  {
    assert a + "\n" + rest == a + ['\n'] + rest;
    TokensConcat(a, '\n', rest);
  }

  lemma FileTokens(l: S.Letter)
    ensures Tokens(PrintLetter(l), '\n') ==
              Tokens(l.mailFrom, '\n') + (Tokens(l.rcptTo, '\n') + Tokens(l.body, '\n'))
  {
    var last := l.body + "\n" + "";
    var rest := l.rcptTo + "\n" + last;
    LineTokens(l.mailFrom, rest);
    LineTokens(l.rcptTo, last);
    LineTokens(l.body, "");
    PrintGrouping(l);
  }

  lemma LineFields(a: string, rest: string)
    ensures Fields(a + "\n" + rest, '\n') == Fields(a, '\n') + Fields(rest, '\n')
  {
    assert a + "\n" + rest == a + ['\n'] + rest;
    FieldsConcat(a, '\n', rest);
  }

  lemma FileFields(l: S.Letter)
    ensures Fields(PrintLetter(l), '\n') ==
              Fields(l.mailFrom, '\n') + (Fields(l.rcptTo, '\n') + (Fields(l.body, '\n') + Fields("", '\n')))
  {
    var last := l.body + "\n" + "";
    var rest := l.rcptTo + "\n" + last;
    LineFields(l.mailFrom, rest);
    LineFields(l.rcptTo, last);
    LineFields(l.body, "");
    PrintGrouping(l);
  }

  lemma OneField(s: string)
    requires '\n' !in s
    ensures Fields(s, '\n') == [s]
  {
    SpanAll(s, '\n');
  }

  lemma Headed(a: string, b: string, body: seq<string>, last: seq<string>)
    ensures [a] + ([b] + (body + last)) == [a, b] + body + last
  {
  }

  /** The lines of the file, the empty ones included: sender, recipient, and then
      those of the body as they are. */
  lemma FileLinesAre(l: S.Letter)
    requires '\n' !in l.mailFrom && '\n' !in l.rcptTo
    ensures Fields(PrintLetter(l), '\n') == [l.mailFrom, l.rcptTo] + Fields(l.body, '\n') + [""]
  {
    FileFields(l);
    OneField(l.mailFrom);
    OneField(l.rcptTo);
    OneField("");
    Headed(l.mailFrom, l.rcptTo, Fields(l.body, '\n'), [""]);
  }

  /** A file is opened for appending: what it then holds is read as the one letter
      and then the other. */
  lemma LettersAppend(l: S.Letter, m: S.Letter)
    ensures Tokens(PrintLetter(l) + PrintLetter(m), '\n') == Tokens(PrintLetter(l), '\n') + Tokens(PrintLetter(m), '\n')
  {
    var front := l.mailFrom + "\n" + l.rcptTo + "\n" + l.body;
    LineTokens(front, PrintLetter(m));
    LineTokens(front, "");
    assert PrintLetter(l) == front + "\n" + "";
  }

  lemma PrintGrouping(l: S.Letter)
    ensures PrintLetter(l) == l.mailFrom + "\n" + (l.rcptTo + "\n" + (l.body + "\n" + ""))
  {
  }

  lemma FirstTokensAreArguments(s: string, a: string, b: string, rest: seq<string>)
    requires Tokens(s, '\n') == [a, b] + rest
    ensures IsArgument(a) && IsArgument(b)
  {
    assert ([a, b] + rest)[0] == a && ([a, b] + rest)[1] == b;
  }

  /** Mailbox file round trip: the client reads back the sender, the recipient
      and the non-empty lines of the body exactly when sender and recipient are
      non-empty and hold no line feed. */
  lemma FileRoundTripIff(l: S.Letter)
    ensures Tokens(PrintLetter(l), '\n') == [l.mailFrom, l.rcptTo] + Tokens(l.body, '\n')
            <==> IsArgument(l.mailFrom) && IsArgument(l.rcptTo)
  {
    if IsArgument(l.mailFrom) && IsArgument(l.rcptTo) {
      FileTokens(l);
      SpanAll(l.mailFrom, '\n');
      SpanAll(l.rcptTo, '\n');
      assert [l.mailFrom] + ([l.rcptTo] + Tokens(l.body, '\n')) == [l.mailFrom, l.rcptTo] + Tokens(l.body, '\n');
    } else if Tokens(PrintLetter(l), '\n') == [l.mailFrom, l.rcptTo] + Tokens(l.body, '\n') {
      FirstTokensAreArguments(PrintLetter(l), l.mailFrom, l.rcptTo, Tokens(l.body, '\n'));
    }
  }

  /** Each input stands for the command its buffer is classified as. */
  ghost predicate AreHeard(h: seq<H.Input>) {
    forall i {:trigger IsHeard(h[i])} :: 0 <= i < |h| ==> IsHeard(h[i])
  }

  predicate IsHeard(x: H.Input) {
    x.command == Classify(x.buf)
  }

  lemma LettersGrow(accepted: W.TimeVal, h: seq<H.Input>, x: H.Input)
    requires H.Run(accepted, h + [x]).Some?
    ensures H.Run(accepted, h).Some?
    ensures var before := H.Run(accepted, h).value.letters;
            var after := H.Run(accepted, h + [x]).value.letters;
            before <= after && |after| <= |before| + 1
  {
    H.SavedIffTransaction(accepted, h, x);
  }

  /** A letter that both programs agree on. */
  ghost predicate IsReadable(l: S.Letter) {
    IsArgument(l.mailFrom) && IsArgument(l.rcptTo) && SplitAt(l.rcptTo) == Some((l.rcptUsername, l.rcptDomain))
  }

  lemma NewLetterIsReadable(accepted: W.TimeVal, h: seq<H.Input>, x: H.Input)
    requires AreHeard(h) && H.Run(accepted, h + [x]).Some? && H.Run(accepted, h).Some?
    requires H.Run(accepted, h + [x]).value.letters != H.Run(accepted, h).value.letters
    ensures var ls := H.Run(accepted, h + [x]).value.letters;
            ls != [] && IsReadable(H.Last(ls))
  {
    H.SavedIffTransaction(accepted, h, x);
    var m: nat, r: nat, d: nat :| H.Transaction(h, m, r, d);
    H.SavedLetterIsItsTransaction(accepted, h, x, m, r, d);
    assert IsHeard(h[m]) && IsHeard(h[r]);
  }

  lemma {:induction false} SavedLettersAreReadable(accepted: W.TimeVal, h: seq<H.Input>, k: nat)
    requires AreHeard(h) && H.Run(accepted, h).Some? && k < |H.Run(accepted, h).value.letters|
    ensures IsReadable(H.Run(accepted, h).value.letters[k])
    decreases |h|
  {
    var f := H.Front(h);
    var x := H.Last(h);
    assert f + [x] == h;
    assert AreHeard(f) by {
      forall i | 0 <= i < |f| ensures IsHeard(f[i]) { assert IsHeard(h[i]); }
    }
    LettersGrow(accepted, f, x);
    var before := H.Run(accepted, f).value.letters;
    if k < |before| {
      SavedLettersAreReadable(accepted, f, k);
    } else {
      NewLetterIsReadable(accepted, f, x);
    }
  }

  /** Every letter that any session saves comes back from its file. */
  lemma SavedLettersRoundTrip(accepted: W.TimeVal, h: seq<H.Input>, k: nat)
    requires AreHeard(h) && H.Run(accepted, h).Some? && k < |H.Run(accepted, h).value.letters|
    ensures var l := H.Run(accepted, h).value.letters[k];
            Tokens(PrintLetter(l), '\n') == [l.mailFrom, l.rcptTo] + Tokens(l.body, '\n')
  {
    SavedLettersAreReadable(accepted, h, k);
    FileRoundTripIff(H.Run(accepted, h).value.letters[k]);
  }
}
