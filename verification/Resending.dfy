/** A kept letter sent on: the client writes the lines of its body and then the
    terminator. */
module Resending {
  import opened Text
  import opened StringUtils
  import opened Pattern
  import opened Commands
  import opened BodyLines
  import S = Session
  import W = Stopwatch
  import H = History

  /** Before its end the stream contains what ends the data. */
  ghost predicate EndsEarly(lines: seq<string>) {
    var stream := Print(Body(lines));
    exists n: nat :: n < |stream| && HasSuffix(stream[..n], TERMINATOR)
  }

  /** A lone dot stands behind a line that ends in a carriage return. */
  ghost predicate HasDotLine(lines: seq<string>) {
    exists i: nat :: 0 < i < |lines| && IsDotLine(lines, i)
  }

  predicate IsDotLine(lines: seq<string>, i: nat)
    requires 0 < i < |lines|
  {
    lines[i] == ".\r" && lines[i - 1] != "" && lines[i - 1][|lines[i - 1]| - 1] == '\r'
  }

  lemma Letters(s: string, q: nat)
    requires OccursAt(s, TERMINATOR, q)
    ensures s[q] == '\r' && s[q + 1] == '\n' && s[q + 2] == '.' && s[q + 3] == '\r' && s[q + 4] == '\n'
  {
    var t := s[q..q + 5];
    assert forall i :: 0 <= i < 5 ==> s[q + i] == t[i];
  }

  /** A terminator that begins at the end of the first line makes the next one a
      dot line. */
  lemma FirstLine(line: string, lines: seq<string>, stream: string, q: nat)
    requires IsArgument(line) && AreLines(lines) && stream == line + "\n" + (Unlines(lines) + TERMINATOR)
    requires q <= |line| && OccursAt(stream, TERMINATOR, q)
    ensures q + 1 == |line| && line[q] == '\r' && lines != [] && lines[0] == ".\r"
  {
    Letters(stream, q);
    assert stream[|line|] == '\n' && forall i :: 0 <= i < |line| ==> stream[i] == line[i];
    var rest := Unlines(lines) + TERMINATOR;
    assert forall i :: 0 <= i < |rest| ==> stream[|line| + 1 + i] == rest[i];
    assert rest[0] == '.' && rest[1] == '\r' && rest[2] == '\n';
    assert lines != [];
    DotFirst(lines[0], Unlines(lines[1..]) + TERMINATOR, rest);
  }

  lemma DotFirst(line: string, more: string, rest: string)
    requires IsArgument(line) && rest == line + "\n" + more && |rest| > 2
    requires rest[0] == '.' && rest[1] == '\r' && rest[2] == '\n'
    ensures line == ".\r"
  {
    assert rest[|line|] == '\n' && forall i :: 0 <= i < |line| ==> rest[i] == line[i];
  }

  lemma {:induction false} FindsDotLine(lines: seq<string>, q: nat)
    requires AreLines(lines) && q < |Unlines(lines)| && OccursAt(Unlines(lines) + TERMINATOR, TERMINATOR, q)
    ensures HasDotLine(lines)
  {
    var line, more := lines[0], lines[1..];
    var rest := Unlines(more) + TERMINATOR;
    var stream := Unlines(lines) + TERMINATOR;
    assert stream == line + "\n" + rest;
    if q <= |line| {
      FirstLine(line, more, stream, q);
      assert IsDotLine(lines, 1);
    } else {
      var p := q - |line| - 1;
      assert rest[p..p + 5] == stream[q..q + 5];
      FindsDotLine(more, p);
      var i: nat :| 0 < i < |more| && IsDotLine(more, i);
      assert IsDotLine(lines, i + 1);
    }
  }

  lemma {:induction false} UnlinesConcat(a: seq<string>, b: seq<string>)
    ensures Unlines(a + b) == Unlines(a) + Unlines(b)
  {
    if a == [] {
      assert a + b == b;
    } else {
      UnlinesConcat(a[1..], b);
      assert (a + b)[1..] == a[1..] + b;
    }
  }

  lemma UnlinesEnd(a: seq<string>)
    requires a != [] && a[|a| - 1] != "" && a[|a| - 1][|a[|a| - 1]| - 1] == '\r'
    ensures HasSuffix(Unlines(a), CRLF)
  {
    var n := |a| - 1;
    assert a == a[..n] + [a[n]];
    UnlinesConcat(a[..n], [a[n]]);
    UnlinesOne(a[n]);
    var s := Unlines(a);
    assert s[|s| - 2] == '\r' && s[|s| - 1] == '\n';
    assert s[|s| - 2..] == CRLF;
  }

  lemma PrefixEnds(s: string, rest: string)
    requires HasSuffix(s, CRLF)
    ensures HasSuffix(s + ".\r\n", TERMINATOR)
    ensures (s + ".\r\n" + rest)[..|s| + 3] == s + ".\r\n"
  {
    assert s == s[..|s| - 2] + CRLF;
    assert s + ".\r\n" == s[..|s| - 2] + TERMINATOR;
  }

  lemma {:induction false} DotLineEnds(lines: seq<string>, i: nat)
    requires 0 < i < |lines| && IsDotLine(lines, i)
    ensures EndsEarly(lines)
  {
    var a, b := lines[..i], lines[i + 1..];
    var s, rest := Unlines(a), Unlines(b) + TERMINATOR;
    assert lines == a + ([lines[i]] + b);
    UnlinesConcat(a, [lines[i]] + b);
    UnlinesConcat([lines[i]], b);
    UnlinesOne(lines[i]);
    UnlinesEnd(a);
    PrefixEnds(s, rest);
    var stream := Print(Body(lines));
    assert stream == s + ".\r\n" + rest;
    assert HasSuffix(stream[..|s| + 3], TERMINATOR);
  }

  /** A body is cut short by its own contents exactly when it has a lone dot
      behind a line that ends in a carriage return. */
  lemma {:induction false} EndsEarlyIff(lines: seq<string>)
    requires AreLines(lines)
    ensures EndsEarly(lines) <==> HasDotLine(lines)
  {
    if EndsEarly(lines) {
      var stream := Print(Body(lines));
      var n: nat :| n < |stream| && HasSuffix(stream[..n], TERMINATOR);
      assert stream[n - 5..n] == stream[..n][n - 5..];
      FindsDotLine(lines, n - 5);
    }
    if HasDotLine(lines) {
      var i: nat :| 0 < i < |lines| && IsDotLine(lines, i);
      DotLineEnds(lines, i);
    }
  }

  // The letters that sessions save.

  lemma {:induction false} LastToken(s: string, d: char)
    requires s != "" && s[|s| - 1] != d
    ensures var ts := Tokens(s, d);
            ts != [] && ts[|ts| - 1][|ts[|ts| - 1]| - 1] == s[|s| - 1]
    decreases |s|
  {
    if s[0] == d {
      LastToken(s[1..], d);
    } else {
      var n := Span(s, d);
      if n < |s| {
        LastToken(s[n + 1..], d);
      }
    }
  }

  /** The lines of a body that was ended by the terminator. */
  lemma TerminatedTokens(kept: string)
    ensures Tokens(kept + TERMINATOR + CRLF, '\n') == Tokens(kept + "\r", '\n') + [".\r", "\r"]
  {
    var tail := ".\r" + "\n" + ("\r" + "\n");
    assert kept + TERMINATOR + CRLF == (kept + "\r") + ['\n'] + tail;
    TokensConcat(kept + "\r", '\n', tail);
    LineToken(".\r");
    LineToken("\r");
    TokensAfterLine(".\r" + "\n", "\r" + "\n");
  }

  lemma TerminatedHasDotLine(kept: string)
    ensures HasDotLine(Tokens(kept + TERMINATOR + CRLF, '\n'))
  {
    var a := Tokens(kept + "\r", '\n');
    TerminatedTokens(kept);
    LastToken(kept + "\r", '\n');
    assert IsDotLine(a + [".\r", "\r"], |a|);
  }

  lemma BodyEnds(xs: seq<H.Input>, x: H.Input)
    requires H.Ends(x)
    ensures x.command.DataEnd? ==> H.Body(xs + [x]) == H.Body(xs)
    ensures !x.command.DataEnd? ==>
              var kept := H.Body(xs) + x.buf[..|x.buf| - 5]; H.Body(xs + [x]) == kept + TERMINATOR + CRLF
  {
    H.BodyMore(xs, x);
    if !x.command.DataEnd? {
      assert x.buf == x.buf[..|x.buf| - 5] + TERMINATOR;
    }
  }

  /** Which saved letters cannot be sent on: those whose data was ended by the
      terminator, which is kept in the body, and of those ended by a lone dot the
      ones whose data had one behind a line that ends in a carriage return. */
  lemma {:induction false} SavedEndsEarlyIff(
      accepted: W.TimeVal, h: seq<H.Input>, x: H.Input, m: nat, r: nat, d: nat)
    requires H.Run(accepted, h + [x]).Some? && H.Transaction(h, m, r, d) && H.Ends(x) && x.env.opens
    ensures var letters := H.Run(accepted, h + [x]).value.letters;
            && letters != []
            && (EndsEarly(Tokens(H.Last(letters).body, '\n')) <==>
                  !x.command.DataEnd? || HasDotLine(Tokens(H.Body(h[d + 1..]), '\n')))
  {
    H.SavedLetterIsItsTransaction(accepted, h, x, m, r, d);
    var xs := h[d + 1..];
    BodyEnds(xs, x);
    EndsEarlyIff(Tokens(H.Body(xs + [x]), '\n'));
    if !x.command.DataEnd? {
      TerminatedHasDotLine(H.Body(xs) + x.buf[..|x.buf| - 5]);
    }
  }
}
