/** What becomes of the lines of a body: the client sends them one per line, the
    network groups them into buffers, and the server adds an end of line to each
    buffer it keeps. */
module BodyLines {
  import opened Text
  import opened Pattern
  import opened Commands
  import opened Conversation
  import opened Disks

  /** The lines that the transfer itself adds. */
  predicate IsArtefact(line: string) {
    line == "\r" || line == ".\r"
  }

  function Clean(lines: seq<string>): seq<string> {
    if lines == [] then []
    else Clean(lines[..|lines| - 1]) + if IsArtefact(lines[|lines| - 1]) then [] else [lines[|lines| - 1]]
  }

  function Flat(groups: seq<seq<string>>): seq<string> {
    if groups == [] then [] else Flat(groups[..|groups| - 1]) + groups[|groups| - 1]
  }

  ghost predicate AreLines(lines: seq<string>) {
    forall i :: 0 <= i < |lines| ==> IsArgument(lines[i])
  }

  predicate Ended(s: string) {
    s == "" || s[|s| - 1] == '\n'
  }

  lemma TokensAfterLine(a: string, b: string)
    requires Ended(a)
    ensures Tokens(a + b, '\n') == Tokens(a, '\n') + Tokens(b, '\n')
  {
    if a == "" {
      assert a + b == b;
    } else {
      var f := a[..|a| - 1];
      assert a == f + ['\n'] + "" && a + b == f + ['\n'] + b;
      TokensConcat(f, '\n', b);
      TokensConcat(f, '\n', "");
    }
  }

  lemma LineToken(line: string)
    requires IsArgument(line)
    ensures Tokens(line + "\n", '\n') == [line]
  {
    assert line + "\n" == line + ['\n'] + "";
    TokensConcat(line, '\n', "");
    SpanAll(line, '\n');
  }

  lemma {:induction false} TokensUnlines(lines: seq<string>)
    requires AreLines(lines)
    ensures Tokens(Unlines(lines), '\n') == lines && Ended(Unlines(lines))
  {
    if lines == [] {
    } else {
      TokensUnlines(lines[1..]);
      LineToken(lines[0]);
      TokensAfterLine(lines[0] + "\n", Unlines(lines[1..]));
      assert lines == [lines[0]] + lines[1..];
    }
  }

  lemma {:induction false} CleanConcat(a: seq<string>, b: seq<string>)
    ensures Clean(a + b) == Clean(a) + Clean(b)
  {
    if b == [] {
      assert a + b == a;
    } else {
      CleanConcat(a, b[..|b| - 1]);
      assert (a + b)[..|a + b| - 1] == a + b[..|b| - 1];
    }
  }

  lemma Artefacts()
    ensures Tokens(CRLF, '\n') == ["\r"] && Clean(["\r"]) == []
  {
    LineToken("\r");
    assert CRLF == "\r" + "\n";
    assert Clean([]) == [] && ["\r"][..0] == [];
  }

  lemma AppendCRLF(a: string, b: string)
    ensures a + b + CRLF == a + (b + CRLF)
  {
  }

  lemma AppendBoth(a: string, b: string)
    ensures a + (b + TERMINATOR) + CRLF == a + (b + (TERMINATOR + CRLF))
  {
  }

  lemma EndsInTerminator(s: string)
    ensures HasSuffix(s + TERMINATOR, TERMINATOR)
  {
  }

  /** The body kept of a delivery that ends in the terminator. */
  lemma {:induction false} KeptTerminated(chunks: seq<string>, last: string)
    requires chunks != [] && chunks[|chunks| - 1] == last + TERMINATOR
    ensures Kept(chunks) == Fold(chunks[..|chunks| - 1]) + (last + (TERMINATOR + CRLF))
  {
    EndsInTerminator(last);
    TerminatedIsData(last + TERMINATOR);
    AppendBoth(Fold(chunks[..|chunks| - 1]), last);
  }

  lemma UnlinesOne(v: string)
    ensures Unlines([v]) == v + "\n"
  {
    assert [v][1..] == [];
  }

  // Cuts at arbitrary places.

  /** A cut between lines, or in front of the end of a line that ends in CRLF. */
  predicate IsHarmless(u: string, v: string) {
    Ended(u) || CRLF <= v
  }

  /** The lines that the server keeps of a row of buffers. */
  function Out(chunks: seq<string>): seq<string> {
    if chunks == [] then [] else Clean(Tokens(chunks[0] + CRLF, '\n')) + Out(chunks[1..])
  }

  lemma {:induction false} OutGrows(chunks: seq<string>, c: string)
    ensures Out(chunks + [c]) == Out(chunks) + Clean(Tokens(c + CRLF, '\n'))
  {
    if chunks == [] {
      assert ([] + [c])[1..] == [];
      assert Out([c]) == Clean(Tokens(c + CRLF, '\n')) + Out([]);
    } else {
      OutGrows(chunks[1..], c);
      assert (chunks + [c])[1..] == chunks[1..] + [c];
      Associate(Clean(Tokens(chunks[0] + CRLF, '\n')), Out(chunks[1..]), Clean(Tokens(c + CRLF, '\n')));
    }
  }

  lemma {:induction false} FoldIsOut(chunks: seq<string>)
    ensures Ended(Fold(chunks)) && Clean(Tokens(Fold(chunks), '\n')) == Out(chunks)
  {
    if chunks == [] {
    } else {
      var n := |chunks| - 1;
      var kept := Fold(chunks[..n]);
      FoldIsOut(chunks[..n]);
      OutGrows(chunks[..n], chunks[n]);
      assert chunks == chunks[..n] + [chunks[n]];
      AppendCRLF(kept, chunks[n]);
      TokensAfterLine(kept, chunks[n] + CRLF);
      CleanConcat(Tokens(kept, '\n'), Tokens(chunks[n] + CRLF, '\n'));
    }
  }

  /** Carriage returns, less the dots. Transfer never lowers this number. */
  function Weight(s: string): int {
    if s == "" then 0
    else (if s[0] == '\r' then 1 else if s[0] == '.' then -1 else 0) + Weight(s[1..])
  }

  function Total(lines: seq<string>): int {
    if lines == [] then 0 else Weight(lines[0]) + Total(lines[1..])
  }

  lemma {:induction false} WeightConcat(a: string, b: string)
    ensures Weight(a + b) == Weight(a) + Weight(b)
  {
    if a == "" {
      assert a + b == b;
    } else {
      WeightConcat(a[1..], b);
      assert (a + b)[1..] == a[1..] + b;
    }
  }

  lemma {:induction false} TotalConcat(a: seq<string>, b: seq<string>)
    ensures Total(a + b) == Total(a) + Total(b)
  {
    if a == [] {
      assert a + b == b;
    } else {
      TotalConcat(a[1..], b);
      assert (a + b)[1..] == a[1..] + b;
    }
  }

  lemma {:induction false} CleanCons(lines: seq<string>)
    requires AreLines(lines) && lines != []
    ensures Clean(lines) == KeptOf(lines[0]) + Clean(lines[1..])
  {
    assert lines == [lines[0]] + lines[1..];
    CleanConcat([lines[0]], lines[1..]);
    CleanOne(lines[0]);
  }

  /** The buffers continue a line that began with p, up to the lines' end and the
      beginning of another. */
  ghost predicate Continue(p: string, chunks: seq<string>, lines: seq<string>, tail: string) {
    && '\n' !in p && '\n' !in tail && p + Concat(chunks) == Unlines(lines) + tail && AreLines(lines)
    && (p != "" && |chunks| > 1 ==> chunks[0] != "")
    && (forall i :: 1 <= i < |chunks| - 1 ==> chunks[i] != "")
  }

  /** The number of cuts that are not harmless. */
  function Bad(chunks: seq<string>): nat {
    if |chunks| < 2 then 0
    else (if IsHarmless(chunks[0], chunks[1]) then 0 else 1) + Bad(chunks[1..])
  }

  lemma {:induction false} BadIff(chunks: seq<string>)
    ensures Bad(chunks) == 0 <==> forall i :: 0 <= i < |chunks| - 1 ==> IsHarmless(chunks[i], chunks[i + 1])
  {
    if |chunks| < 2 {
    } else {
      var t := chunks[1..];
      BadIff(t);
      if Bad(chunks) == 0 {
        forall i | 0 <= i < |chunks| - 1 ensures IsHarmless(chunks[i], chunks[i + 1]) {
          if i > 0 {
            assert IsHarmless(t[i - 1], t[i - 1 + 1]);
          }
        }
      }
      if forall i :: 0 <= i < |chunks| - 1 ==> IsHarmless(chunks[i], chunks[i + 1]) {
        forall i | 0 <= i < |t| - 1 ensures IsHarmless(t[i], t[i + 1]) {
          assert IsHarmless(chunks[i + 1], chunks[i + 1 + 1]);
        }
      }
    }
  }

  lemma CleanOne(line: string)
    ensures Clean([line]) == if IsArtefact(line) then [] else [line]
  {
    assert [line][..0] == [];
  }

  /** What a buffer without an end of line, or the last part of one, becomes. */
  lemma Piece(c: string)
    requires '\n' !in c
    ensures Clean(Tokens(c + CRLF, '\n')) == if c == "" || c == "." then [] else [c + "\r"]
    ensures Total(Clean(Tokens(c + CRLF, '\n'))) >= Weight(c) + if c == "" then 0 else 1
  {
    var line := c + "\r";
    assert c + CRLF == line + "\n";
    LineToken(line);
    CleanOne(line);
    assert c != "" && c != "." ==> !IsArtefact(line) by { assert line[..|c|] == c; }
    WeightConcat(c, "\r");
  }

  lemma CutLine(a: string, x: string, b: string, y: string)
    requires a + ['\n'] + x == b + ['\n'] + y && '\n' !in a && '\n' !in b
    ensures a == b && x == y
  {
    var text := a + ['\n'] + x;
    SpanBefore(a, '\n', x);
    SpanBefore(b, '\n', y);
    SpanAll(a, '\n');
    SpanAll(b, '\n');
    assert a == text[..|a|] && b == text[..|a|];
    assert x == text[|a| + 1..] && y == text[|a| + 1..];
  }

  lemma {:induction false} LineOf(p: string, chunks: seq<string>, lines: seq<string>, tail: string)
    returns (q: string, rest: string)
    requires Continue(p, chunks, lines, tail) && chunks != [] && '\n' in chunks[0]
    ensures chunks[0] == q + ['\n'] + rest && '\n' !in q
    ensures lines != [] && lines[0] == p + q && Continue("", [rest] + chunks[1..], lines[1..], tail)
    ensures |Concat([rest] + chunks[1..])| < |Concat(chunks)|
    ensures Ended(chunks[0]) <==> Ended(rest)
  {
    var k := Span(chunks[0], '\n');
    q, rest := chunks[0][..k], chunks[0][k + 1..];
    var more := [rest] + chunks[1..];
    assert more[1..] == chunks[1..];
    assert Concat(chunks) == q + (['\n'] + Concat(more));
    assert p + Concat(chunks) == (p + q) + ['\n'] + Concat(more);
    assert (p + Concat(chunks))[|p + q|] == '\n';
    assert lines == [] ==> Unlines(lines) + tail == tail;
    assert Unlines(lines) + tail == lines[0] + ['\n'] + (Unlines(lines[1..]) + tail);
    CutLine(p + q, Concat(more), lines[0], Unlines(lines[1..]) + tail);
  }

  lemma TokensOfLine(q: string, rest: string)
    requires '\n' !in q
    ensures Clean(Tokens(q + ['\n'] + rest + CRLF, '\n')) == KeptOf(q) + Clean(Tokens(rest + CRLF, '\n'))
  {
    assert q + ['\n'] + rest + CRLF == q + ['\n'] + (rest + CRLF);
    TokensConcat(q, '\n', rest + CRLF);
    SpanAll(q, '\n');
    CleanOne(q);
    CleanConcat(Tokens(q, '\n'), Tokens(rest + CRLF, '\n'));
  }

  /** What is kept of a line, or of the last part of one. */
  function KeptOf(q: string): seq<string> {
    if q == "" || IsArtefact(q) then [] else [q]
  }

  /** The first line of a buffer stands for itself. */
  lemma {:induction false} OutOfLine(q: string, rest: string, chunks: seq<string>)
    requires chunks != [] && chunks[0] == q + ['\n'] + rest && '\n' !in q
    ensures Out(chunks) == KeptOf(q) + Out([rest] + chunks[1..])
    ensures Total(Out(chunks)) == Total(KeptOf(q)) + Total(Out([rest] + chunks[1..]))
  {
    var more := [rest] + chunks[1..];
    assert more[1..] == chunks[1..];
    TokensOfLine(q, rest);
    Associate(KeptOf(q), Clean(Tokens(rest + CRLF, '\n')), Out(chunks[1..]));
    TotalConcat(KeptOf(q), Out(more));
  }

  lemma Associate(a: seq<string>, b: seq<string>, c: seq<string>)
    ensures (a + b) + c == a + (b + c)
  {
  }

  lemma {:induction false} BadOfLine(c: string, rest: string, chunks: seq<string>)
    requires chunks != [] && chunks[0] == c && (Ended(c) <==> Ended(rest))
    ensures Bad([rest] + chunks[1..]) == Bad(chunks)
  {
    var more := [rest] + chunks[1..];
    assert more[1..] == chunks[1..] && |more| == |chunks|;
    assert |chunks| >= 2 ==> more[1] == chunks[1];
  }

  /** The weight that the buffers of an unfinished line owe. */
  function Debt(p: string, chunks: seq<string>): nat {
    if p != "" && chunks != [] && CRLF <= chunks[0] then 1 else 0
  }

  lemma {:induction false} LineAddsWeight(
      p: string, q: string, rest: string, chunks: seq<string>, more: seq<string>, lines: seq<string>, tail: int)
    requires chunks != [] && chunks[0] == q + ['\n'] + rest && '\n' !in q
    requires AreLines(lines) && lines != [] && lines[0] == p + q
    requires more == [rest] + chunks[1..] && Bad(more) == Bad(chunks)
    requires Total(Out(more)) >= Total(Clean(lines[1..])) + tail + Bad(more)
    ensures Total(Out(chunks)) + Debt(p, chunks) >= Total(Clean(lines)) + tail - Weight(p) + Bad(chunks)
  {
    OutOfLine(q, rest, chunks);
    CleanCons(lines);
    TotalConcat(KeptOf(lines[0]), Clean(lines[1..]));
    KeptWeight(p, q, chunks[0], rest);
  }

  lemma {:induction false} PieceAddsWeight(p: string, chunks: seq<string>, more: seq<string>, total: int)
    requires chunks != [] && '\n' !in chunks[0] && more == chunks[1..]
    requires p != "" && |chunks| > 1 ==> chunks[0] != ""
    requires Total(Out(more)) + Debt(p + chunks[0], more) >= total - Weight(p + chunks[0]) + Bad(more)
    ensures Total(Out(chunks)) + Debt(p, chunks) >= total - Weight(p) + Bad(chunks)
  {
    var c := chunks[0];
    Piece(c);
    TotalConcat(Clean(Tokens(c + CRLF, '\n')), Out(more));
    WeightConcat(p, c);
  }

  /** Every cut that is not harmless adds weight. */
  lemma {:induction false} CutsAddWeight(p: string, chunks: seq<string>, lines: seq<string>, tail: string)
    requires Continue(p, chunks, lines, tail)
    ensures Total(Out(chunks)) + Debt(p, chunks) >=
              Total(Clean(lines)) + Weight(tail) - Weight(p) + Bad(chunks)
    decreases |Concat(chunks)| + |chunks|
  {
    if chunks == [] {
      NothingLeft(p, lines, tail);
    } else {
      var c := chunks[0];
      if '\n' in c {
        var q, rest := LineOf(p, chunks, lines, tail);
        var more := [rest] + chunks[1..];
        CutsAddWeight("", more, lines[1..], tail);
        BadOfLine(c, rest, chunks);
        LineAddsWeight(p, q, rest, chunks, more, lines, Weight(tail));
      } else {
        assert Continue(p + c, chunks[1..], lines, tail);
        CutsAddWeight(p + c, chunks[1..], lines, tail);
        PieceAddsWeight(p, chunks, chunks[1..], Total(Clean(lines)) + Weight(tail));
      }
    }
  }

  lemma {:induction false} NothingLeft(p: string, lines: seq<string>, tail: string)
    requires '\n' !in p && p + "" == Unlines(lines) + tail
    ensures lines == [] && p == tail
  {
    assert p + "" == p;
    if lines != [] {
      HasEnd(lines);
    } else {
      assert Unlines(lines) + tail == tail;
    }
  }

  /** What is kept of the rest of a line, against what the whole line is worth. */
  lemma {:induction false} KeptWeight(p: string, q: string, c: string, rest: string)
    requires c == q + ['\n'] + rest && p + q != ""
    ensures Total(KeptOf(q)) + (if p != "" && CRLF <= c then 1 else 0) >= Total(KeptOf(p + q)) - Weight(p)
  {
    Weights();
    if p == "" {
      assert p + q == q;
    } else {
      KeptIsWeight(p, q);
      KeptIsWeight("", q);
      assert "" + q == q;
      if q == "\r" { assert c[..2] == CRLF; }
      if p + q == ".\r" { PartsOfDot(p, q); }
      if p + q == "\r" { assert |p| == 1 && p[0] == (p + q)[0]; }
    }
  }

  lemma PartsOfDot(p: string, q: string)
    requires p != "" && p + q == ".\r"
    ensures (p == "." && q == "\r") || (p == ".\r" && q == "")
  {
    assert p == (p + q)[..|p|] && q == (p + q)[|p|..];
  }

  lemma Weights()
    ensures Weight("") == 0 && Weight("\r") == 1 && Weight(".") == -1 && Weight(".\r") == 0
  {
    assert "\r"[1..] == "" && "."[1..] == "" && ".\r"[1..] == "\r";
  }

  /** A kept line counts in full. */
  lemma {:induction false} KeptIsWeight(p: string, q: string)
    ensures Total(KeptOf(p + q)) == if p + q == "" || IsArtefact(p + q) then 0 else Weight(p) + Weight(q)
  {
    WeightConcat(p, q);
    if p + q != "" && !IsArtefact(p + q) {
      assert [p + q][1..] == [];
    }
  }

  /** The line that a harmless cut leaves unfinished, kept with its buffer. */
  lemma {:induction false} HarmlessLine(p: string, q: string, rest: string, chunks: seq<string>, lines: seq<string>)
    requires chunks != [] && chunks[0] == q + ['\n'] + rest && '\n' !in q
    requires AreLines(lines) && lines != [] && lines[0] == p + q
    requires p != "" ==> CRLF <= chunks[0]
    requires Out([rest] + chunks[1..]) == Clean(lines[1..])
    ensures Out(chunks) == Clean(if p == "" then lines else lines[1..])
  {
    OutOfLine(q, rest, chunks);
    if p == "" {
      assert p + q == q;
      CleanCons(lines);
    } else {
      StartsLine(chunks[0], q, rest);
    }
  }

  lemma {:induction false} HarmlessPiece(chunks: seq<string>, lines: seq<string>)
    requires |chunks| > 1 && chunks[0] != "" && '\n' !in chunks[0] && CRLF <= chunks[1]
    requires Continue(chunks[0], chunks[1..], lines, "") && lines != []
    requires Out(chunks[1..]) == Clean(lines[1..])
    ensures Out(chunks) == Clean(lines)
  {
    LineGoesOn(chunks[0], chunks[1..], lines);
    Piece(chunks[0]);
    CleanCons(lines);
  }

  lemma {:induction false} LineGoesOn(c: string, more: seq<string>, lines: seq<string>)
    requires c != "" && Continue(c, more, lines, "") && more != [] && CRLF <= more[0]
    ensures lines != [] && lines[0] == c + "\r" && KeptOf(lines[0]) == if c == "." then [] else [c + "\r"]
  {
    assert more[0][..2][1] == '\n';
    var q, rest := LineOf(c, more, lines, "");
    StartsLine(more[0], q, rest);
    assert (c + "\r")[..|c|] == c;
  }

  /** Harmless cuts leave every line as it is. */
  lemma {:induction false} HarmlessCuts(p: string, chunks: seq<string>, lines: seq<string>)
    requires Continue(p, chunks, lines, "") && Bad(chunks) == 0
    requires p != "" ==> chunks != [] && CRLF <= chunks[0]
    ensures p != "" ==> lines != []
    ensures Out(chunks) == Clean(if p == "" then lines else lines[1..])
    decreases |Concat(chunks)| + |chunks|
  {
    if chunks == [] {
      NothingLeft(p, lines, "");
    } else {
      var c, more := chunks[0], chunks[1..];
      if '\n' in c {
        var q, rest := LineOf(p, chunks, lines, "");
        BadOfLine(c, rest, chunks);
        HarmlessCuts("", [rest] + more, lines[1..]);
        HarmlessLine(p, q, rest, chunks, lines);
      } else if c == "" {
        Piece(c);
        assert Continue("", more, lines, "");
        HarmlessCuts("", more, lines);
      } else {
        assert p == "" by { if p != "" { EndOfCRLF(c); } }
        assert p + Concat(chunks) == Concat(chunks);
        LastIsEnded(chunks, lines);
        assert IsHarmless(chunks[0], chunks[1]);
        assert Continue(c, more, lines, "");
        HarmlessCuts(c, more, lines);
        HarmlessPiece(chunks, lines);
      }
    }
  }

  lemma StartsLine(c: string, q: string, rest: string)
    requires c == q + ['\n'] + rest && '\n' !in q && CRLF <= c
    ensures q == "\r"
  {
    assert c[0] == '\r' && c[1] == '\n' && c[|q|] == '\n';
  }

  lemma {:induction false} HasEnd(lines: seq<string>)
    requires lines != []
    ensures '\n' in Unlines(lines)
  {
    var text := lines[0] + ("\n" + Unlines(lines[1..]));
    assert text[|lines[0]|] == '\n';
    assert Unlines(lines) == text;
  }

  /** A body does not stop inside a line. */
  lemma {:induction false} LastIsEnded(chunks: seq<string>, lines: seq<string>)
    requires chunks != [] && Concat(chunks) == Unlines(lines) && chunks[0] != "" && '\n' !in chunks[0]
    ensures |chunks| > 1
  {
    assert Concat(chunks) == chunks[0] + Concat(chunks[1..]);
    if lines != [] {
      HasEnd(lines);
    }
  }

  /** A delivery of a body: its buffers, with the terminator added to the last. */
  function Delivery(chunks: seq<string>): (delivery: seq<string>)
    requires chunks != []
    ensures |delivery| == |chunks|
  {
    chunks[..|chunks| - 1] + [chunks[|chunks| - 1] + TERMINATOR]
  }

  lemma {:induction false} KeptIsOut(chunks: seq<string>)
    requires chunks != []
    ensures Clean(Tokens(Kept(Delivery(chunks)), '\n')) == Out(chunks)
  {
    var n := |chunks| - 1;
    var last := chunks[n];
    KeptTerminated(Delivery(chunks), last);
    assert Delivery(chunks)[..n] == chunks[..n];
    var kept := Fold(chunks[..n]);
    assert kept + (last + (TERMINATOR + CRLF)) == Fold(chunks) + (".\r" + "\n" + CRLF);
    FoldIsOut(chunks);
    Artefacts();
    LineToken(".\r");
    TokensAfterLine(".\r" + "\n", CRLF);
    TokensAfterLine(Fold(chunks), ".\r" + "\n" + CRLF);
    CleanConcat(Tokens(Fold(chunks), '\n'), [".\r"] + ["\r"]);
    CleanConcat([".\r"], ["\r"]);
    CleanOne(".\r");
  }

  /** The buffers of lines that are cut between lines only. */
  lemma {:induction false} OutOfLines(chunks: seq<string>, groups: seq<seq<string>>)
    requires |chunks| == |groups| && forall i :: 0 <= i < |groups| ==> chunks[i] == Unlines(groups[i])
    requires forall i :: 0 <= i < |groups| ==> AreLines(groups[i])
    ensures Out(chunks) == Clean(Flat(groups))
  {
    if chunks == [] {
    } else {
      var n := |chunks| - 1;
      OutOfLines(chunks[..n], groups[..n]);
      assert chunks == chunks[..n] + [chunks[n]];
      OutGrows(chunks[..n], chunks[n]);
      WholeLines(groups[n]);
      CleanConcat(Flat(groups[..n]), groups[n]);
    }
  }

  lemma {:induction false} WholeLines(lines: seq<string>)
    requires AreLines(lines)
    ensures Clean(Tokens(Unlines(lines) + CRLF, '\n')) == Clean(lines)
  {
    TokensUnlines(lines);
    Artefacts();
    TokensAfterLine(Unlines(lines), CRLF);
    CleanConcat(lines, ["\r"]);
  }

  /** However the network groups the lines of a body, the lines of the body the
      server keeps, but for those the transfer adds, are the lines sent, in
      order. */
  lemma {:induction false} GroupingIsInvisible(chunks: seq<string>, groups: seq<seq<string>>)
    requires |chunks| == |groups| > 0 && forall i :: 0 <= i < |groups| ==> chunks[i] == Unlines(groups[i])
    requires forall i :: 0 <= i < |groups| ==> AreLines(groups[i])
    ensures Clean(Tokens(Kept(Delivery(chunks)), '\n')) == Clean(Flat(groups))
  {
    KeptIsOut(chunks);
    OutOfLines(chunks, groups);
  }

  ghost predicate AllHarmless(chunks: seq<string>) {
    forall i :: 0 <= i < |chunks| - 1 ==> IsHarmless(chunks[i], chunks[i + 1])
  }

  /** The buffers of a body without its terminator. */
  lemma {:induction false} OutIff(chunks: seq<string>, lines: seq<string>)
    requires AreLines(lines) && Concat(chunks) == Unlines(lines)
    requires forall i :: 0 <= i < |chunks| - 1 ==> chunks[i] != ""
    ensures Out(chunks) == Clean(lines) <==> AllHarmless(chunks)
  {
    assert Unlines(lines) + "" == Unlines(lines) && "" + Concat(chunks) == Concat(chunks);
    assert Continue("", chunks, lines, "");
    BadIff(chunks);
    CutsAddWeight("", chunks, lines, "");
    Weights();
    if Bad(chunks) == 0 {
      HarmlessCuts("", chunks, lines);
    }
  }

  /** A cut behind the first character of the terminator. */
  lemma {:induction false} TornTerminator(chunks: seq<string>, lines: seq<string>)
    requires AreLines(lines) && Concat(chunks) == Unlines(lines) + "\r"
    requires forall i :: 0 <= i < |chunks| - 1 ==> chunks[i] != ""
    ensures Out(chunks) != Clean(lines)
  {
    assert "" + Concat(chunks) == Concat(chunks);
    assert Continue("", chunks, lines, "\r");
    CutsAddWeight("", chunks, lines, "\r");
    Weights();
  }

  lemma HarmlessGrows(front: seq<string>, u: string, v: string)
    ensures AllHarmless(front + [u] + [v]) <==> AllHarmless(front + [u]) && IsHarmless(u, v)
  {
    var a, b := front + [u], front + [u] + [v];
    assert forall i :: 0 <= i < |a| ==> b[i] == a[i];
    if AllHarmless(b) {
      assert IsHarmless(b[|front|], b[|front| + 1]);
      forall i | 0 <= i < |a| - 1 ensures IsHarmless(a[i], a[i + 1]) {
        assert IsHarmless(b[i], b[i + 1]);
      }
    }
    if AllHarmless(a) && IsHarmless(u, v) {
      forall i | 0 <= i < |b| - 1 ensures IsHarmless(b[i], b[i + 1]) {
        if i < |a| - 1 { assert IsHarmless(a[i], a[i + 1]); }
      }
    }
  }

  /** What follows the last line in its buffer does not change the cuts. */
  lemma {:induction false} HarmlessBefore(front: seq<string>, rest: string, more: string, lines: seq<string>)
    requires AreLines(lines) && Concat(front + [rest]) == Unlines(lines)
    requires forall i :: 0 <= i < |front| ==> front[i] != ""
    ensures AllHarmless(front + [rest + more]) <==> AllHarmless(front + [rest])
  {
    if front != [] {
      var f, u := front[..|front| - 1], front[|front| - 1];
      assert front == f + [u];
      HarmlessLast(f, u, rest, more, lines);
    }
  }

  lemma {:induction false} HarmlessLast(f: seq<string>, u: string, rest: string, more: string, lines: seq<string>)
    requires AreLines(lines) && u != "" && Concat(f + [u] + [rest]) == Unlines(lines)
    ensures AllHarmless(f + [u] + [rest + more]) <==> AllHarmless(f + [u] + [rest])
  {
    TokensUnlines(lines);
    ConcatMore(f + [u], rest);
    ConcatMore(f, u);
    LastLine(Concat(f), u, rest, more, Unlines(lines));
    HarmlessGrows(f, u, rest + more);
    HarmlessGrows(f, u, rest);
  }

  lemma EndOfCRLF(v: string)
    requires CRLF <= v
    ensures '\n' in v
  {
    assert v[1] == CRLF[1];
  }

  lemma NoCRLF(v: string)
    requires v != "" && v[0] != '\r'
    ensures !(CRLF <= v)
  {
    assert CRLF[0] == '\r';
  }

  lemma LastLine(before: string, u: string, rest: string, more: string, text: string)
    requires u != "" && Ended(text) && (before + u) + rest == text
    ensures IsHarmless(u, rest + more) <==> IsHarmless(u, rest)
  {
    if rest == "" {
      assert text == before + u && text[|text| - 1] == u[|u| - 1];
    } else if |rest| == 1 {
      assert text[|text| - 1] == rest[0];
      NoCRLF(rest + more);
    } else {
      assert (rest + more)[..2] == rest[..2];
    }
  }

  /** The terminator comes in the last buffer. */
  lemma {:induction false} TerminatedIff(front: seq<string>, rest: string, lines: seq<string>)
    requires AreLines(lines) && Concat(front + [rest + TERMINATOR]) == Unlines(lines) + TERMINATOR
    requires forall i :: 0 <= i < |front| ==> front[i] != ""
    ensures Clean(Tokens(Kept(front + [rest + TERMINATOR]), '\n')) == Clean(lines) <==>
              AllHarmless(front + [rest + TERMINATOR])
  {
    var chunks := front + [rest];
    assert chunks[..|chunks| - 1] == front;
    ConcatFront(chunks, TERMINATOR);
    Cancel(Concat(chunks), Unlines(lines), TERMINATOR);
    KeptIsOut(chunks);
    OutIff(chunks, lines);
    HarmlessBefore(front, rest, TERMINATOR, lines);
  }

  lemma EndAdded(rest: string)
    ensures Clean(Tokens(rest + CRLF + CRLF, '\n')) == Clean(Tokens(rest + CRLF, '\n'))
  {
    Artefacts();
    TokensAfterLine(rest + CRLF, CRLF);
    CleanConcat(Tokens(rest + CRLF, '\n'), ["\r"]);
  }

  /** The last buffer is a lone dot, and the one before ends in the first half of
      the terminator. */
  lemma {:induction false} DottedIff(front: seq<string>, rest: string, lines: seq<string>)
    requires AreLines(lines) && Concat(front + [rest + CRLF]) == Unlines(lines) + CRLF
    requires forall i :: 0 <= i < |front| ==> front[i] != ""
    ensures Out(front + [rest + CRLF]) == Clean(lines) <==> AllHarmless(front + [rest + CRLF])
  {
    var chunks := front + [rest];
    assert chunks[..|chunks| - 1] == front;
    ConcatFront(chunks, CRLF);
    Cancel(Concat(chunks), Unlines(lines), CRLF);
    OutGrows(front, rest);
    OutGrows(front, rest + CRLF);
    EndAdded(rest);
    OutIff(chunks, lines);
    HarmlessBefore(front, rest, CRLF, lines);
  }

  /** The buffers before the last, when that is a lone dot. */
  lemma {:induction false} FrontIff(f: seq<string>, u: string, last: string, lines: seq<string>)
    requires AreLines(lines) && u != "" && (forall i :: 0 <= i < |f| ==> f[i] != "")
    requires last == ".\r\n" && Concat(f + [u]) == Unlines(lines) + CRLF
    ensures Out(f + [u]) == Clean(lines) <==> AllHarmless(f + [u] + [last])
  {
    ConcatMore(f, u);
    HarmlessGrows(f, u, last);
    var text := Unlines(lines) + CRLF;
    if |u| == 1 {
      assert u[0] == text[|text| - 1];
      assert Concat(f) == text[..|text| - 1];
      OutGrows(f, u);
      TornInside(f, u, lines);
    } else {
      var rest := u[..|u| - 2];
      assert u[|u| - 2..] == text[|text| - 2..] == CRLF;
      assert u == rest + CRLF;
      DottedIff(f, rest, lines);
    }
  }

  lemma {:induction false} TornInside(f: seq<string>, u: string, lines: seq<string>)
    requires AreLines(lines) && (forall i :: 0 <= i < |f| ==> f[i] != "")
    requires |u| == 1 && u[0] == '\n' && Concat(f) == (Unlines(lines) + CRLF)[..|Unlines(lines) + CRLF| - 1]
    ensures Out(f) + Clean(Tokens(u + CRLF, '\n')) != Clean(lines) && !AllHarmless(f + [u])
  {
    assert Concat(f) == Unlines(lines) + "\r";
    assert u == "\n";
    CleanLine();
    TornTerminator(f, lines);
    TornIsHarmful(f, u, lines);
  }

  lemma CleanLine()
    ensures Clean(Tokens("\n" + CRLF, '\n')) == []
  {
    Artefacts();
    TokensAfterLine("\n", CRLF);
    assert "\n" == "" + ['\n'] + "";
    TokensConcat("", '\n', "");
  }

  lemma {:induction false} TornIsHarmful(f: seq<string>, v: string, lines: seq<string>)
    requires Concat(f) == Unlines(lines) + "\r" && v != "" && v[0] == '\n'
    requires forall i :: 0 <= i < |f| ==> f[i] != ""
    ensures !AllHarmless(f + [v])
  {
    assert f != [];
    var g, u := f[..|f| - 1], f[|f| - 1];
    assert f == g + [u];
    ConcatMore(g, u);
    HarmlessGrows(g, u, v);
    assert (Concat(g) + u)[|Concat(f)| - 1] == u[|u| - 1];
    NoCRLF(v);
  }

  /** A buffer that ends the data without the whole terminator. */
  lemma ShortEnd(last: string)
    requires |last| < 5 && last != "" && last == TERMINATOR[5 - |last|..] && Classify(last) == DataEnd
    ensures last == ".\r\n" || last == "\n.\r\n"
  {
    ClassifyHands(last);
  }

  lemma {:induction false} LongEndIff(front: seq<string>, last: string, lines: seq<string>)
    requires AreLines(lines) && |last| >= 5 && Concat(front) + last == Unlines(lines) + TERMINATOR
    requires forall i :: 0 <= i < |front| ==> front[i] != ""
    ensures Clean(Tokens(Kept(front + [last]), '\n')) == Clean(lines) <==> AllHarmless(front + [last])
  {
    var rest := last[..|last| - 5];
    SameEnd(Concat(front), last, Unlines(lines), TERMINATOR);
    assert last == rest + TERMINATOR;
    ConcatMore(front, last);
    TerminatedIff(front, rest, lines);
  }

  lemma SameEnd(a: string, b: string, c: string, d: string)
    requires a + b == c + d
    ensures |b| >= |d| ==> b[|b| - |d|..] == d
    ensures |b| <= |d| ==> b == d[|d| - |b|..] && a == c + d[..|d| - |b|]
  {
    var s := a + b;
    if |b| >= |d| {
      assert b[|b| - |d|..] == s[|s| - |d|..] == d;
    }
    if |b| <= |d| {
      assert b == s[|s| - |b|..] == d[|d| - |b|..];
      assert a == s[..|s| - |b|] == c + d[..|d| - |b|];
    }
  }

  lemma {:induction false} KeptDot(front: seq<string>, last: string)
    requires Classify(last) == DataEnd
    ensures Clean(Tokens(Kept(front + [last]), '\n')) == Out(front)
  {
    FoldIsOut(front);
    assert (front + [last])[..|front|] == front;
  }

  lemma {:induction false} DotAfterCRLF(front: seq<string>, last: string, lines: seq<string>)
    requires AreLines(lines) && (forall i :: 0 <= i < |front| ==> front[i] != "")
    requires last == ".\r\n" && Concat(front) == Unlines(lines) + CRLF
    ensures Out(front) == Clean(lines) <==> AllHarmless(front + [last])
  {
    var f, u := front[..|front| - 1], front[|front| - 1];
    assert front == f + [u];
    FrontIff(f, u, last, lines);
  }

  lemma {:induction false} DotAfterCR(front: seq<string>, last: string, lines: seq<string>)
    requires AreLines(lines) && (forall i :: 0 <= i < |front| ==> front[i] != "")
    requires last == "\n.\r\n" && Concat(front) == Unlines(lines) + "\r"
    ensures Out(front) == Clean(lines) <==> AllHarmless(front + [last])
  {
    TornTerminator(front, lines);
    TornIsHarmful(front, last, lines);
  }

  lemma {:induction false} ShortEndIff(front: seq<string>, last: string, lines: seq<string>)
    requires AreLines(lines) && 0 < |last| < 5 && Concat(front) + last == Unlines(lines) + TERMINATOR
    requires (forall i :: 0 <= i < |front| ==> front[i] != "") && Classify(last) == DataEnd
    ensures Clean(Tokens(Kept(front + [last]), '\n')) == Clean(lines) <==> AllHarmless(front + [last])
  {
    SameEnd(Concat(front), last, Unlines(lines), TERMINATOR);
    ShortEnd(last);
    KeptDot(front, last);
    if last == ".\r\n" {
      assert TERMINATOR[..2] == CRLF;
      DotAfterCRLF(front, last, lines);
    } else {
      assert TERMINATOR[..1] == "\r";
      DotAfterCR(front, last, lines);
    }
  }

  /** Wherever a body and its terminator are cut, the lines of the body, but for
      those like the ones the transfer adds, arrive exactly when every cut lies
      behind the end of a line or in front of the CRLF that ends one. */
  lemma {:induction false} LinesArriveIff(delivery: seq<string>, lines: seq<string>)
    requires AreLines(lines) && IsSplit(delivery, Unlines(lines) + TERMINATOR)
    ensures Clean(Tokens(Kept(delivery), '\n')) == Clean(lines) <==> AllHarmless(delivery)
  {
    var front, last := delivery[..|delivery| - 1], delivery[|delivery| - 1];
    assert delivery == front + [last];
    ConcatMore(front, last);
    if |last| >= 5 {
      LongEndIff(front, last, lines);
    } else {
      ShortEndIff(front, last, lines);
    }
  }

  lemma {:induction false} ConcatFront(chunks: seq<string>, s: string)
    requires chunks != []
    ensures Concat(chunks[..|chunks| - 1] + [chunks[|chunks| - 1] + s]) == Concat(chunks) + s
  {
    var t := chunks[..|chunks| - 1] + [chunks[|chunks| - 1] + s];
    if |chunks| == 1 {
      assert t == [chunks[0] + s] && t[1..] == [] && chunks[1..] == [];
    } else {
      var more := chunks[1..];
      ConcatFront(more, s);
      assert t[1..] == more[..|more| - 1] + [more[|more| - 1] + s];
    }
  }

  lemma Cancel(a: string, b: string, end: string)
    requires a + end == b + end
    ensures a == b
  {
    assert a == (a + end)[..|a|] && b == (b + end)[..|b|];
  }

  /** The lines of a finished session: a stored body holds the lines of its own
      mail, but for those, exactly when the network made no other cuts in it. */
  lemma {:induction false} DeliveredLinesIff(w: World, plan: Plan, i: nat)
    requires IsWhole(plan) && Finished(w, plan) && i < |plan.paths|
    ensures Clean(Tokens(w.store[i].body, '\n')) == Clean(plan.texts[i][2..]) <==> AllHarmless(w.splits[i])
  {
    LinesOf(plan, i);
    assert IsDelivered(w.store[i], plan.texts[i], w.splits[i]);
    LinesArriveIff(w.splits[i], plan.texts[i][2..]);
  }

  lemma ShortIsData(s: string)
    requires |s| == 1 && s[0] != '.'
    ensures Classify(s) == DataRecv && !HasSuffix(s, TERMINATOR)
  {
  }

  /** Of a mail without such lines that is every line. */
  lemma {:induction false} CleanIsIdentity(lines: seq<string>)
    requires forall i :: 0 <= i < |lines| ==> !IsArtefact(lines[i])
    ensures Clean(lines) == lines
  {
    if lines == [] {
    } else {
      CleanIsIdentity(lines[..|lines| - 1]);
      assert lines == lines[..|lines| - 1] + [lines[|lines| - 1]];
    }
  }

  /** A delivery of the body "ab" that the protocol allows. */
  lemma {:induction false} CutIsSplit(chunks: seq<string>)
    requires chunks == ["a", "b\n" + TERMINATOR]
    ensures IsSplit(chunks, Unlines(["ab"]) + TERMINATOR)
  {
    UnlinesOne("ab");
    assert chunks[1..] == [chunks[1]] && chunks[1..][1..] == [];
    assert Concat(chunks[1..]) == chunks[1] + Concat(chunks[1..][1..]);
    assert Concat(chunks) == chunks[0] + Concat(chunks[1..]);
    assert "a" + ("b\n" + TERMINATOR) == "ab" + "\n" + TERMINATOR;
    EndsInTerminator("b\n");
    ShortIsData("a");
    assert IsMiddle(chunks[0]);
  }

  /** The protocol lets a body be cut inside a line, which then arrives as two. */
  lemma {:induction false} CutInsideALine()
    ensures IsSplit(["a", "b\n" + TERMINATOR], Unlines(["ab"]) + TERMINATOR)
    ensures Clean(Tokens(Kept(["a", "b\n" + TERMINATOR]), '\n')) != ["ab"]
  {
    var chunks := ["a", "b\n" + TERMINATOR];
    CutIsSplit(chunks);
    NoCRLF(chunks[1]);
    assert !IsHarmless(chunks[0], chunks[0 + 1]);
    LinesArriveIff(chunks, ["ab"]);
    CleanIsIdentity(["ab"]);
  }
}
