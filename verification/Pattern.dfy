/** The command patterns: what each matches and what it captures, following
    the leftmost, ordered-alternative matching of the regular expressions. */
module Pattern {
  import opened Text

  datatype PatternType =
    | PtStart | PtQuit | PtRset | PtVrfy | PtHelo | PtEhlo | PtMail | PtRcpt
    | PtData | PtDataEnd | PtDataRecv | PtEmail | PtEnd
  {
    /** type++ */
    function Next(): PatternType {
      match this
      case PtStart => PtQuit
      case PtQuit => PtRset
      case PtRset => PtVrfy
      case PtVrfy => PtHelo
      case PtHelo => PtEhlo
      case PtEhlo => PtMail
      case PtMail => PtRcpt
      case PtRcpt => PtData
      case PtData => PtDataEnd
      case PtDataEnd => PtDataRecv
      case PtDataRecv => PtEmail
      case PtEmail => PtEnd
      case PtEnd => PtEnd
    }

    function Left(): nat {
      match this
      case PtStart => 12
      case PtQuit => 11
      case PtRset => 10
      case PtVrfy => 9
      case PtHelo => 8
      case PtEhlo => 7
      case PtMail => 6
      case PtRcpt => 5
      case PtData => 4
      case PtDataEnd => 3
      case PtDataRecv => 2
      case PtEmail => 1
      case PtEnd => 0
    }
  }

  const CRLF := "\r\n"
  const TERMINATOR := "\r\n.\r\n"

  /** How a pattern may end after its last capture. "$" also matches before one
      final line feed. */
  datatype Tail = Dollar | LineEnd | Closing

  /** "[\r\n]?$" */
  predicate EndsLine(t: string) {
    t == "" || t == "\r" || t == "\n" || t == "\r\n" || t == "\n\n"
  }

  predicate Accepts(tail: Tail, t: string) {
    match tail
    case Dollar => t == "" || t == "\n"
    case LineEnd => EndsLine(t)
    case Closing => EndsLine(t) || (t != "" && t[0] == '>' && EndsLine(t[1..]))
  }

  /** A capture "(.+?)" of length k in front of the tail. */
  ghost predicate Fits(s: string, k: nat, tail: Tail) {
    1 <= k <= |s| && '\n' !in s[..k] && Accepts(tail, s[k..])
  }

  /** The lazy quantifier: the first length, from k on, that fits. */
  function Lazy(s: string, k: nat, tail: Tail): (r: Option<nat>)
    requires k <= |s| && '\n' !in s[..k]
    ensures r.Some? ==> Fits(s, r.value, tail) && k <= r.value
    ensures r.Some? ==> forall j :: k <= j < r.value ==> !Fits(s, j, tail)
    ensures r.None? ==> forall j :: k <= j <= |s| ==> !Fits(s, j, tail)
    decreases |s| - k
  {
    if k >= 1 && Accepts(tail, s[k..]) then Some(k)
    else if k < |s| && s[k] != '\n' then
      assert s[..k + 1] == s[..k] + [s[k]];
      Lazy(s, k + 1, tail)
    else
      assert k < |s| ==> forall j :: k < j <= |s| ==> s[..j][k] == '\n';
      None
  }

  /** "(.+?)" followed by the tail. */
  function Capture(s: string, tail: Tail): (r: Option<string>)
    ensures r.Some? <==> exists k: nat :: Fits(s, k, tail)
    ensures r.Some? ==> |r.value| <= |s| && r.value == s[..|r.value|] && Fits(s, |r.value|, tail)
    ensures r.Some? ==> forall j :: 0 <= j < |r.value| ==> !Fits(s, j, tail)
    ensures r.Some? ==> r.value != "" && '\n' !in r.value
  {
    var k := Lazy(s, 0, tail);
    if k.Some? then Some(s[..k.value]) else None
  }

  /** "[<]?" and a capture, the bracket tried first. */
  function Angle(s: string): (r: Option<string>)
    ensures r.Some? ==> r.value != "" && '\n' !in r.value
  {
    var inner := if s != "" && s[0] == '<' then Capture(s[1..], Closing) else None;
    if inner.Some? then inner else Capture(s, Closing)
  }

  predicate IsSpace(c: char) {
    c == ' ' || 9 <= c as int <= 13
  }

  /** "\s?[<]?(.+?)[>]?[\r\n]?$" */
  function Address(s: string): (r: Option<string>)
    ensures r.Some? ==> r.value != "" && '\n' !in r.value
  {
    var inner := if s != "" && IsSpace(s[0]) then Angle(s[1..]) else None;
    if inner.Some? then inner else Angle(s)
  }

  function Upper(c: char): char {
    if 'a' <= c <= 'z' then (c as int - 32) as char else c
  }

  /** A case-insensitive literal at the start of the line. */
  predicate Keyword(s: string, word: string) {
    |word| <= |s| && forall i :: 0 <= i < |word| ==> Upper(s[i]) == word[i]
  }

  /** A verb, one white-space character, a second word. */
  predicate TwoWords(s: string, first: string, second: string) {
    Keyword(s, first) && |s| > |first| && IsSpace(s[|first|]) && Keyword(s[|first| + 1..], second)
  }

  datatype MatchResult = NoMatch | Match(content: Option<string>)

  function Captured(c: Option<string>): MatchResult {
    if c.Some? then Match(c) else NoMatch
  }

  /** pattern_compute. The content stays NULL for a pattern without a group;
      the pattern at PT_START is never compiled. */
  function Compute(t: PatternType, s: string): MatchResult {
    match t
    case PtStart => NoMatch
    case PtQuit => if Keyword(s, "QUIT") && EndsLine(s[4..]) then Match(None) else NoMatch
    case PtRset => if Keyword(s, "RSET") && EndsLine(s[4..]) then Match(None) else NoMatch
    case PtVrfy => if Keyword(s, "VRFY ") then Captured(Capture(s[5..], LineEnd)) else NoMatch
    case PtHelo => if Keyword(s, "HELO ") then Captured(Capture(s[5..], LineEnd)) else NoMatch
    case PtEhlo => if Keyword(s, "EHLO ") then Captured(Capture(s[5..], LineEnd)) else NoMatch
    case PtMail => if TwoWords(s, "MAIL", "FROM:") then Captured(Address(s[10..])) else NoMatch
    case PtRcpt => if TwoWords(s, "RCPT", "TO:") then Captured(Address(s[8..])) else NoMatch
    case PtData => if Keyword(s, "DATA") && EndsLine(s[4..]) then Match(None) else NoMatch
    case PtDataEnd => if IsDot(s) then Match(None) else NoMatch
    case PtDataRecv => Match(Some(s[..Line(s)]))
    case PtEmail => if SplitAt(s).Some? then Match(Some(SplitAt(s).value.0)) else NoMatch
    case PtEnd => NoMatch
  }

  /** "^[\r\n]?[.][\r\n]?$" */
  predicate IsDot(s: string) {
    (s != "" && s[0] == '.' && EndsLine(s[1..])) ||
    (|s| >= 2 && (s[0] == '\r' || s[0] == '\n') && s[1] == '.' && EndsLine(s[2..]))
  }

  /** "(.*)" stops at the first line feed. */
  function Line(s: string): nat
    ensures Line(s) <= |s|
  {
    Span(s, '\n')
  }

  /** The first place where "(.+?)@(.+?)$" can put its "@". */
  function At(s: string, i: nat): (r: Option<(string, string)>)
    requires i <= |s|
    ensures r.Some? ==> r.value.0 != "" && r.value.1 != ""
    decreases |s| - i
  {
    if i == |s| || (i > 0 && s[i - 1] == '\n') then None
    else if i >= 1 && s[i] == '@' && Capture(s[i + 1..], Dollar).Some? then
      Some((s[..i], Capture(s[i + 1..], Dollar).value))
    else At(s, i + 1)
  }

  /** pattern_email: user and domain, None for NULL. */
  function SplitAt(s: string): (r: Option<(string, string)>)
    ensures r.Some? ==> r.value.0 != "" && r.value.1 != ""
  {
    At(s, 0)
  }

  /** What the first-match loop hands to the protocol. */
  datatype Command =
    | Quit | Rset | Vrfy(arg: string) | Helo(arg: string) | Ehlo(arg: string)
    | Mail(arg: string) | Rcpt(arg: string) | Data | DataEnd | DataRecv

  predicate Matches(t: PatternType, s: string) {
    Compute(t, s).Match?
  }

  /** The command a received buffer stands for: the first pattern that
      matches decides. A captured argument is never empty and never holds a
      line feed. */
  function Classify(s: string): (c: Command)
    ensures c.Mail? || c.Rcpt? || c.Vrfy? || c.Helo? || c.Ehlo? ==> c.arg != "" && '\n' !in c.arg
  {
    if Matches(PtQuit, s) then Quit
    else if Matches(PtRset, s) then Rset
    else if Matches(PtVrfy, s) then Vrfy(Compute(PtVrfy, s).content.value)
    else if Matches(PtHelo, s) then Helo(Compute(PtHelo, s).content.value)
    else if Matches(PtEhlo, s) then Ehlo(Compute(PtEhlo, s).content.value)
    else if Matches(PtMail, s) then Mail(Compute(PtMail, s).content.value)
    else if Matches(PtRcpt, s) then Rcpt(Compute(PtRcpt, s).content.value)
    else if Matches(PtData, s) then Data
    else if Matches(PtDataEnd, s) then DataEnd
    else DataRecv
  }

  function TypeOf(c: Command): PatternType {
    match c
    case Quit => PtQuit
    case Rset => PtRset
    case Vrfy(_) => PtVrfy
    case Helo(_) => PtHelo
    case Ehlo(_) => PtEhlo
    case Mail(_) => PtMail
    case Rcpt(_) => PtRcpt
    case Data => PtData
    case DataEnd => PtDataEnd
    case DataRecv => PtDataRecv
  }

  /** The content that comes with a command: its argument, or NULL for a
      pattern without a group. The content of a data chunk is not used. */
  predicate Hands(c: Command, content: Option<string>) {
    match c
    case Vrfy(a) => content == Some(a)
    case Helo(a) => content == Some(a)
    case Ehlo(a) => content == Some(a)
    case Mail(a) => content == Some(a)
    case Rcpt(a) => content == Some(a)
    case DataRecv => true
    case _ => content == None
  }

  lemma ClassifyHands(s: string)
    ensures Matches(TypeOf(Classify(s)), s)
    ensures Hands(Classify(s), Compute(TypeOf(Classify(s)), s).content)
  {
  }

  lemma ClassifyIsFirst(s: string, t: PatternType)
    requires TypeOf(Classify(s)).Left() < t.Left()
    ensures !Matches(t, s)
  {
  }

  /** The matching loop of protocol_update: it always stops at a command
      pattern, so neither PT_EMAIL nor PT_END is ever reached, and MAIL and
      RCPT always come with an argument. */
  method FirstMatch(s: string) returns (t: PatternType, content: Option<string>)
    ensures t == TypeOf(Classify(s)) && Hands(Classify(s), content)
  {
    t, content := PtStart, None;
    while !t.PtEnd?
      invariant TypeOf(Classify(s)).Left() <= t.Left()
      decreases t.Left()
    {
      var m := Compute(t, s);
      if t == TypeOf(Classify(s)) {
        ClassifyHands(s);
      } else {
        ClassifyIsFirst(s, t);
      }
      if m.Match? {
        content := m.content;
        break;
      }
      t := t.Next();
    }
  }

  // Properties of the classification.

  lemma LastChars(s: string, t: string)
    requires |s| >= |t| && s[|s| - |t|..] == t
    ensures forall i :: 0 <= i < |t| ==> s[|s| - |t| + i] == t[i]
  {
    forall i | 0 <= i < |t| ensures s[|s| - |t| + i] == t[i] {
      assert s[|s| - |t|..][i] == s[|s| - |t| + i];
    }
  }

  /** What the server keeps of a row of buffers: each with an end of line. */
  function Fold(chunks: seq<string>): string {
    if chunks == [] then "" else Fold(chunks[..|chunks| - 1]) + chunks[|chunks| - 1] + "\r\n"
  }

  lemma FoldMore(chunks: seq<string>, chunk: string)
    ensures Fold(chunks + [chunk]) == Fold(chunks) + chunk + CRLF
  {
    assert (chunks + [chunk])[..|chunks|] == chunks;
  }

  predicate HasSuffix(s: string, t: string) {
    |s| >= |t| && s[|s| - |t|..] == t
  }

  /** A tail is too short to hold the last five characters of a terminator. */
  lemma NoFit(s: string, tail: Tail)
    requires HasSuffix(s, "\n.\r\n")
    ensures Capture(s, tail) == None
  {
    LastChars(s, "\n.\r\n");
    var p := |s| - 4;
    forall k | 0 <= k <= |s| ensures !Fits(s, k, tail) {
      if k > p {
        assert s[..k][p] == '\n';
      } else {
        assert |s[k..]| >= 4;
      }
    }
  }

  lemma SuffixOfTail(s: string, n: nat, t: string)
    requires HasSuffix(s, t) && n + |t| <= |s|
    ensures HasSuffix(s[n..], t)
  {
    assert s[n..][|s| - n - |t|..] == s[|s| - |t|..];
  }

  lemma NoAngle(s: string)
    requires HasSuffix(s, "\n.\r\n")
    ensures Angle(s) == None
  {
    LastChars(s, "\n.\r\n");
    NoFit(s, Closing);
    if s[0] == '<' {
      SuffixOfTail(s, 1, "\n.\r\n");
      NoFit(s[1..], Closing);
    }
  }

  lemma NoAddress(s: string)
    requires HasSuffix(s, TERMINATOR)
    ensures Address(s) == None
  {
    LastChars(s, TERMINATOR);
    SuffixOfTail(s, 0, TERMINATOR);
    assert s[|s| - 5..][1..] == s[|s| - 4..];
    assert HasSuffix(s, "\n.\r\n");
    NoAngle(s);
    SuffixOfTail(s, 1, "\n.\r\n");
    NoAngle(s[1..]);
  }

  /** A keyword cannot overlap the terminator. */
  lemma KeywordBefore(s: string, word: string)
    requires HasSuffix(s, TERMINATOR) && Keyword(s, word) && '\r' !in word
    ensures |word| + 5 <= |s|
    ensures HasSuffix(s[|word|..], TERMINATOR)
  {
    LastChars(s, TERMINATOR);
    var p := |s| - 5;
    assert s[p] == '\r' == Upper('\r');
    SuffixOfTail(s, |word|, TERMINATOR);
  }

  lemma NoCapture(s: string, tail: Tail)
    requires HasSuffix(s, TERMINATOR)
    ensures Capture(s, tail) == None && !EndsLine(s)
  {
    assert s[|s| - 5..][1..] == s[|s| - 4..];
    NoFit(s, tail);
  }

  lemma NoPlain(s: string, word: string)
    requires HasSuffix(s, TERMINATOR) && '\r' !in word
    ensures Keyword(s, word) ==> !EndsLine(s[|word|..]) && Capture(s[|word|..], LineEnd) == None
  {
    if Keyword(s, word) {
      KeywordBefore(s, word);
      NoCapture(s[|word|..], LineEnd);
    }
  }

  lemma SecondWord(s: string, n: nat, second: string)
    requires HasSuffix(s, TERMINATOR) && n + 5 <= |s|
    requires second != "" && second[0] != '\n' && Keyword(s[n + 1..], second)
    ensures HasSuffix(s[n + 1..], TERMINATOR)
  {
    LastChars(s, TERMINATOR);
    assert Upper(s[n + 1..][0]) == second[0] && Upper('\n') == '\n';
    SuffixOfTail(s, n + 1, TERMINATOR);
  }

  lemma NoTwoWords(s: string, first: string, second: string)
    requires HasSuffix(s, TERMINATOR) && '\r' !in first && '\r' !in second
    requires second != "" && second[0] != '\n'
    ensures TwoWords(s, first, second) ==> Address(s[|first| + 1 + |second|..]) == None
  {
    if TwoWords(s, first, second) {
      KeywordBefore(s, first);
      SecondWord(s, |first|, second);
      var rest := s[|first| + 1..];
      KeywordBefore(rest, second);
      assert rest[|second|..] == s[|first| + 1 + |second|..];
      NoAddress(rest[|second|..]);
    }
  }

  lemma NoPlainCommand(s: string)
    requires HasSuffix(s, TERMINATOR)
    ensures !Matches(PtQuit, s) && !Matches(PtRset, s) && !Matches(PtData, s)
  {
    NoPlain(s, "QUIT");
    NoPlain(s, "RSET");
    NoPlain(s, "DATA");
  }

  lemma NoNamedCommand(s: string)
    requires HasSuffix(s, TERMINATOR)
    ensures !Matches(PtVrfy, s) && !Matches(PtHelo, s) && !Matches(PtEhlo, s)
  {
    NoPlain(s, "VRFY ");
    NoPlain(s, "HELO ");
    NoPlain(s, "EHLO ");
  }

  lemma NoAddressCommand(s: string)
    requires HasSuffix(s, TERMINATOR)
    ensures !Matches(PtMail, s) && !Matches(PtRcpt, s)
  {
    NoTwoWords(s, "MAIL", "FROM:");
    NoTwoWords(s, "RCPT", "TO:");
  }

  lemma NoDot(s: string)
    requires HasSuffix(s, TERMINATOR)
    ensures !Matches(PtDataEnd, s)
  {
    LastChars(s, TERMINATOR);
  }

  /** A buffer that ends in the terminator is never taken for a command, so
      the end of the data always reaches the data handler. */
  lemma {:induction false} TerminatedIsData(s: string)
    requires HasSuffix(s, TERMINATOR)
    ensures Classify(s) == DataRecv
  {
    NoPlainCommand(s);
    NoNamedCommand(s);
    NoAddressCommand(s);
    NoDot(s);
  }

  /** A captured argument has the form user@domain exactly when an "@" stands
      strictly inside it, and it is then cut at the first such place. */
  ghost predicate IsUserAtDomain(a: string) {
    exists i :: 1 <= i < |a| - 1 && a[i] == '@'
  }

  lemma DollarTakesAll(s: string)
    requires '\n' !in s && s != ""
    ensures Capture(s, Dollar) == Some(s)
  {
    assert s[..|s|] == s && s[|s|..] == "";
    assert Fits(s, |s|, Dollar);
    forall j | 0 <= j < |s| ensures !Fits(s, j, Dollar) {
      assert s[j..][0] == s[j] && s[j] in s;
    }
  }

  lemma {:induction false} AtFinds(a: string, i: nat)
    requires '\n' !in a && i <= |a|
    requires forall j :: 1 <= j < i && j < |a| - 1 ==> a[j] != '@'
    ensures At(a, i).Some? <==> IsUserAtDomain(a)
    ensures At(a, i).Some? ==>
              var (user, domain) := At(a, i).value;
              user + "@" + domain == a && '@' !in user[1..]
    decreases |a| - i
  {
    if i == |a| {
    } else if i >= 1 && a[i] == '@' && i < |a| - 1 {
      DollarTakesAll(a[i + 1..]);
      assert a == a[..i] + "@" + a[i + 1..];
    } else {
      assert i > 0 ==> a[i - 1] in a;
      if i == |a| - 1 { assert a[i + 1..] == ""; }
      AtFinds(a, i + 1);
    }
  }

  lemma EmailSplit(a: string)
    requires '\n' !in a
    ensures SplitAt(a).Some? <==> IsUserAtDomain(a)
    ensures SplitAt(a).Some? ==>
              var (user, domain) := SplitAt(a).value;
              user + "@" + domain == a && '@' !in user[1..]
  {
    AtFinds(a, 0);
  }
}
