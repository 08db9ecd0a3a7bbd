/** The name of a mailbox file: what the server prints and what the client reads
    the domain from. */
module MailName {
  import opened Text
  import opened StringUtils

  function Digits(n: nat): (s: string)
    ensures s != "" && '.' !in s
  {
    var last := ['0' + (n % 10) as char];
    if n < 10 then last else Digits(n / 10) + last
  }

  /** "%d" */
  function Decimal(n: int): (s: string)
    ensures s != "" && '.' !in s
  {
    if n < 0 then "-" + Digits(-n) else Digits(n)
  }

  /** The number that a row of digits stands for. */
  function Value(s: string): int {
    if s == "" then 0 else 10 * Value(s[..|s| - 1]) + (s[|s| - 1] as int - '0' as int)
  }

  /** Digits between 0 and 9, the first not 0 but in the number zero. */
  predicate IsNumeral(s: string) {
    && s != "" && (forall i :: 0 <= i < |s| ==> '0' <= s[i] <= '9')
    && (|s| > 1 ==> s[0] != '0')
  }

  lemma {:induction false} DigitsAre(n: nat)
    ensures IsNumeral(Digits(n)) && Value(Digits(n)) == n
    ensures n > 0 ==> Digits(n)[0] != '0'
  {
    var s := Digits(n);
    if n < 10 {
      assert s[..0] == "";
    } else {
      DigitsAre(n / 10);
      assert s[..|s| - 1] == Digits(n / 10);
    }
  }

  /** A number is printed with a sign if it is negative, and as the digits of its
      amount. */
  lemma {:induction false} DecimalIs(n: int)
    ensures var s := Decimal(n);
            if n < 0 then s[0] == '-' && IsNumeral(s[1..]) && Value(s[1..]) == -n
            else IsNumeral(s) && Value(s) == n
  {
    if n < 0 {
      DigitsAre(-n);
      assert ("-" + Digits(-n))[1..] == Digits(-n);
    } else {
      DigitsAre(n);
    }
  }

  lemma {:induction false} DecimalIsInjective(n: int, m: int)
    ensures Decimal(n) == Decimal(m) <==> n == m
  {
    DecimalIs(n);
    DecimalIs(m);
  }

  /** Texts in front of a first delimiter. */
  lemma {:induction false} CutIsUnique(a: string, b: string, x: string, y: string, d: char)
    requires d !in a && d !in b && a + [d] + x == b + [d] + y
    ensures a == b && x == y
  {
    var s := a + [d] + x;
    SpanBefore(a, d, x);
    SpanBefore(b, d, y);
    SpanAll(a, d);
    SpanAll(b, d);
    assert a == s[..|a|] && b == s[..|b|] && x == s[|a| + 1..] && y == s[|b| + 1..];
  }

  lemma SameEnd(a: string, b: string, e: string)
    requires a + e == b + e
    ensures a == b
  {
    assert |a| == |b| && a == (a + e)[..|a|] && b == (b + e)[..|b|];
  }

  /** Letters of different processes, times or domains never share a file. */
  lemma {:induction false} NamesDifferIff(p: int, t: int, d: string, p': int, t': int, d': string)
    ensures FileName(p, t, d) == FileName(p', t', d') <==> p == p' && t == t' && d == d'
  {
    if FileName(p, t, d) == FileName(p', t', d') {
      NameParts(p, t, d);
      NameParts(p', t', d');
      CutIsUnique(Decimal(p), Decimal(p'), Rest(t, d), Rest(t', d'), '.');
      CutIsUnique(Decimal(t), Decimal(t'), d + ".mbox", d' + ".mbox", '.');
      SameEnd(d, d', ".mbox");
      DecimalIsInjective(p, p');
      DecimalIsInjective(t, t');
    }
  }

  function Rest(t: int, d: string): string {
    Decimal(t) + ['.'] + (d + ".mbox")
  }

  lemma NameParts(p: int, t: int, d: string)
    ensures FileName(p, t, d) == Decimal(p) + ['.'] + Rest(t, d)
  {
  }

  /** maildir_get_fname, without the directory: "%d.%d.%s.mbox". */
  function FileName(pid: int, timestamp: int, domain: string): string {
    Decimal(pid) + "." + Decimal(timestamp) + "." + domain + ".mbox"
  }

  /** What the client takes for the domain in a path; None where it crashes. */
  ghost function DomainOf(path: string): Option<string> {
    var t := Tokens(path, '.');
    if Regular(path, '.') && |t| >= 4 then Some(t[2] + "." + t[3]) else None
  }

  /** get_domain_name_from_email_full_path */
  method GetDomainName(path: string, cursor: Strtok) returns (domain: Option<string>)
    modifies cursor
    ensures domain == DomainOf(path) && cursor.Valid() && cursor.pos == |cursor.text|
  {
    var tokens := StrSplit(path, '.', cursor);
    if tokens.None? || |tokens.value| < 4 {
      return None;
    }
    var firstPart := tokens.value[2];
    var secondPart := tokens.value[3];
    return Some(firstPart + "." + secondPart);
  }

  /** The part before a comma, by which the client sorts mails. */
  ghost function KeyOf(path: string): Option<string> {
    var d := DomainOf(path);
    if d.Some? && Regular(d.value, ',') then Some(Tokens(d.value, ',')[0]) else None
  }

  /** What get_domains_mails and register_new_email make of a path; nothing is
      then left to the cursor of strtok. */
  method GetKey(path: string, cursor: Strtok) returns (key: Option<string>)
    modifies cursor
    ensures key == KeyOf(path) && cursor.Valid() && cursor.pos == |cursor.text|
  {
    var domain := GetDomainName(path, cursor);
    if domain.None? {
      return None;
    }
    TokensWithinBound(domain.value, ',');
    var tokens := StrSplit(domain.value, ',', cursor);
    return if tokens.None? then None else Some(tokens.value[0]);
  }

  ghost predicate ArePieces(ts: seq<string>, d: char) {
    forall i :: 0 <= i < |ts| ==> ts[i] != "" && d !in ts[i]
  }

  /** Splitting undoes joining. */
  lemma {:induction false} SplitJoin(ts: seq<string>, d: char)
    requires ts != [] && ArePieces(ts, d)
    ensures Tokens(Join(ts, d), d) == ts && Regular(Join(ts, d), d)
  {
    var t := ts[0];
    SpanAll(t, d);
    if |ts| == 1 {
      assert ts == [t];
    } else {
      var rest := Join(ts[1..], d);
      var s := t + [d] + rest;
      SplitJoin(ts[1..], d);
      TokensConcat(t, d, rest);
      assert s[|t| + 1..] == rest;
      RegularTail(s, d, |t|);
      assert ts == [t] + ts[1..];
    }
  }

  lemma {:induction false} JoinConcat(a: seq<string>, b: seq<string>, d: char)
    requires a != [] && b != []
    ensures Join(a + b, d) == Join(a, d) + [d] + Join(b, d)
  {
    assert (a + b)[1..] == a[1..] + b;
    if |a| <= 1 {
    } else {
      JoinConcat(a[1..], b, d);
      assert a[0] + [d] + (Join(a[1..], d) + [d] + Join(b, d)) == a[0] + [d] + Join(a[1..], d) + [d] + Join(b, d);
    }
  }

  /** A piece that is empty, but for the last, is fatal to the split. */
  lemma {:induction false} EmptyPiece(ts: seq<string>, d: char, i: nat)
    requires i + 1 < |ts| && ts[i] == "" && forall j :: 0 <= j < |ts| ==> d !in ts[j]
    ensures !Regular(Join(ts, d), d)
  {
    var t, rest := ts[0], Join(ts[1..], d);
    assert ts == [t] + ts[1..];
    JoinCons(t, ts[1..], d);
    var s := t + [d] + rest;
    if t == "" {
      assert s[0] == d;
    } else {
      EmptyPiece(ts[1..], d, i - 1);
      JoinCons(ts[1], ts[2..], d);
      assert ts[1..] == [ts[1]] + ts[2..];
      assert s[|t| + 1..] == rest;
      RegularTail(s, d, |t|);
    }
  }

  /** The pieces between the dots of a printed path: those of the directory, the
      last of them with the process number, the time, the labels of the domain
      and the extension. */
  function Pieces(dir: string, pid: int, timestamp: int, labels: seq<string>): (ts: seq<string>)
    ensures |ts| == |Fields(dir, '.')| + 2 + |labels|
  {
    var ds := Fields(dir, '.');
    ds[..|ds| - 1] + [ds[|ds| - 1] + Decimal(pid), Decimal(timestamp)] + labels + ["mbox"]
  }

  lemma {:induction false} JoinLast(ds: seq<string>, s: string, d: char)
    requires ds != []
    ensures Join(ds[..|ds| - 1] + [ds[|ds| - 1] + s], d) == Join(ds, d) + s
  {
    if |ds| > 1 {
      var more := ds[1..];
      JoinLast(more, s, d);
      var rest := more[..|more| - 1] + [more[|more| - 1] + s];
      assert ds[..|ds| - 1] + [ds[|ds| - 1] + s] == [ds[0]] + rest;
      assert ds == [ds[0]] + more;
      JoinCons(ds[0], rest, d);
      JoinCons(ds[0], more, d);
      assert ds[0] + [d] + (Join(more, d) + s) == (ds[0] + [d] + Join(more, d)) + s;
    } else {
      assert ds[..0] + [ds[0] + s] == [ds[0] + s];
    }
  }

  lemma Grouping(a: string, p: string, q: string, j: string)
    ensures (a + p) + ['.'] + (q + ['.'] + (j + ['.'] + "mbox")) == a + (p + "." + q + "." + j + ".mbox")
  {
    assert ['.'] + "mbox" == ".mbox" && "." == ['.'];
  }

  /** They are the pieces of the path. */
  lemma {:induction false} PathPieces(dir: string, pid: int, timestamp: int, labels: seq<string>)
    requires labels != []
    ensures dir + FileName(pid, timestamp, Join(labels, '.')) == Join(Pieces(dir, pid, timestamp, labels), '.')
  {
    var ds := Fields(dir, '.');
    var p, q, j := Decimal(pid), Decimal(timestamp), Join(labels, '.');
    var head := ds[..|ds| - 1] + [ds[|ds| - 1] + p];
    var tail := labels + ["mbox"];
    JoinFields(dir, '.');
    JoinLast(ds, p, '.');
    JoinConcat(labels, ["mbox"], '.');
    JoinCons(q, tail, '.');
    JoinConcat(head, [q] + tail, '.');
    assert Pieces(dir, pid, timestamp, labels) == head + ([q] + tail);
    Grouping(dir, p, q, j);
  }

  lemma {:induction false} PiecesAre(dir: string, pid: int, timestamp: int, labels: seq<string>)
    requires ArePieces(labels, '.')
    ensures var ts := Pieces(dir, pid, timestamp, labels);
            && (forall i :: 0 <= i < |ts| ==> '.' !in ts[i])
            && (ArePieces(ts, '.') <==> ArePieces(Fields(dir, '.')[..|Fields(dir, '.')| - 1], '.'))
  {
    var ds := Fields(dir, '.');
    PiecesOf(ds, Decimal(pid), Decimal(timestamp), labels, Pieces(dir, pid, timestamp, labels));
  }

  lemma {:induction false} PiecesOf(ds: seq<string>, p: string, q: string, labels: seq<string>, ts: seq<string>)
    requires ds != [] && (forall i :: 0 <= i < |ds| ==> '.' !in ds[i]) && ArePieces([p, q], '.')
    requires ArePieces(labels, '.') && ts == ds[..|ds| - 1] + [ds[|ds| - 1] + p, q] + labels + ["mbox"]
    ensures forall i :: 0 <= i < |ts| ==> '.' !in ts[i]
    ensures ArePieces(ts, '.') <==> ArePieces(ds[..|ds| - 1], '.')
  {
    var k := |ds| - 1;
    assert [p, q][0] == p && [p, q][1] == q;
    assert forall i :: 0 <= i < k ==> ts[i] == ds[..k][i] && ds[..k][i] == ds[i];
    forall i | k <= i < |ts| ensures ts[i] != "" && '.' !in ts[i] {
      if k + 2 <= i < |ts| - 1 { assert ts[i] == labels[i - k - 2]; }
    }
  }

  /** Two joined pieces are a domain exactly when they are its labels. */
  lemma TwoLabels(a: string, b: string, labels: seq<string>)
    requires labels != [] && ArePieces(labels, '.') && ArePieces([a, b], '.')
    ensures a + "." + b == Join(labels, '.') <==> labels == [a, b]
  {
    SplitJoin(labels, '.');
    SplitJoin([a, b], '.');
    assert [a, b][1..] == [b];
    assert Join([a, b], '.') == a + ['.'] + b == a + "." + b;
  }

  /** File-name round trip, for any directory, process, time and domain: the
      client reads back the domain the server printed exactly when no two dots of
      the directory touch and none begins it, the domain has two labels, and these
      are the third and the fourth piece of the path. */
  lemma {:induction false} FileNameRoundTripIff(dir: string, pid: int, timestamp: int, labels: seq<string>)
    requires labels != [] && ArePieces(labels, '.')
    ensures var ts := Pieces(dir, pid, timestamp, labels);
            DomainOf(dir + FileName(pid, timestamp, Join(labels, '.'))) == Some(Join(labels, '.')) <==>
              ArePieces(Fields(dir, '.')[..|Fields(dir, '.')| - 1], '.') && labels == [ts[2], ts[3]]
  {
    var ts := Pieces(dir, pid, timestamp, labels);
    var path := dir + FileName(pid, timestamp, Join(labels, '.'));
    PathPieces(dir, pid, timestamp, labels);
    PiecesAre(dir, pid, timestamp, labels);
    if ArePieces(ts, '.') {
      SplitJoin(ts, '.');
      assert ArePieces([ts[2], ts[3]], '.');
      TwoLabels(ts[2], ts[3], labels);
    } else {
      var ds := Fields(dir, '.');
      var i :| 0 <= i < |ds| - 1 && ds[..|ds| - 1][i] == "";
      EmptyPiece(ts, '.', i);
    }
  }

  /** Without a dot in the directory: of a longer domain the client takes the
      first two labels, and to a single one it adds the extension. */
  lemma {:induction false} DotFreeRoundTripIff(dir: string, pid: int, timestamp: int, labels: seq<string>)
    requires '.' !in dir && labels != [] && ArePieces(labels, '.')
    ensures DomainOf(dir + FileName(pid, timestamp, Join(labels, '.'))) == Some(Join(labels, '.')) <==> |labels| == 2
  {
    var ts := Pieces(dir, pid, timestamp, labels);
    SpanAll(dir, '.');
    assert Fields(dir, '.') == [dir];
    assert ts[2] == (labels + ["mbox"])[0] && ts[3] == (labels + ["mbox"])[1];
    FileNameRoundTripIff(dir, pid, timestamp, labels);
    if |labels| == 2 { assert labels == [labels[0], labels[1]]; }
  }

  /** A comma-free domain of two labels is also the client's key. */
  lemma KeyRoundTrip(dir: string, pid: int, timestamp: int, a: string, b: string)
    requires '.' !in dir && ArePieces([a, b], '.') && ',' !in a && ',' !in b
    ensures KeyOf(dir + FileName(pid, timestamp, a + "." + b)) == Some(a + "." + b)
  {
    var labels := [a, b];
    assert labels[1..] == [b];
    assert Join(labels, '.') == a + "." + b;
    DotFreeRoundTripIff(dir, pid, timestamp, labels);
    var d := a + "." + b;
    SpanAll(d, ',');
    assert Regular(d, ',') by { assert forall i :: 0 <= i < |d| ==> d[i] in d; }
  }

  /** Of a domain with commas, what stands before the first is the key. */
  lemma {:induction false} KeyEndsAtComma(path: string, a: string, b: string)
    requires DomainOf(path) == Some(a + "," + b) && ',' !in a
    ensures KeyOf(path) == Some(a) <==> a != "" && (b == "" || Regular(b, ','))
    ensures KeyOf(path).Some? ==> KeyOf(path) == Some(a)
  {
    var d := a + [','] + b;
    assert d == a + "," + b;
    if a == "" {
      assert d[0] == ',';
    } else {
      SpanAll(a, ',');
      TokensConcat(a, ',', b);
      assert d[|a| + 1..] == b;
      if b != "" { RegularTail(d, ',', |a|); }
    }
  }

  lemma {:induction false} FieldsOfTwo(u: string, v: string)
    requires '.' !in u && '.' !in v
    ensures Fields(u + "." + v, '.') == [u, v]
  {
    var dir := u + ['.'] + v;
    SpanBefore(u, '.', v);
    SpanAll(u, '.');
    SpanAll(v, '.');
    assert dir[..|u|] == u && dir[|u| + 1..] == v;
  }

  /** A directory with one dot, such as that of a user john.doe: a mail for a.b is
      taken for one whose domain is the time it was saved, and a. */
  lemma {:induction false} DottedUserIsMisread(u: string, v: string, pid: int, timestamp: int, a: string, b: string)
    requires u != "" && '.' !in u && '.' !in v && ArePieces([a, b], '.')
    ensures DomainOf((u + "." + v) + FileName(pid, timestamp, Join([a, b], '.'))) == Some(Decimal(timestamp) + "." + a)
  {
    var dir, labels := u + "." + v, [a, b];
    FieldsOfTwo(u, v);
    PathPieces(dir, pid, timestamp, labels);
    PiecesAre(dir, pid, timestamp, labels);
    var ts := Pieces(dir, pid, timestamp, labels);
    assert [u, v][..1] == [u];
    SplitJoin(ts, '.');
    assert ts[2] == Decimal(timestamp) && ts[3] == labels[0];
  }
}
