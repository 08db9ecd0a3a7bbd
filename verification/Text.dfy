/** C strings as sequences of characters, the tokens that strtok finds in them,
    and str_split with its two asserts. */
module Text {

  datatype Option<+T> = None | Some(value: T)

  /** Length of the longest prefix of s without the delimiter. */
  function Span(s: string, d: char): (n: nat)
    ensures n <= |s|
    ensures forall i :: 0 <= i < n ==> s[i] != d
    ensures n < |s| ==> s[n] == d
  {
    if s == "" || s[0] == d then 0 else 1 + Span(s[1..], d)
  }

  /** What successive calls of strtok return: leading delimiters are skipped,
      then the text up to the next delimiter is one token. */
  function Tokens(s: string, d: char): (ts: seq<string>)
    ensures forall i :: 0 <= i < |ts| ==> ts[i] != "" && d !in ts[i]
    decreases |s|
  {
    if s == "" then []
    else if s[0] == d then Tokens(s[1..], d)
    else
      var n := Span(s, d);
      if n == |s| then [s] else [s[..n]] + Tokens(s[n + 1..], d)
  }

  /** The fields between delimiters, empty ones included. */
  function Fields(s: string, d: char): (fs: seq<string>)
    ensures |fs| > 0
    ensures forall i :: 0 <= i < |fs| ==> d !in fs[i]
    decreases |s|
  {
    var n := Span(s, d);
    if n == |s| then [s] else [s[..n]] + Fields(s[n + 1..], d)
  }

  function Join(ts: seq<string>, d: char): string {
    if ts == [] then ""
    else if |ts| == 1 then ts[0]
    else ts[0] + [d] + Join(ts[1..], d)
  }

  function NonEmpty(ts: seq<string>): seq<string> {
    if ts == [] then []
    else if ts[0] == "" then NonEmpty(ts[1..])
    else [ts[0]] + NonEmpty(ts[1..])
  }

  predicate Distinct(s: seq<string>) {
    forall i, j :: 0 <= i < j < |s| ==> s[i] != s[j]
  }

  /** The last place of a name. */
  function FindLast(names: seq<string>, name: string): (r: Option<nat>)
    ensures r.Some? ==> r.value < |names| && names[r.value] == name
    ensures r.Some? ==> forall j :: r.value < j < |names| ==> names[j] != name
    ensures r.None? ==> name !in names
  {
    if names == [] then None
    else if names[|names| - 1] == name then Some(|names| - 1)
    else FindLast(names[..|names| - 1], name)
  }

  function Concat(parts: seq<string>): string {
    if parts == [] then "" else parts[0] + Concat(parts[1..])
  }

  lemma {:induction false} ConcatMore(parts: seq<string>, s: string)
    ensures Concat(parts + [s]) == Concat(parts) + s
  {
    if parts == [] {
      assert [] + [s] == [s] && [s][1..] == [];
    } else {
      ConcatMore(parts[1..], s);
      assert (parts + [s])[1..] == parts[1..] + [s];
      assert parts[0] + (Concat(parts[1..]) + s) == parts[0] + Concat(parts[1..]) + s;
    }
  }

  lemma JoinCons(t: string, ts: seq<string>, d: char)
    requires ts != []
    ensures Join([t] + ts, d) == t + [d] + Join(ts, d)
  {
    assert ([t] + ts)[1..] == ts;
  }

  lemma Rejoin(s: string, n: nat)
    requires n < |s|
    ensures s == s[..n] + [s[n]] + s[n + 1..]
  {
  }

  /** Fields and Join are inverse. */
  lemma {:induction false} JoinFields(s: string, d: char)
    ensures Join(Fields(s, d), d) == s
    decreases |s|
  {
    var n := Span(s, d);
    if n >= |s| {
    } else {
      JoinFields(s[n + 1..], d);
      JoinCons(s[..n], Fields(s[n + 1..], d), d);
      Rejoin(s, n);
    }
  }

  /** strtok never reports an empty field and never loses a non-empty one. */
  lemma {:induction false} TokensAreNonEmptyFields(s: string, d: char)
    ensures Tokens(s, d) == NonEmpty(Fields(s, d))
    decreases |s|
  {
    var n := Span(s, d);
    if n >= |s| {
    } else {
      assert Fields(s, d)[1..] == Fields(s[n + 1..], d);
      TokensAreNonEmptyFields(s[n + 1..], d);
    }
  }

  /** A string without the delimiter is its own single token. */
  lemma {:induction false} SpanAll(s: string, d: char)
    requires d !in s
    ensures Span(s, d) == |s|
    ensures s != "" ==> Tokens(s, d) == [s]
  {
    if s == "" {
    } else {
      SpanAll(s[1..], d);
    }
  }

  lemma {:induction false} SpanBefore(a: string, d: char, b: string)
    ensures Span(a + [d] + b, d) == Span(a, d)
  {
    if a == "" {
      assert (a + [d] + b)[0] == d;
    } else if a[0] != d {
      SpanBefore(a[1..], d, b);
      assert (a + [d] + b)[1..] == a[1..] + [d] + b;
    }
  }

  /** A delimiter cuts the token sequence in two. */
  lemma {:induction false} TokensConcat(a: string, d: char, b: string)
    ensures Tokens(a + [d] + b, d) == Tokens(a, d) + Tokens(b, d)
    decreases |a|
  {
    var s := a + [d] + b;
    if a == "" {
      assert s[1..] == b;
    } else if a[0] == d {
      assert s[1..] == a[1..] + [d] + b;
      TokensConcat(a[1..], d, b);
    } else {
      SpanBefore(a, d, b);
      var n := Span(a, d);
      assert s[..n] == a[..n];
      if n == |a| {
        assert a[..n] == a && s[n + 1..] == b;
        assert Tokens(s, d) == [a] + Tokens(b, d);
      } else {
        assert s[n + 1..] == a[n + 1..] + [d] + b;
        TokensConcat(a[n + 1..], d, b);
      }
    }
  }

  /** A delimiter cuts the fields in two. */
  lemma {:induction false} FieldsConcat(a: string, d: char, b: string)
    ensures Fields(a + [d] + b, d) == Fields(a, d) + Fields(b, d)
    decreases |a|
  {
    var s, n := a + [d] + b, Span(a, d);
    SpanBefore(a, d, b);
    assert s[..n] == a[..n];
    if n >= |a| {
      assert a[..n] == a && s[n + 1..] == b;
    } else {
      assert s[n + 1..] == a[n + 1..] + [d] + b;
      FieldsConcat(a[n + 1..], d, b);
    }
  }

  lemma SkipDelimiter(text: string, pos: nat, d: char)
    requires pos < |text| && text[pos] == d
    ensures Tokens(text[pos..], d) == Tokens(text[pos + 1..], d)
  {
    assert text[pos..][1..] == text[pos + 1..];
  }

  lemma {:induction false} SpanIs(s: string, d: char, n: nat)
    requires n <= |s| && (forall i :: 0 <= i < n ==> s[i] != d) && (n < |s| ==> s[n] == d)
    ensures Span(s, d) == n
  {
    if n == 0 {
    } else {
      SpanIs(s[1..], d, n - 1);
    }
  }

  lemma TakeToken(text: string, start: nat, pos: nat, d: char)
    requires start < pos <= |text|
    requires forall i :: start <= i < pos ==> text[i] != d
    requires pos < |text| ==> text[pos] == d
    ensures Tokens(text[start..], d) ==
              [text[start..pos]] + if pos < |text| then Tokens(text[pos + 1..], d) else []
  {
    var s := text[start..];
    SpanIs(s, d, pos - start);
    assert s[..pos - start] == text[start..pos];
    assert pos == |text| ==> s[..pos - start] == s;
    assert pos < |text| ==> s[pos - start + 1..] == text[pos + 1..];
  }

  /** The hidden cursor that strtok keeps between calls. */
  class Strtok {
    var text: string
    var pos: nat

    ghost predicate Valid()
      reads this
    {
      pos <= |text|
    }

    ghost function Remaining(d: char): seq<string>
      requires Valid()
      reads this
    {
      Tokens(text[pos..], d)
    }

    constructor (s: string)
      ensures Valid() && text == s && pos == 0
    {
      text, pos := s, 0;
    }

    /** At the end of the string there are no tokens, whatever the delimiter. */
    lemma AtEnd(d: char)
      requires pos == |text|
      ensures Remaining(d) == []
    {
      assert text[pos..] == "";
    }

    /** strtok(s, ...): forget the previous string. */
    method Start(s: string)
      modifies this
      ensures Valid() && text == s && pos == 0
    {
      text, pos := s, 0;
    }

    /** strtok(NULL, d): the next token, None for NULL. */
    method Next(d: char) returns (token: Option<string>)
      requires Valid()
      modifies this
      ensures Valid() && text == old(text)
      ensures token.Some? ==> old(Remaining(d)) == [token.value] + Remaining(d)
      ensures token.None? ==> old(Remaining(d)) == [] && pos == |text|
    {
      Skip(d);
      if pos == |text| {
        assert text[pos..] == "";
        return None;
      }
      var t := Take(d);
      token := Some(t);
    }

    /** The token that starts here. */
    method Take(d: char) returns (token: string)
      requires Valid() && pos < |text| && text[pos] != d
      modifies this
      ensures Valid() && text == old(text)
      ensures [token] + Remaining(d) == old(Remaining(d))
    {
      var start := pos;
      while pos < |text| && text[pos] != d
        invariant start <= pos <= |text| && text == old(text)
        invariant forall i :: start <= i < pos ==> text[i] != d
        invariant pos == start ==> text[pos] != d
      {
        pos := pos + 1;
      }
      TakeToken(text, start, pos, d);
      token := text[start..pos];
      if pos < |text| {
        pos := pos + 1;
      } else {
        assert text[pos..] == "";
      }
    }

    /** Move over leading delimiters. */
    method Skip(d: char)
      requires Valid()
      modifies this
      ensures Valid() && text == old(text)
      ensures Remaining(d) == old(Remaining(d))
      ensures pos < |text| ==> text[pos] != d
    {
      while pos < |text| && text[pos] == d
        invariant Valid() && text == old(text)
        invariant Remaining(d) == old(Remaining(d))
      {
        SkipDelimiter(text, pos, d);
        pos := pos + 1;
      }
    }
  }
}
