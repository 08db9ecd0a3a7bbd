/** str_split: a pass that counts, a pass that cuts, and two asserts that
    compare them. */
module StringUtils {
  import opened Text

  function CountOf(s: string, d: char): nat {
    if s == "" then 0 else (if s[0] == d then 1 else 0) + CountOf(s[1..], d)
  }

  /** The number of tokens the counting pass reserves space for. */
  function Bound(s: string, d: char): nat {
    CountOf(s, d) + if s == "" || s[|s| - 1] != d then 1 else 0
  }

  /** Every delimiter stands right after a non-empty field. */
  ghost predicate Regular(s: string, d: char) {
    s != "" && s[0] != d && forall i :: 0 < i < |s| ==> !(s[i - 1] == d && s[i] == d)
  }

  lemma {:induction false} CountSkip(s: string, d: char, n: nat)
    requires n <= |s| && forall i :: 0 <= i < n ==> s[i] != d
    ensures CountOf(s, d) == CountOf(s[n..], d)
  {
    if n > 0 {
      CountSkip(s[1..], d, n - 1);
      assert s[1..][n - 1..] == s[n..];
    } else {
      assert s[0..] == s;
    }
  }

  lemma CountStep(s: string, d: char, i: nat)
    requires i < |s|
    ensures CountOf(s[i..], d) == (if s[i] == d then 1 else 0) + CountOf(s[i + 1..], d)
  {
    assert s[i..][1..] == s[i + 1..];
  }

  lemma RegularTail(s: string, d: char, n: nat)
    requires 0 < n && n + 1 < |s| && s[n] == d && forall i :: 0 <= i < n ==> s[i] != d
    ensures Regular(s, d) <==> Regular(s[n + 1..], d)
  {
    var r := s[n + 1..];
    assert forall i :: 0 <= i < |r| ==> r[i] == s[n + 1 + i];
    if Regular(r, d) {
      forall i | 0 < i < |s| ensures !(s[i - 1] == d && s[i] == d) {
        if i > n + 1 { assert !(r[i - n - 2] == d && r[i - n - 1] == d); }
      }
    }
    if Regular(s, d) {
      assert !(s[n] == d && s[n + 1] == d);
      forall i | 0 < i < |r| ensures !(r[i - 1] == d && r[i] == d) {
        assert !(s[n + i] == d && s[n + 1 + i] == d);
      }
    }
  }

  /** Tokens never outnumber the bound, and meet it exactly on regular strings. */
  lemma {:induction false} TokensWithinBound(s: string, d: char)
    ensures |Tokens(s, d)| <= Bound(s, d)
    ensures |Tokens(s, d)| == Bound(s, d) <==> Regular(s, d)
    decreases |s|
  {
    if s == "" {
    } else if s[0] == d {
      TokensWithinBound(s[1..], d);
      assert s[1..] != "" ==> s[1..][|s| - 2] == s[|s| - 1];
    } else {
      var n := Span(s, d);
      CountSkip(s, d, n);
      if n == |s| {
        assert s[n..] == "";
      } else {
        CountStep(s, d, n);
        var r := s[n + 1..];
        TokensWithinBound(r, d);
        if r != "" {
          RegularTail(s, d, n);
          assert r[|r| - 1] == s[|s| - 1];
        }
      }
    }
  }

  /** Joining the tokens of a regular string gives it back, but for one
      trailing delimiter. */
  lemma {:induction false} JoinTokens(s: string, d: char)
    requires Regular(s, d)
    ensures s == Join(Tokens(s, d), d) || s == Join(Tokens(s, d), d) + [d]
    decreases |s|
  {
    var n := Span(s, d);
    if n >= |s| {
    } else {
      var r := s[n + 1..];
      Rejoin(s, n);
      if r != "" {
        RegularTail(s, d, n);
        JoinTokens(r, d);
        JoinCons(s[..n], Tokens(r, d), d);
        JoinedTail(s[..n] + [d], r, Join(Tokens(r, d), d), d);
      }
    }
  }

  lemma JoinedTail(head: string, r: string, joined: string, d: char)
    requires r == joined || r == joined + [d]
    ensures head + r == head + joined || head + r == (head + joined) + [d]
  {
    assert head + (joined + [d]) == (head + joined) + [d];
  }

  /** The counting pass: one more than the delimiters and a trailing token. */
  method CountElements(s: string, d: char) returns (count: nat)
    ensures count == Bound(s, d) + 1
  {
    count := 0;
    var lastComma := -1;
    var tmp := 0;
    while tmp < |s|
      invariant 0 <= tmp <= |s| && -1 <= lastComma < tmp
      invariant count + CountOf(s[tmp..], d) == CountOf(s, d)
      invariant lastComma == tmp - 1 <==> tmp == 0 || s[tmp - 1] == d
    {
      CountStep(s, d, tmp);
      if s[tmp] == d {
        count := count + 1;
        lastComma := tmp;
      }
      tmp := tmp + 1;
    }
    assert s[|s|..] == "";
    // a null last comma lies below every address
    count := count + if lastComma == -1 || lastComma < |s| - 1 then 1 else 0;
    count := count + 1;
  }

  /** str_split; None where its closing assert aborts the process. The assert
      inside the loop is proved never to fail. The cursor of strtok ends up at the
      end of the string. */
  method StrSplit(s: string, d: char, cursor: Strtok) returns (r: Option<seq<string>>)
    modifies cursor
    ensures cursor.Valid() && cursor.pos == |cursor.text|
    ensures r.Some? <==> Regular(s, d)
    ensures r.Some? ==> r.value == Tokens(s, d)
  {
    var count := CountElements(s, d);
    TokensWithinBound(s, d);
    var tokens: seq<string> := [];
    cursor.Start(s);
    assert s[0..] == s;
    var token := cursor.Next(d);
    while token.Some?
      invariant cursor.Valid()
      invariant token.Some? ==> Tokens(s, d) == tokens + [token.value] + cursor.Remaining(d)
      invariant token.None? ==> Tokens(s, d) == tokens && cursor.pos == |cursor.text|
      decreases |Tokens(s, d)| - |tokens|
    {
      assert |tokens| < count;
      tokens := tokens + [token.value];
      token := cursor.Next(d);
    }
    if |tokens| != count - 1 {
      return None;
    }
    return Some(tokens);
  }

  // str_replace

  predicate OccursAt(s: string, t: string, i: nat) {
    i + |t| <= |s| && s[i..i + |t|] == t
  }

  /** strstr: where t first occurs in s. */
  function FirstAt(s: string, t: string, from: nat): (r: Option<nat>)
    requires from <= |s|
    ensures r.Some? ==> from <= r.value && OccursAt(s, t, r.value)
    ensures r.Some? ==> forall j :: from <= j < r.value ==> !OccursAt(s, t, j)
    ensures r.None? ==> forall j :: from <= j <= |s| ==> !OccursAt(s, t, j)
    decreases |s| - from
  {
    if OccursAt(s, t, from) then Some(from) else if from == |s| then None else FirstAt(s, t, from + 1)
  }

  /** str_replace: only the first occurrence goes. */
  function Replace(s: string, orig: string, rep: string): string {
    var i := FirstAt(s, orig, 0);
    if i.None? then s else s[..i.value] + rep + s[i.value + |orig|..]
  }

  lemma LettersOf(s: string, i: nat)
    requires OccursAt(s, "new", i)
    ensures s[i] == 'n' && s[i + 1] == 'e' && s[i + 2] == 'w'
  {
    var t := s[i..i + 3];
    assert s[i] == t[0] && s[i + 1] == t[1] && s[i + 2] == t[2];
  }

  /** A read mail is renamed from the directory of new mails to that of current
      ones exactly when "new" does not already occur in the path before it. */
  lemma RenameIff(dir: string, name: string)
    ensures var path := dir + "new/" + name;
            Replace(path, "new", "cur") == dir + "cur/" + name <==>
              forall j :: 0 <= j < |dir| ==> !OccursAt(path, "new", j)
  {
    var path := dir + "new/" + name;
    var n := |dir|;
    assert path[n..n + 3] == "new";
    assert path[n + 3..] == "/" + name && path[..n] == dir;
    assert OccursAt(path, "new", n);
    var i := FirstAt(path, "new", 0).value;
    LettersOf(path, n);
    if i < n {
      LettersOf(path, i);
      assert i + 3 <= n;
      assert Replace(path, "new", "cur")[n] == 'n' && (dir + "cur/" + name)[n] == 'c';
    } else {
      assert dir + "cur" + ("/" + name) == dir + "cur/" + name;
    }
  }

  /** Replacing takes the first occurrence, whatever follows. */
  lemma ReplaceFirst(before: string, after: string)
    requires forall j :: 0 <= j < |before| ==> !OccursAt(before + "new" + after, "new", j)
    ensures Replace(before + "new" + after, "new", "cur") == before + "cur" + after
  {
    var s, n := before + "new" + after, |before|;
    assert s[n..n + 3] == "new" && s[..n] == before && s[n + 3..] == after;
    assert OccursAt(s, "new", n);
  }

  /** A mail that stays in its directory: one above it begins with "new". */
  lemma NewtonStays(name: string)
    ensures Replace("/newton/bob/new/" + name, "new", "cur") == "/" + "cur" + ("ton/bob/new/" + name)
  {
    var after := "ton/bob/new/" + name;
    var path := "/" + "new" + after;
    assert path == "/newton/bob/new/" + name;
    assert !OccursAt(path, "new", 0) by {
      if OccursAt(path, "new", 0) { LettersOf(path, 0); }
    }
    ReplaceFirst("/", after);
  }
}
