/** How the master spreads mail domains over its worker processes, on values:
    one list of domain names per process. */
module Router {
  import opened Text

  /** The first process that already handles the domain. */
  function Holder(procs: seq<seq<string>>, name: string): (r: Option<nat>)
    ensures r.Some? ==> r.value < |procs| && name in procs[r.value]
    ensures r.Some? ==> forall j :: 0 <= j < r.value ==> name !in procs[j]
    ensures r.None? ==> forall j :: 0 <= j < |procs| ==> name !in procs[j]
  {
    if procs == [] then None
    else if name in procs[0] then Some(0)
    else
      var r := Holder(procs[1..], name);
      if r.Some? then
        assert forall j :: 0 < j < |procs| ==> procs[j] == procs[1..][j - 1];
        Some(r.value + 1)
      else
        assert forall j :: 0 < j < |procs| ==> procs[j] == procs[1..][j - 1];
        None
  }

  /** The leftmost of the processes with the fewest domains. */
  ghost predicate IsLeastLoaded(procs: seq<seq<string>>, l: nat) {
    && l < |procs|
    && (forall j :: 0 <= j < |procs| ==> |procs[l]| <= |procs[j]|)
    && (forall j :: 0 <= j < l ==> |procs[l]| < |procs[j]|)
  }

  function Least(procs: seq<seq<string>>): (l: nat)
    requires procs != []
    ensures IsLeastLoaded(procs, l)
  {
    if |procs| == 1 then 0
    else
      var front := procs[..|procs| - 1];
      var l := Least(front);
      assert forall j :: 0 <= j < |front| ==> front[j] == procs[j];
      if |procs[l]| > |procs[|procs| - 1]| then |procs| - 1 else l
  }

  /** get_mail_proc_idx: the process for a domain, and the table after it. */
  function Assign(procs: seq<seq<string>>, name: string): (seq<seq<string>>, nat)
    requires procs != []
  {
    var h := Holder(procs, name);
    if h.Some? then (procs, h.value)
    else
      var l := Least(procs);
      (procs[l := procs[l] + [name]], l)
  }

  // Round robin.

  /** How many of the first k domains process j of p gets. */
  function Load(p: nat, k: nat, j: nat): nat
    requires j < p
  {
    (k + p - 1 - j) / p
  }

  /** The table after the domains in `seen`, dealt out in turn. */
  ghost predicate RoundRobin(procs: seq<seq<string>>, seen: seq<string>) {
    && procs != [] && Distinct(seen)
    && (forall j :: 0 <= j < |procs| ==> |procs[j]| == Load(|procs|, |seen|, j))
    && (forall j, q :: 0 <= j < |procs| && 0 <= q < |procs[j]| ==>
          Dealt(|procs|, j, q) < |seen| && procs[j][q] == seen[Dealt(|procs|, j, q)])
  }

  /** The number of the domain that process j gets as its q-th. */
  function Dealt(p: nat, j: nat, q: nat): nat {
    q * p + j
  }

  lemma {:induction false} MulMonotone(a: int, b: int, p: nat)
    requires a <= b
    ensures a * p <= b * p
    decreases b - a
  {
    if a >= b {
    } else {
      MulMonotone(a, b - 1, p);
      assert b * p == (b - 1) * p + p;
    }
  }

  lemma MulStep(a: int, b: int, p: nat)
    requires a < b
    ensures a * p + p <= b * p
  {
    MulMonotone(a + 1, b, p);
    assert (a + 1) * p == a * p + p;
  }

  lemma DivMod(x: int, p: nat)
    requires p > 0
    ensures x == (x / p) * p + x % p && 0 <= x % p < p
  {
  }

  lemma DivIs(x: int, p: nat, q: int)
    requires p > 0 && q * p <= x < q * p + p
    ensures x / p == q && x % p == x - q * p
  {
    var d := x / p;
    DivMod(x, p);
    if d > q {
      MulStep(q, d, p);
    } else if d < q {
      MulStep(d, q, p);
    }
  }

  lemma {:induction false} LoadIs(p: nat, k: nat, j: nat)
    requires j < p
    ensures Load(p, k, j) == k / p + if j < k % p then 1 else 0
  {
    var q, r := k / p, k % p;
    DivMod(k, p);
    if j < r {
      assert (q + 1) * p == q * p + p;
      DivIs(k + p - 1 - j, p, q + 1);
    } else {
      DivIs(k + p - 1 - j, p, q);
    }
  }

  lemma DealtIs(p: nat, i: nat)
    requires p > 0
    ensures i % p < p && Dealt(p, i % p, i / p) == i
  {
    DivMod(i, p);
  }

  lemma DealtOf(p: nat, j: nat, q: nat)
    requires j < p
    ensures Dealt(p, j, q) % p == j && Dealt(p, j, q) / p == q
  {
    DivIs(q * p + j, p, q);
  }

  /** Where a domain seen before lies. */
  lemma SeenIsHeld(procs: seq<seq<string>>, seen: seq<string>, i: nat)
    requires RoundRobin(procs, seen) && i < |seen|
    ensures i / |procs| < |procs[i % |procs|]| && procs[i % |procs|][i / |procs|] == seen[i]
  {
    var p := |procs|;
    DealtIs(p, i);
    LoadIs(p, |seen|, i % p);
    QuotientBelow(p, i, |seen|);
  }

  lemma QuotientBelow(p: nat, i: nat, k: nat)
    requires p > 0 && i < k
    ensures i / p < k / p + if i % p < k % p then 1 else 0
  {
    var a, b := i / p, k / p;
    DivMod(i, p);
    DivMod(k, p);
    if a > b {
      MulStep(b, a, p);
    }
  }

  /** Only one process holds a domain. */
  lemma HeldOnce(procs: seq<seq<string>>, seen: seq<string>, i: nat, h: nat)
    requires RoundRobin(procs, seen) && i < |seen| && h < |procs| && seen[i] in procs[h]
    ensures h == i % |procs|
  {
    var p := |procs|;
    var q :| 0 <= q < |procs[h]| && procs[h][q] == seen[i];
    assert Dealt(p, h, q) < |seen| && procs[h][q] == seen[Dealt(p, h, q)];
    assert Dealt(p, h, q) == i;
    DealtOf(p, h, q);
  }

  /** A domain seen before returns to its process, and nothing changes. */
  lemma AssignSeen(procs: seq<seq<string>>, seen: seq<string>, i: nat)
    requires RoundRobin(procs, seen) && i < |seen|
    ensures Assign(procs, seen[i]) == (procs, i % |procs|)
  {
    SeenIsHeld(procs, seen, i);
    var p, q := i % |procs|, i / |procs|;
    assert procs[p][q] == seen[i];
    HeldOnce(procs, seen, i, Holder(procs, seen[i]).value);
  }

  lemma HeldIsSeen(procs: seq<seq<string>>, seen: seq<string>, j: nat, q: nat)
    requires RoundRobin(procs, seen) && j < |procs| && q < |procs[j]|
    ensures procs[j][q] in seen
  {
    assert Dealt(|procs|, j, q) < |seen|;
  }

  lemma NotHeld(procs: seq<seq<string>>, seen: seq<string>, name: string)
    requires RoundRobin(procs, seen) && name !in seen
    ensures Holder(procs, name).None?
  {
    var h := Holder(procs, name);
    if h.Some? {
      var q :| 0 <= q < |procs[h.value]| && procs[h.value][q] == name;
      HeldIsSeen(procs, seen, h.value, q);
    }
  }

  /** The leftmost least loaded process is the next in turn. */
  lemma {:induction false} LeastIsNext(procs: seq<seq<string>>, seen: seq<string>)
    requires RoundRobin(procs, seen)
    ensures Least(procs) == |seen| % |procs|
  {
    var p, k := |procs|, |seen|;
    var l, r := Least(procs), k % p;
    LoadIs(p, k, l);
    LoadIs(p, k, r);
    assert |procs[l]| <= |procs[r]|;
  }

  /** The k-th new domain goes to process k mod p, and the table stays dealt out
      in turn. */
  lemma {:induction false} AssignNew(procs: seq<seq<string>>, seen: seq<string>, name: string)
    requires RoundRobin(procs, seen) && name !in seen
    ensures var (procs', j) := Assign(procs, name);
            j == |seen| % |procs| && |procs'| == |procs| && RoundRobin(procs', seen + [name])
  {
    var p, k := |procs|, |seen|;
    NotHeld(procs, seen, name);
    LeastIsNext(procs, seen);
    var l := k % p;
    var procs' := procs[l := procs[l] + [name]];
    var seen' := seen + [name];
    LoadIs(p, k, l);
    DealtIs(p, k);
    forall j | 0 <= j < p ensures |procs'[j]| == Load(p, k + 1, j) {
      LoadGrows(p, k, j);
    }
    forall j, q | 0 <= j < p && 0 <= q < |procs'[j]|
      ensures Dealt(p, j, q) < |seen'| && procs'[j][q] == seen'[Dealt(p, j, q)]
    {
      if j != l || q < |procs[l]| { assert procs'[j][q] == procs[j][q]; }
    }
  }

  lemma LoadGrows(p: nat, k: nat, j: nat)
    requires j < p
    ensures Load(p, k + 1, j) == Load(p, k, j) + if j == k % p then 1 else 0
  {
    LoadIs(p, k, j);
    LoadIs(p, k + 1, j);
    NextTurn(p, k);
  }

  lemma NextTurn(p: nat, k: nat)
    requires p > 0
    ensures if k % p + 1 < p then (k + 1) / p == k / p && (k + 1) % p == k % p + 1
            else (k + 1) / p == k / p + 1 && (k + 1) % p == 0
  {
    var q, r := k / p, k % p;
    DivMod(k, p);
    if r + 1 < p {
      DivIs(k + 1, p, q);
    } else {
      assert (q + 1) * p == q * p + p;
      DivIs(k + 1, p, q + 1);
    }
  }

  // Runs.

  function Empty(p: nat): seq<seq<string>> {
    seq(p, _ => [])
  }

  function Route(procs: seq<seq<string>>, names: seq<string>): (r: seq<seq<string>>)
    requires procs != []
    ensures |r| == |procs|
  {
    if names == [] then procs
    else Assign(Route(procs, names[..|names| - 1]), names[|names| - 1]).0
  }

  /** The names in the order of their first appearance. */
  function Firsts(names: seq<string>): seq<string> {
    if names == [] then []
    else
      var f := Firsts(names[..|names| - 1]);
      var name := names[|names| - 1];
      if name in f then f else f + [name]
  }

  lemma EmptyIsRoundRobin(p: nat)
    requires p > 0
    ensures RoundRobin(Empty(p), [])
  {
    forall j | 0 <= j < p ensures Load(p, 0, j) == 0 {
      DivIs(p - 1 - j, p, 0);
    }
  }

  /** Least-loaded choice is round robin: after any row of domain names, the
      table is the distinct ones dealt out in turn, the k-th to process k mod p,
      so that process j holds (k + p - 1 - j) div p of the first k. */
  lemma {:induction false} RouteIsRoundRobin(p: nat, names: seq<string>)
    requires p > 0
    ensures RoundRobin(Route(Empty(p), names), Firsts(names))
  {
    if names == [] {
      EmptyIsRoundRobin(p);
    } else {
      var front := names[..|names| - 1];
      var name := names[|names| - 1];
      RouteIsRoundRobin(p, front);
      if name in Firsts(front) {
        var i :| 0 <= i < |Firsts(front)| && Firsts(front)[i] == name;
        AssignSeen(Route(Empty(p), front), Firsts(front), i);
      } else {
        AssignNew(Route(Empty(p), front), Firsts(front), name);
      }
    }
  }

  /** A process is never asked to hold more than c domains exactly when there
      are at most c times p of them. */
  lemma {:induction false} CapacityIff(p: nat, k: nat, c: nat)
    requires p > 0
    ensures (forall j :: 0 <= j < p ==> Load(p, k, j) <= c) <==> k <= c * p
  {
    var q, r := k / p, k % p;
    DivMod(k, p);
    LoadIs(p, k, 0);
    var top := Load(p, k, 0);
    assert k <= top * p by {
      if r > 0 { assert (q + 1) * p == q * p + p; }
    }
    if top <= c {
      MulMonotone(top, c, p);
      forall j | 0 <= j < p ensures Load(p, k, j) <= c { LoadIs(p, k, j); }
    } else {
      MulStep(c, top, p);
      if r == 0 {
        assert k == q * p && top == q;
      } else {
        MulMonotone(c, q, p);
      }
    }
  }

  /** With two processes or more, no hundred domains overflow the sixty places
      of a process in the master: none is given more than fifty. */
  lemma NoOverflow(p: nat, names: seq<string>, j: nat)
    requires p >= 2 && |Firsts(names)| <= 100 && j < p
    ensures |Route(Empty(p), names)[j]| <= 50
  {
    RouteIsRoundRobin(p, names);
    CapacityIff(p, |Firsts(names)|, 50);
    assert 50 * p >= 100;
  }
}
