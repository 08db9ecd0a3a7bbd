/** The master's round on values: scanned mails are grouped by domain, and each
    group goes to the queue of the process that its domain is assigned to. */
module Dispatch {
  import opened Text
  import opened Router

  datatype Mail = Mail(path: string, domain: string)
  datatype Group = Group(domain: string, paths: seq<string>)

  function Names(groups: seq<Group>): (ns: seq<string>)
    ensures |ns| == |groups| && forall i :: 0 <= i < |groups| ==> ns[i] == groups[i].domain
  {
    seq(|groups|, i requires 0 <= i < |groups| => groups[i].domain)
  }

  /** The group of a domain; the scan keeps the last match. */
  function Find(groups: seq<Group>, domain: string): (r: Option<nat>)
    ensures r.Some? ==> r.value < |groups| && groups[r.value].domain == domain
    ensures r.Some? ==> forall i :: r.value < i < |groups| ==> groups[i].domain != domain
    ensures r.None? ==> forall i :: 0 <= i < |groups| ==> groups[i].domain != domain
  {
    FindLast(Names(groups), domain)
  }

  /** A scanned mail joins the group of its domain, once. */
  function AddMail(groups: seq<Group>, m: Mail): seq<Group> {
    var i := Find(groups, m.domain);
    if i.None? then groups + [Group(m.domain, [m.path])]
    else if m.path in groups[i.value].paths then groups
    else groups[i.value := WithPath(groups[i.value], m.path)]
  }

  function AddAll(groups: seq<Group>, mails: seq<Mail>): seq<Group> {
    if mails == [] then groups
    else AddMail(AddAll(groups, mails[..|mails| - 1]), mails[|mails| - 1])
  }

  /** The queues after the groups were sent, each to its process. */
  function Send(procs: seq<seq<string>>, groups: seq<Group>): (r: (seq<seq<string>>, seq<seq<string>>))
    requires procs != []
    ensures |r.0| == |r.1| == |procs|
  {
    if groups == [] then (procs, Empty(|procs|))
    else
      var (before, sent) := Send(procs, groups[..|groups| - 1]);
      var g := groups[|groups| - 1];
      var (after, j) := Assign(before, g.domain);
      (after, sent[j := sent[j] + g.paths])
  }

  /** The groups with their mails taken out. */
  function Emptied(groups: seq<Group>): (gs: seq<Group>)
    ensures Names(gs) == Names(groups)
  {
    seq(|groups|, i requires 0 <= i < |groups| => Group(groups[i].domain, []))
  }

  // Grouping.

  /** All mails in the groups. */
  function Content(groups: seq<Group>): multiset<string> {
    if groups == [] then multiset{}
    else Content(groups[..|groups| - 1]) + multiset(groups[|groups| - 1].paths)
  }

  lemma {:induction false} ContentHas(groups: seq<Group>, x: string)
    ensures x in Content(groups) <==> exists i :: 0 <= i < |groups| && x in groups[i].paths
  {
    if groups == [] {
    } else {
      var front := groups[..|groups| - 1];
      ContentHas(front, x);
      assert forall i :: 0 <= i < |front| ==> front[i] == groups[i];
    }
  }

  function WithPath(g: Group, x: string): Group {
    Group(g.domain, g.paths + [x])
  }

  lemma {:induction false} ContentAppend(groups: seq<Group>, i: nat, x: string)
    requires i < |groups|
    ensures Content(groups[i := WithPath(groups[i], x)]) == Content(groups) + multiset{x}
  {
    var n := |groups| - 1;
    var groups' := groups[i := WithPath(groups[i], x)];
    if i == n {
      assert groups'[..n] == groups[..n];
      assert multiset(groups[n].paths + [x]) == multiset(groups[n].paths) + multiset{x};
    } else {
      ContentAppend(groups[..n], i, x);
      assert groups'[..n] == groups[..n][i := WithPath(groups[..n][i], x)];
      assert groups'[n] == groups[n];
    }
  }

  /** Each mail lies in the group of its own domain. */
  ghost predicate AtHome(groups: seq<Group>, home: string -> string) {
    && Distinct(Names(groups))
    && forall i, x :: 0 <= i < |groups| && x in groups[i].paths ==> home(x) == groups[i].domain
  }

  lemma AddMailKeeps(groups: seq<Group>, m: Mail, home: string -> string)
    requires AtHome(groups, home) && m.domain == home(m.path)
    ensures AtHome(AddMail(groups, m), home)
    ensures Names(groups) <= Names(AddMail(groups, m))
  {
    var i := Find(groups, m.domain);
    if i.Some? {
      assert Names(AddMail(groups, m)) == Names(groups);
    }
  }

  /** A mail that lies anywhere lies in the group found for it. */
  lemma FoundHome(groups: seq<Group>, m: Mail, home: string -> string)
    requires AtHome(groups, home) && m.domain == home(m.path)
    ensures var i := Find(groups, m.domain);
            m.path in Content(groups) <==> i.Some? && m.path in groups[i.value].paths
  {
    var i := Find(groups, m.domain);
    ContentHas(groups, m.path);
    if m.path in Content(groups) {
      var k :| 0 <= k < |groups| && m.path in groups[k].paths;
      assert groups[k].domain == m.domain;
      assert Names(groups)[k] == Names(groups)[i.value];
    }
  }

  lemma AddMailContent(groups: seq<Group>, m: Mail, home: string -> string)
    requires AtHome(groups, home) && m.domain == home(m.path)
    ensures Content(AddMail(groups, m)) ==
              if m.path in Content(groups) then Content(groups) else Content(groups) + multiset{m.path}
  {
    var i := Find(groups, m.domain);
    FoundHome(groups, m, home);
    if i.None? {
      assert (groups + [Group(m.domain, [m.path])])[..|groups|] == groups;
    } else {
      ContentAppend(groups, i.value, m.path);
    }
  }

  ghost function PathsOf(mails: seq<Mail>): set<string> {
    set m | m in mails :: m.path
  }

  ghost predicate Homes(mails: seq<Mail>, home: string -> string) {
    forall i :: 0 <= i < |mails| ==> mails[i].domain == home(mails[i].path)
  }

  lemma PathsGrow(mails: seq<Mail>)
    requires mails != []
    ensures PathsOf(mails) == PathsOf(mails[..|mails| - 1]) + {mails[|mails| - 1].path}
  {
    assert mails == mails[..|mails| - 1] + [mails[|mails| - 1]];
  }

  lemma OneMore(s: set<string>, c: multiset<string>, x: string)
    requires c == multiset(s)
    ensures multiset(s + {x}) == if x in c then c else c + multiset{x}
  {
  }

  /** Grouping keeps every scanned path exactly once, in the group of its domain,
      and the groups there were keep their places. */
  lemma {:induction false} Grouping(groups: seq<Group>, mails: seq<Mail>, home: string -> string)
    requires AtHome(groups, home) && Content(groups) == multiset{} && Homes(mails, home)
    ensures AtHome(AddAll(groups, mails), home)
    ensures Content(AddAll(groups, mails)) == multiset(PathsOf(mails))
    ensures Names(groups) <= Names(AddAll(groups, mails))
  {
    if mails == [] {
      assert PathsOf(mails) == {};
    } else {
      var front := mails[..|mails| - 1];
      var m := mails[|mails| - 1];
      var before := AddAll(groups, front);
      Grouping(groups, front, home);
      AddMailKeeps(before, m, home);
      AddMailContent(before, m, home);
      PathsGrow(mails);
      OneMore(PathsOf(front), Content(before), m.path);
    }
  }

  /** The first of the mails with the path x comes before all with the path y. */
  ghost predicate ComesFirst(mails: seq<Mail>, x: string, y: string) {
    exists a :: 0 <= a < |mails| && mails[a].path == x && forall b :: 0 <= b <= a ==> mails[b].path != y
  }

  ghost predicate InOrder(groups: seq<Group>, mails: seq<Mail>) {
    forall i, p, q :: 0 <= i < |groups| && 0 <= p < q < |groups[i].paths| ==>
      ComesFirst(mails, groups[i].paths[p], groups[i].paths[q])
  }

  lemma FirstStays(mails: seq<Mail>, m: Mail, x: string, y: string)
    ensures ComesFirst(mails, x, y) ==> ComesFirst(mails + [m], x, y)
    ensures x in PathsOf(mails) && m.path == y && y !in PathsOf(mails) ==> ComesFirst(mails + [m], x, y)
  {
    if ComesFirst(mails, x, y) {
      var a :| 0 <= a < |mails| && mails[a].path == x && forall b :: 0 <= b <= a ==> mails[b].path != y;
      assert (mails + [m])[a].path == x;
    }
    if x in PathsOf(mails) && m.path == y && y !in PathsOf(mails) {
      var a :| 0 <= a < |mails| && mails[a].path == x;
      assert forall b :: 0 <= b <= a ==> mails[b] in mails && mails[b].path in PathsOf(mails);
      assert (mails + [m])[a].path == x;
    }
  }

  lemma {:induction false} AddInOrder(groups: seq<Group>, mails: seq<Mail>, m: Mail, home: string -> string)
    requires AtHome(groups, home) && m.domain == home(m.path)
    requires Content(groups) == multiset(PathsOf(mails)) && InOrder(groups, mails)
    ensures InOrder(AddMail(groups, m), mails + [m])
  {
    var after := AddMail(groups, m);
    FoundHome(groups, m, home);
    forall i, p, q | 0 <= i < |after| && 0 <= p < q < |after[i].paths|
      ensures ComesFirst(mails + [m], after[i].paths[p], after[i].paths[q])
    {
      FirstStays(mails, m, after[i].paths[p], after[i].paths[q]);
      assert i < |groups| && after[i].paths[p] == groups[i].paths[p];
      ContentHas(groups, groups[i].paths[p]);
    }
  }

  lemma {:induction false} GroupInOrder(groups: seq<Group>, mails: seq<Mail>, m: Mail, home: string -> string)
    requires AtHome(groups, home) && Content(groups) == multiset{} && Homes(mails, home) && m.domain == home(m.path)
    requires InOrder(AddAll(groups, mails), mails)
    ensures InOrder(AddMail(AddAll(groups, mails), m), mails + [m])
  {
    Grouping(groups, mails, home);
    AddInOrder(AddAll(groups, mails), mails, m, home);
  }

  lemma NothingInOrder(groups: seq<Group>)
    requires Content(groups) == multiset{}
    ensures InOrder(groups, [])
  {
    forall i | 0 <= i < |groups| ensures groups[i].paths == [] {
      if groups[i].paths != [] { ContentHas(groups, groups[i].paths[0]); }
    }
  }

  /** The paths of a domain stand in the order in which they were found. */
  lemma {:induction false} GroupsAreInOrder(groups: seq<Group>, mails: seq<Mail>, home: string -> string)
    requires AtHome(groups, home) && Content(groups) == multiset{} && Homes(mails, home)
    ensures InOrder(AddAll(groups, mails), mails)
  {
    if mails == [] {
      NothingInOrder(groups);
    } else {
      var front := mails[..|mails| - 1];
      var m := mails[|mails| - 1];
      GroupsAreInOrder(groups, front, home);
      GroupInOrder(groups, front, m, home);
      assert mails == front + [m];
    }
  }

  // Sending.

  function Total(queues: seq<seq<string>>): multiset<string> {
    if queues == [] then multiset{}
    else Total(queues[..|queues| - 1]) + multiset(queues[|queues| - 1])
  }

  lemma {:induction false} TotalUpdate(queues: seq<seq<string>>, j: nat, paths: seq<string>)
    requires j < |queues|
    ensures Total(queues[j := queues[j] + paths]) == Total(queues) + multiset(paths)
  {
    var n := |queues| - 1;
    if j == n {
      assert queues[j := queues[j] + paths][..n] == queues[..n];
    } else {
      TotalUpdate(queues[..n], j, paths);
      assert queues[j := queues[j] + paths][..n] == queues[..n][j := queues[..n][j] + paths];
    }
  }

  lemma {:induction false} TotalEmpty(p: nat)
    ensures Total(Empty(p)) == multiset{}
  {
    if p == 0 {
    } else {
      TotalEmpty(p - 1);
      assert Empty(p)[..p - 1] == Empty(p - 1);
    }
  }

  /** Sending loses and repeats nothing. */
  lemma {:induction false} SendKeepsContent(procs: seq<seq<string>>, groups: seq<Group>)
    requires procs != []
    ensures Total(Send(procs, groups).1) == Content(groups)
  {
    if groups == [] {
      TotalEmpty(|procs|);
    } else {
      var front := groups[..|groups| - 1];
      var (before, sent) := Send(procs, front);
      SendKeepsContent(procs, front);
      TotalUpdate(sent, Assign(before, groups[|groups| - 1].domain).1, groups[|groups| - 1].paths);
    }
  }

  /** The mails of the groups whose place is j modulo p, in order. */
  function Share(groups: seq<Group>, p: nat, j: nat): seq<string>
    requires p > 0
  {
    if groups == [] then []
    else
      Share(groups[..|groups| - 1], p, j) +
      if (|groups| - 1) % p == j then groups[|groups| - 1].paths else []
  }

  /** The domains known after the first n groups were sent. */
  function Known(seen: seq<string>, names: seq<string>, n: nat): seq<string>
    requires n <= |names|
  {
    if n <= |seen| then seen else names[..n]
  }

  /** One more group is sent to the process its place stands for. */
  lemma SendOne(before: seq<seq<string>>, seen: seq<string>, names: seq<string>, n: nat)
    requires n < |names| && Distinct(names) && seen <= names && RoundRobin(before, Known(seen, names, n))
    ensures var (after, j) := Assign(before, names[n]);
            && |after| == |before| && j == n % |before| && RoundRobin(after, Known(seen, names, n + 1))
  {
    if n < |seen| {
      AssignSeen(before, seen, n);
    } else {
      assert names[..n] == Known(seen, names, n);
      assert names[n] !in names[..n];
      AssignNew(before, names[..n], names[n]);
      assert names[..n] + [names[n]] == names[..n + 1];
    }
  }

  /** Affinity: with the known domains dealt out in turn, the group at place i
      goes to queue i mod p, and the domains stay dealt out in turn. */
  lemma {:induction false} SendIsAffine(procs: seq<seq<string>>, seen: seq<string>, groups: seq<Group>, n: nat)
    requires RoundRobin(procs, seen) && Distinct(Names(groups)) && seen <= Names(groups) && n <= |groups|
    ensures var (after, sent) := Send(procs, groups[..n]);
            && RoundRobin(after, Known(seen, Names(groups), n))
            && forall j :: 0 <= j < |procs| ==> sent[j] == Share(groups[..n], |procs|, j)
  {
    if n == 0 {
    } else {
      SendIsAffine(procs, seen, groups, n - 1);
      assert groups[..n] == groups[..n - 1] + [groups[n - 1]];
      assert Names(groups)[n - 1] == groups[n - 1].domain;
      SendOne(Send(procs, groups[..n - 1]).0, seen, Names(groups), n - 1);
      SendLast(procs, groups[..n - 1], groups[n - 1]);
    }
  }

  /** What one more group adds to the queues. */
  lemma {:induction false} SendLast(procs: seq<seq<string>>, front: seq<Group>, g: Group)
    requires procs != []
    requires forall j :: 0 <= j < |procs| ==> Send(procs, front).1[j] == Share(front, |procs|, j)
    requires Assign(Send(procs, front).0, g.domain).1 == |front| % |procs|
    ensures Send(procs, front + [g]).0 == Assign(Send(procs, front).0, g.domain).0
    ensures forall j :: 0 <= j < |procs| ==> Send(procs, front + [g]).1[j] == Share(front + [g], |procs|, j)
  {
    assert (front + [g])[..|front|] == front;
    forall j | 0 <= j < |procs| ensures Send(procs, front + [g]).1[j] == Share(front + [g], |procs|, j) {
      var k := |front| % |procs|;
      assert j != k ==> Share(front, |procs|, j) + [] == Share(front, |procs|, j);
    }
  }

  // Rounds.

  datatype Master = Master(procs: seq<seq<string>>, groups: seq<Group>)

  /** One round: scan, group, send, forget the mails. The value is what each
      queue receives. */
  function Round(m: Master, mails: seq<Mail>): (Master, seq<seq<string>>)
    requires m.procs != []
  {
    var groups := AddAll(m.groups, mails);
    var (procs, sent) := Send(m.procs, groups);
    (Master(procs, Emptied(groups)), sent)
  }

  function Rounds(p: nat, batches: seq<seq<Mail>>): (m: Master)
    requires p > 0
    ensures |m.procs| == p
  {
    if batches == [] then Master(Empty(p), [])
    else Round(Rounds(p, batches[..|batches| - 1]), batches[|batches| - 1]).0
  }

  /** Between rounds: the domains of the groups, in order, are those dealt out,
      and no mail is left. */
  ghost predicate Settled(m: Master) {
    RoundRobin(m.procs, Names(m.groups)) && Content(m.groups) == multiset{}
  }

  lemma {:induction false} EmptiedHasNothing(groups: seq<Group>)
    ensures Content(Emptied(groups)) == multiset{}
  {
    if groups == [] {
    } else {
      EmptiedHasNothing(groups[..|groups| - 1]);
      assert Emptied(groups)[..|groups| - 1] == Emptied(groups[..|groups| - 1]);
    }
  }

  lemma SettledIsAtHome(m: Master, home: string -> string)
    requires Settled(m)
    ensures AtHome(m.groups, home)
  {
    forall i, x | 0 <= i < |m.groups| ensures x !in m.groups[i].paths {
      ContentHas(m.groups, x);
    }
  }

  lemma WholeSend(procs: seq<seq<string>>, seen: seq<string>, groups: seq<Group>)
    requires RoundRobin(procs, seen) && Distinct(Names(groups)) && seen <= Names(groups)
    ensures var (after, sent) := Send(procs, groups);
            && RoundRobin(after, Names(groups))
            && Total(sent) == Content(groups)
            && forall j :: 0 <= j < |procs| ==> sent[j] == Share(groups, |procs|, j)
  {
    assert groups[..|groups|] == groups;
    SendIsAffine(procs, seen, groups, |groups|);
    SendKeepsContent(procs, groups);
    assert Known(seen, Names(groups), |groups|) == Names(groups);
  }

  /** Dispatch conservation and affinity in one round: the queues together
      receive every scanned path exactly once and nothing else; queue j receives
      exactly the mails of the domains at places j modulo p, and the places of
      the known domains do not change. */
  lemma RoundDispatches(m: Master, mails: seq<Mail>, home: string -> string)
    requires Settled(m) && Homes(mails, home)
    ensures var (m', sent) := Round(m, mails);
            && Settled(m') && |m'.procs| == |m.procs| && Names(m.groups) <= Names(m'.groups)
            && Total(sent) == multiset(PathsOf(mails))
            && forall j :: 0 <= j < |m.procs| ==> sent[j] == Share(AddAll(m.groups, mails), |m.procs|, j)
  {
    var groups := AddAll(m.groups, mails);
    SettledIsAtHome(m, home);
    Grouping(m.groups, mails, home);
    WholeSend(m.procs, Names(m.groups), groups);
    EmptiedHasNothing(groups);
  }

  lemma {:induction false} ShareHas(groups: seq<Group>, p: nat, i: nat, x: string)
    requires p > 0 && i < |groups| && x in groups[i].paths
    ensures x in Share(groups, p, i % p)
  {
    if i >= |groups| - 1 {
    } else {
      ShareHas(groups[..|groups| - 1], p, i, x);
    }
  }

  /** In its queue a domain's mails stand, in their own order, right behind those of
      the domains before it. */
  lemma {:induction false} ShareIsInOrder(groups: seq<Group>, p: nat, i: nat)
    requires p > 0 && i < |groups|
    ensures Share(groups[..i], p, i % p) + groups[i].paths <= Share(groups, p, i % p)
  {
    var front := groups[..|groups| - 1];
    if i < |front| {
      ShareIsInOrder(front, p, i);
      assert front[..i] == groups[..i];
    } else {
    }
  }

  /** After any rounds the master is settled. */
  lemma {:induction false} RoundsAreSettled(p: nat, batches: seq<seq<Mail>>, home: string -> string)
    requires p > 0 && forall b :: 0 <= b < |batches| ==> Homes(batches[b], home)
    ensures Settled(Rounds(p, batches))
  {
    if batches == [] {
      EmptyIsRoundRobin(p);
    } else {
      RoundsAreSettled(p, batches[..|batches| - 1], home);
      RoundDispatches(Rounds(p, batches[..|batches| - 1]), batches[|batches| - 1], home);
    }
  }

  lemma HomeIsPlace(groups: seq<Group>, names: seq<string>, home: string -> string, i: nat, x: string)
    requires AtHome(groups, home) && names <= Names(groups) && i < |names| && home(x) == names[i]
    requires x in Content(groups)
    ensures x in groups[i].paths
  {
    ContentHas(groups, x);
    var k :| 0 <= k < |groups| && x in groups[k].paths;
    assert Names(groups)[k] == Names(groups)[i];
  }

  lemma {:induction false} RoundKeepsQueue(m: Master, later: seq<Mail>, home: string -> string, i: nat, x: string)
    requires Settled(m) && Homes(later, home) && x in PathsOf(later)
    requires i < |AddAll(m.groups, later)| && home(x) == AddAll(m.groups, later)[i].domain
    ensures |Round(m, later).1| == |m.procs| && x in Round(m, later).1[i % |m.procs|]
  {
    var groups := AddAll(m.groups, later);
    RoundDispatches(m, later, home);
    SettledIsAtHome(m, home);
    Grouping(m.groups, later, home);
    HomeIsPlace(groups, Names(groups), home, i, x);
    ShareHas(groups, |m.procs|, i, x);
  }

  /** Over all rounds, the one in which it is first seen included, the mails of the
      i-th domain go to queue i mod p. */
  lemma {:induction false} DomainKeepsItsQueue(
      p: nat, batches: seq<seq<Mail>>, later: seq<Mail>, home: string -> string, i: nat, x: string)
    requires p > 0 && Homes(later, home) && forall b :: 0 <= b < |batches| ==> Homes(batches[b], home)
    requires var known := Round(Rounds(p, batches), later).0.groups;
             i < |known| && home(x) == known[i].domain
    requires x in PathsOf(later)
    ensures x in Round(Rounds(p, batches), later).1[i % p]
  {
    var m := Rounds(p, batches);
    var groups := AddAll(m.groups, later);
    RoundsAreSettled(p, batches, home);
    assert Names(Emptied(groups))[i] == Names(groups)[i];
    RoundKeepsQueue(m, later, home, i, x);
  }
}
