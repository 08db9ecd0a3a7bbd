/** The master's tables and loops: the worker processes with their domains, the
    domains with their mails, and one round of scan and dispatch. */
module Scheduler {
  import opened Text
  import opened Router
  import opened Dispatch
  import MailName
  import StringUtils

  const MAX_MAIL_DOMAIN_NUM := 50
  const MAX_PROC_DOMAINS := 60
  const MAX_MAILS := 100

  // Processes.

  class MailProcess {
    /** domains, domains_count */
    var domains: seq<string>

    constructor ()
      ensures domains == []
    {
      domains := [];
    }
  }

  lemma {:induction false} HolderIs(procs: seq<seq<string>>, name: string, j: nat)
    requires j < |procs| && name in procs[j] && forall i :: 0 <= i < j ==> name !in procs[i]
    ensures Holder(procs, name) == Some(j)
  {
    if j == 0 {
    } else {
      assert forall i :: 0 <= i < j - 1 ==> procs[1..][i] == procs[i + 1];
      HolderIs(procs[1..], name, j - 1);
    }
  }

  lemma LeastIs(procs: seq<seq<string>>, l: nat)
    requires IsLeastLoaded(procs, l)
    ensures procs != [] && Least(procs) == l
  {
    var k := Least(procs);
    assert |procs[k]| <= |procs[l]| && |procs[l]| <= |procs[k]|;
  }

  class MailProcs {
    const procs: array<MailProcess>
    ghost const Repr: set<object>

    ghost predicate Valid()
      reads this, procs, Repr
    {
      && procs.Length > 0 && procs !in Repr
      && (forall i :: 0 <= i < procs.Length ==> procs[i] in Repr)
      && (forall i, j :: 0 <= i < j < procs.Length ==> procs[i] != procs[j])
    }

    ghost function Tables(): (t: seq<seq<string>>)
      requires Valid()
      reads this, procs, Repr
      ensures |t| == procs.Length && forall i :: 0 <= i < |t| ==> t[i] == procs[i].domains
    {
      seq(procs.Length, i requires 0 <= i < procs.Length && Valid() reads this, procs, Repr => procs[i].domains)
    }

    /** The start of master_process_worker_start: no process has a domain. */
    constructor (n: nat)
      requires n > 0
      ensures Valid() && fresh(Repr) && fresh(procs) && procs.Length == n && Tables() == Empty(n)
    {
      var first := new MailProcess();
      var a := new MailProcess[n](_ => first);
      ghost var r: set<object> := {first};
      for i := 1 to n
        invariant fresh(a) && fresh(r) && a !in r && a.Length == n
        invariant forall k :: 0 <= k < i ==> a[k] in r && a[k].domains == []
        invariant forall k, l :: 0 <= k < l < i ==> a[k] != a[l]
      {
        var p := new MailProcess();
        assert forall k :: 0 <= k < i ==> a[k] != p;
        a[i] := p;
        r := r + {p};
      }
      procs := a;
      Repr := r;
    }

    /** The search for a process that handles the domain. */
    method FindHolder(name: string) returns (found: bool, j: nat)
      requires Valid()
      ensures found ==> Holder(Tables(), name) == Some(j)
      ensures !found ==> Holder(Tables(), name) == None
    {
      j := 0;
      while j < procs.Length
        invariant 0 <= j <= procs.Length
        invariant forall k :: 0 <= k < j ==> name !in procs[k].domains
      {
        var i := 0;
        while i < |procs[j].domains|
          invariant 0 <= i <= |procs[j].domains|
          invariant name !in procs[j].domains[..i]
        {
          if procs[j].domains[i] == name {
            HolderIs(Tables(), name, j);
            return true, j;
          }
          i := i + 1;
        }
        assert procs[j].domains[..i] == procs[j].domains;
        j := j + 1;
      }
      found := false;
    }

    /** The search for the process with the fewest domains. */
    method FindLeast() returns (l: nat)
      requires Valid()
      ensures l == Least(Tables()) && l < procs.Length
    {
      l := 0;
      for j := 1 to procs.Length
        invariant l < j
        invariant forall k :: 0 <= k < j ==> |procs[l].domains| <= |procs[k].domains|
        invariant forall k :: 0 <= k < l ==> |procs[l].domains| < |procs[k].domains|
      {
        if |procs[l].domains| > |procs[j].domains| {
          l := j;
        }
      }
      LeastIs(Tables(), l);
    }

    method AddDomain(l: nat, name: string)
      requires Valid() && l < procs.Length && |procs[l].domains| < MAX_PROC_DOMAINS
      modifies Repr
      ensures Valid() && Tables() == old(Tables())[l := old(Tables())[l] + [name]]
    {
      ghost var before := Tables();
      procs[l].domains := procs[l].domains + [name];
      assert Tables() == before[l := before[l] + [name]];
    }

    /** get_mail_proc_idx. There must be a place left for a new domain. */
    method GetMailProcIdx(name: string) returns (idx: nat)
      requires Valid() && (Holder(Tables(), name).Some? || |Tables()[Least(Tables())]| < MAX_PROC_DOMAINS)
      modifies Repr
      ensures Valid() && (Tables(), idx) == Assign(old(Tables()), name)
    {
      var found, j := FindHolder(name);
      if found {
        return j;
      }
      var l := FindLeast();
      AddDomain(l, name);
      return l;
    }
  }

  // Mails.

  class DomainMails {
    var domain: string
    /** mails_paths, mails_count */
    var paths: seq<string>

    constructor ()
      ensures domain == "" && paths == []
    {
      domain, paths := "", [];
    }
  }

  /** A name that readdir yields in a user's directory of new mails. */
  datatype DirEntry = DirEntry(newDir: string, name: string)

  predicate IsDots(name: string) {
    name == "." || name == ".."
  }

  /** The mails among the first n entries, under the domain that `key` gives
      their file names. */
  ghost function Scanned(entries: seq<DirEntry>, n: nat, key: string -> string): seq<Mail>
    requires n <= |entries|
  {
    if n == 0 then []
    else if IsDots(entries[n - 1].name) then Scanned(entries, n - 1, key)
    else Scanned(entries, n - 1, key) + [MailOf(entries[n - 1], key)]
  }

  /** The paths of the files: every directory with every name in it but the dots. */
  ghost function FilesIn(entries: seq<DirEntry>): set<string> {
    set e | e in entries && e.name != "." && e.name != ".." :: e.newDir + e.name
  }

  /** A file with that path whose name has that domain. */
  ghost predicate IsFileOf(entries: seq<DirEntry>, domain: string, path: string) {
    exists k :: 0 <= k < |entries| && entries[k].name != "." && entries[k].name != ".." &&
      path == entries[k].newDir + entries[k].name && MailName.KeyOf(entries[k].name) == Some(domain)
  }

  /** The path lies among the mails of the domain. */
  ghost predicate Lies(groups: seq<Group>, domain: string, path: string) {
    exists i :: 0 <= i < |groups| && groups[i].domain == domain && path in groups[i].paths
  }

  ghost function MailOf(e: DirEntry, key: string -> string): Mail {
    Mail(e.newDir + e.name, key(e.name))
  }

  /** The client can take a domain from every file name, and `key` is it. */
  ghost predicate WellNamed(entries: seq<DirEntry>, key: string -> string) {
    forall i {:trigger IsWellNamed(entries[i], key)} :: 0 <= i < |entries| ==> IsWellNamed(entries[i], key)
  }

  ghost predicate IsWellNamed(e: DirEntry, key: string -> string) {
    IsDots(e.name) || MailName.KeyOf(e.name) == Some(key(e.name))
  }

  ghost predicate Fits(groups: seq<Group>) {
    |groups| <= 2 * MAX_MAIL_DOMAIN_NUM && forall i :: 0 <= i < |groups| ==> |groups[i].paths| <= MAX_MAILS
  }

  class MailTable {
    const slots: array<DomainMails>
    var count: nat
    ghost const Repr: set<object>

    ghost predicate Valid()
      reads this, slots, Repr
    {
      && slots !in Repr && this !in Repr && slots.Length == 2 * MAX_MAIL_DOMAIN_NUM && count <= slots.Length
      && (forall i :: 0 <= i < slots.Length ==> slots[i] in Repr)
      && (forall i, j :: 0 <= i < j < slots.Length ==> slots[i] != slots[j])
    }

    ghost function Groups(): (g: seq<Group>)
      requires Valid()
      reads this, slots, Repr
      ensures |g| == count && forall i :: 0 <= i < |g| ==> g[i] == Group(slots[i].domain, slots[i].paths)
    {
      seq(count, i requires 0 <= i < count && Valid() reads this, slots, Repr => Group(slots[i].domain, slots[i].paths))
    }

    constructor ()
      ensures Valid() && fresh(Repr) && fresh(slots) && Groups() == []
    {
      var first := new DomainMails();
      var n := 2 * MAX_MAIL_DOMAIN_NUM;
      var a := new DomainMails[n](_ => first);
      ghost var r: set<object> := {first};
      for i := 1 to n
        invariant fresh(a) && fresh(r) && a !in r && a.Length == n
        invariant forall k :: 0 <= k < i ==> a[k] in r
        invariant forall k, l :: 0 <= k < l < i ==> a[k] != a[l]
      {
        var p := new DomainMails();
        assert forall k :: 0 <= k < i ==> a[k] != p;
        a[i] := p;
        r := r + {p};
      }
      slots := a;
      count := 0;
      Repr := r;
    }

    /** The loop that looks for the domain; the last match is kept. */
    method FindDomain(domain: string) returns (found: int)
      requires Valid()
      ensures Find(Groups(), domain) == if found < 0 then None else Some(found)
    {
      found := -1;
      for i := 0 to count
        invariant found < i
        invariant Find(Groups()[..i], domain) == if found < 0 then None else Some(found)
      {
        assert Groups()[..i + 1][..i] == Groups()[..i];
        if slots[i].domain == domain {
          found := i;
        }
      }
      assert Groups()[..count] == Groups();
    }

    /** The loop that looks for the mail among those of its domain. */
    method IsQueued(found: nat, path: string) returns (known: bool)
      requires Valid() && found < count
      ensures known <==> path in slots[found].paths
    {
      known := false;
      for k := 0 to |slots[found].paths|
        invariant known <==> path in slots[found].paths[..k]
      {
        if slots[found].paths[k] == path {
          known := true;
        }
      }
      assert slots[found].paths[..|slots[found].paths|] == slots[found].paths;
    }

    /** A domain not seen before gets the next slot. */
    method AddGroup(path: string, domain: string)
      requires Valid() && count < slots.Length && Fits(Groups() + [Group(domain, [path])])
      modifies this`count, Repr
      ensures Valid() && Groups() == old(Groups()) + [Group(domain, [path])]
    {
      ghost var before := Groups();
      var slot := slots[count];
      assert forall i :: 0 <= i < count ==> slots[i] != slot;
      slot.domain := domain;
      slot.paths := [];
      slot.paths := slot.paths + [path];
      assert slot.paths == [path];
      count := count + 1;
      assert forall i :: 0 <= i < count - 1 ==> Groups()[i] == before[i];
    }

    method AddPath(found: nat, path: string)
      requires Valid() && found < count
      requires Fits(Groups()[found := WithPath(Groups()[found], path)])
      modifies Repr
      ensures Valid() && Groups() == old(Groups())[found := WithPath(old(Groups())[found], path)]
    {
      slots[found].paths := slots[found].paths + [path];
    }

    /** The inner part of get_domains_mails: one mail joins its domain. */
    method AddMail(path: string, domain: string)
      requires Valid() && Fits(Dispatch.AddMail(Groups(), Mail(path, domain)))
      modifies this`count, Repr
      ensures Valid() && Groups() == Dispatch.AddMail(old(Groups()), Mail(path, domain))
    {
      var found := FindDomain(domain);
      if found < 0 {
        AddGroup(path, domain);
      } else {
        var known := IsQueued(found, path);
        if !known {
          AddPath(found, path);
        }
      }
    }

    /** get_domains_mails: every mail of every user joins its domain. */
    method GetDomainsMails(entries: seq<DirEntry>, ghost key: string -> string)
      requires Valid() && WellNamed(entries, key) && Fits(AddAll(Groups(), Scanned(entries, |entries|, key)))
      modifies this`count, Repr
      ensures Valid() && Groups() == AddAll(old(Groups()), Scanned(entries, |entries|, key))
      ensures forall domain, path :: Lies(Groups(), domain, path) <==>
                Lies(old(Groups()), domain, path) || IsFileOf(entries, domain, path)
    {
      ghost var start := Groups();
      var i := 0;
      while i < |entries|
        invariant 0 <= i <= |entries|
        invariant Valid()
        invariant Groups() == AddAll(start, Scanned(entries, i, key))
      {
        ScanEntry(entries, i, start, key);
        i := i + 1;
      }
      assert entries[..|entries|] == entries;
      forall domain, path
        ensures Lies(Groups(), domain, path) <==> Lies(start, domain, path) || IsFileOf(entries, domain, path)
      {
        ScanLies(start, entries, |entries|, key, domain, path);
      }
    }

    method ScanEntry(entries: seq<DirEntry>, i: nat, ghost start: seq<Group>, ghost key: string -> string)
      requires Valid() && WellNamed(entries, key) && Fits(AddAll(start, Scanned(entries, |entries|, key)))
      requires i < |entries| && Groups() == AddAll(start, Scanned(entries, i, key))
      modifies this`count, Repr
      ensures Valid() && Groups() == AddAll(start, Scanned(entries, i + 1, key))
    {
      assert IsWellNamed(entries[i], key);
      if !IsDots(entries[i].name) {
        ScanFits(start, entries, i, key);
        ScanMail(entries[i], start, Scanned(entries, i, key), key);
      }
    }

    method ScanMail(entry: DirEntry, ghost start: seq<Group>, ghost mails: seq<Mail>, ghost key: string -> string)
      requires Valid() && Groups() == AddAll(start, mails) && MailName.KeyOf(entry.name) == Some(key(entry.name))
      requires Fits(AddAll(start, mails + [MailOf(entry, key)]))
      modifies this`count, Repr
      ensures Valid() && Groups() == AddAll(start, mails + [MailOf(entry, key)])
    {
      var cursor := new Text.Strtok("");
      var domain := MailName.GetKey(entry.name, cursor);
      AddOne(start, mails, MailOf(entry, key));
      AddMail(entry.newDir + entry.name, domain.value);
    }
  }

  lemma AddOne(start: seq<Group>, mails: seq<Mail>, m: Mail)
    ensures AddAll(start, mails + [m]) == Dispatch.AddMail(AddAll(start, mails), m)
  {
    assert (mails + [m])[..|mails|] == mails;
  }

  /** Groups only grow during a scan, so what fits at the end fits all along. */
  ghost predicate Within(a: seq<Group>, b: seq<Group>) {
    |a| <= |b| && forall i :: 0 <= i < |a| ==> |a[i].paths| <= |b[i].paths|
  }

  lemma AddMailGrows(groups: seq<Group>, m: Mail)
    ensures Within(groups, Dispatch.AddMail(groups, m))
  {
  }

  lemma AddOneGrows(start: seq<Group>, mails: seq<Mail>, m: Mail)
    ensures Within(AddAll(start, mails), AddAll(start, mails + [m]))
  {
    AddOne(start, mails, m);
    AddMailGrows(AddAll(start, mails), m);
  }

  lemma WithinTransitive(a: seq<Group>, b: seq<Group>, c: seq<Group>)
    requires Within(a, b) && Within(b, c)
    ensures Within(a, c)
  {
  }

  lemma {:induction false} ScanGrows(start: seq<Group>, entries: seq<DirEntry>, n: nat, m: nat, key: string -> string)
    requires n <= m <= |entries|
    ensures Within(AddAll(start, Scanned(entries, n, key)), AddAll(start, Scanned(entries, m, key)))
  {
    if n >= m {
    } else {
      ScanGrows(start, entries, n, m - 1, key);
      if !IsDots(entries[m - 1].name) {
        AddOneGrows(start, Scanned(entries, m - 1, key), MailOf(entries[m - 1], key));
        WithinTransitive(AddAll(start, Scanned(entries, n, key)), AddAll(start, Scanned(entries, m - 1, key)),
                         AddAll(start, Scanned(entries, m, key)));
      }
    }
  }

  lemma FitsWithin(a: seq<Group>, b: seq<Group>)
    requires Within(a, b) && Fits(b)
    ensures Fits(a)
  {
  }

  lemma ScanFits(start: seq<Group>, entries: seq<DirEntry>, i: nat, key: string -> string)
    requires i < |entries| && !IsDots(entries[i].name) && Fits(AddAll(start, Scanned(entries, |entries|, key)))
    ensures Fits(AddAll(start, Scanned(entries, i, key) + [MailOf(entries[i], key)]))
  {
    ScanGrows(start, entries, i + 1, |entries|, key);
    FitsWithin(AddAll(start, Scanned(entries, i + 1, key)), AddAll(start, Scanned(entries, |entries|, key)));
  }

  // What a scan yields.

  /** A scan yields the mails in the order of their files: what one entry adds, and
      where. */
  lemma {:induction false} ScannedInserts(a: seq<DirEntry>, e: DirEntry, b: seq<DirEntry>, key: string -> string)
    ensures var all := a + [e] + b;
            Scanned(all, |all|, key) ==
              Scanned(a, |a|, key) +
              (if e.name == "." || e.name == ".." then [] else [Mail(e.newDir + e.name, key(e.name))]) +
              Scanned(b, |b|, key)
  {
    ScannedConcat(a + [e], b, |b|, key);
    ScannedConcat(a, [e], 1, key);
    assert a + [e] + b == (a + [e]) + b;
    assert Scanned([e], 1, key) == if IsDots(e.name) then [] else [MailOf(e, key)] by {
      assert Scanned([e], 0, key) == [];
    }
  }

  lemma {:induction false} ScannedConcat(a: seq<DirEntry>, b: seq<DirEntry>, n: nat, key: string -> string)
    requires n <= |b|
    ensures Scanned(a + b, |a| + n, key) == Scanned(a, |a|, key) + Scanned(b, n, key)
  {
    if n == 0 {
      ScannedPrefix(a, b, |a|, key);
    } else {
      ScannedConcat(a, b, n - 1, key);
      assert (a + b)[|a| + n - 1] == b[n - 1];
    }
  }

  lemma {:induction false} ScannedPrefix(a: seq<DirEntry>, b: seq<DirEntry>, n: nat, key: string -> string)
    requires n <= |a|
    ensures Scanned(a + b, n, key) == Scanned(a, n, key)
  {
    if n == 0 {
    } else {
      ScannedPrefix(a, b, n - 1, key);
      assert (a + b)[n - 1] == a[n - 1];
    }
  }

  /** The paths scanned are those of the files. */
  lemma {:induction false} ScannedFiles(entries: seq<DirEntry>, n: nat, key: string -> string)
    requires n <= |entries|
    ensures PathsOf(Scanned(entries, n, key)) == FilesIn(entries[..n])
  {
    if n == 0 {
    } else {
      ScannedFiles(entries, n - 1, key);
      var e := entries[n - 1];
      assert entries[..n] == entries[..n - 1] + [e];
      var more := Scanned(entries, n - 1, key) + [MailOf(e, key)];
      PathsGrow(more);
      assert more[..|more| - 1] == Scanned(entries, n - 1, key);
    }
  }

  lemma AddMailLies(groups: seq<Group>, m: Mail, domain: string, path: string)
    ensures Lies(AddMail(groups, m), domain, path) <==> Lies(groups, domain, path) || m == Mail(path, domain)
  {
    var after, i := AddMail(groups, m), Find(groups, m.domain);
    if Lies(groups, domain, path) {
      var k :| 0 <= k < |groups| && groups[k].domain == domain && path in groups[k].paths;
      assert after[k].domain == domain && path in after[k].paths;
    }
    if m == Mail(path, domain) {
      var k := if i.None? then |groups| else i.value;
      assert after[k].domain == domain && path in after[k].paths;
    }
  }

  lemma OneMoreLies(start: seq<Group>, mails: seq<Mail>, m: Mail, domain: string, path: string)
    ensures Lies(AddAll(start, mails + [m]), domain, path) <==>
              Lies(AddAll(start, mails), domain, path) || m == Mail(path, domain)
  {
    AddOne(start, mails, m);
    AddMailLies(AddAll(start, mails), m, domain, path);
  }

  /** After a scan a path lies with a domain exactly when it did before or is that of
      a file with this domain in its name. */
  lemma {:induction false} ScanLies(
      start: seq<Group>, entries: seq<DirEntry>, n: nat, key: string -> string, domain: string, path: string)
    requires n <= |entries| && WellNamed(entries, key)
    ensures Lies(AddAll(start, Scanned(entries, n, key)), domain, path) <==>
              Lies(start, domain, path) || IsFileOf(entries[..n], domain, path)
  {
    if n == 0 {
    } else {
      var e := entries[n - 1];
      assert IsWellNamed(e, key);
      ScanLies(start, entries, n - 1, key, domain, path);
      OneMoreFile(entries[..n - 1], e, domain, path);
      assert entries[..n] == entries[..n - 1] + [e];
      if !IsDots(e.name) { OneMoreLies(start, Scanned(entries, n - 1, key), MailOf(e, key), domain, path); }
    }
  }

  lemma OneMoreFile(entries: seq<DirEntry>, e: DirEntry, domain: string, path: string)
    ensures IsFileOf(entries + [e], domain, path) <==>
              IsFileOf(entries, domain, path) ||
              (e.name != "." && e.name != ".." && path == e.newDir + e.name && MailName.KeyOf(e.name) == Some(domain))
  {
    if IsFileOf(entries, domain, path) {
      var k :| 0 <= k < |entries| && entries[k].name != "." && entries[k].name != ".." &&
        path == entries[k].newDir + entries[k].name && MailName.KeyOf(entries[k].name) == Some(domain);
      assert (entries + [e])[k] == entries[k];
    }
    assert (entries + [e])[|entries|] == e;
  }

  // Rounds.

  /** While at most 60 domains per process are known, there is a place for the
      next one. */
  lemma RoomLeft(procs: seq<seq<string>>, seen: seq<string>, groups: seq<Group>, n: nat)
    requires RoundRobin(procs, seen) && Distinct(Names(groups)) && seen <= Names(groups) && n < |groups|
    requires |groups| <= MAX_PROC_DOMAINS * |procs|
    ensures var before := Send(procs, groups[..n]).0;
            |before[Least(before)]| < MAX_PROC_DOMAINS
            || Holder(before, groups[n].domain).Some?
  {
    var before := Send(procs, groups[..n]).0;
    SendIsAffine(procs, seen, groups, n);
    var known := Known(seen, Names(groups), n);
    if n < |seen| {
      AssignSeen(before, known, n);
      SeenIsHeld(before, known, n);
    } else {
      var p := |procs|;
      LeastIsNext(before, known);
      LoadIs(p, n, n % p);
      DivMod(n, p);
      if n / p >= MAX_PROC_DOMAINS { MulMonotone(MAX_PROC_DOMAINS, n / p, p); }
    }
  }

  /** Queues with more put into each. */
  function Appended(a: seq<seq<string>>, b: seq<seq<string>>): (r: seq<seq<string>>)
    requires |a| == |b|
    ensures |r| == |a| && forall j :: 0 <= j < |a| ==> r[j] == a[j] + b[j]
  {
    seq(|a|, j requires 0 <= j < |a| => a[j] + b[j])
  }

  lemma AppendedStep(a: seq<seq<string>>, b: seq<seq<string>>, j: nat, paths: seq<string>)
    requires |a| == |b| && j < |a|
    ensures Appended(a, b)[j := Appended(a, b)[j] + paths] == Appended(a, b[j := b[j] + paths])
  {
    assert (a[j] + b[j]) + paths == a[j] + (b[j] + paths);
  }

  lemma AppendedNothing(a: seq<seq<string>>)
    ensures Appended(a, Empty(|a|)) == a
  {
    assert forall j :: 0 <= j < |a| ==> a[j] + Empty(|a|)[j] == a[j];
  }

  lemma SendStep(start: seq<seq<string>>, groups: seq<Group>, i: nat)
    requires start != [] && i < |groups|
    ensures var s := Send(start, groups[..i]);
            var a := Assign(s.0, groups[i].domain);
            a.1 < |start| && Send(start, groups[..i + 1]) == (a.0, s.1[a.1 := s.1[a.1] + groups[i].paths])
  {
    assert groups[..i + 1][..i] == groups[..i];
  }

  /** What one turn of the loop over the domains starts from and leads to. */
  lemma SendReady(start: seq<seq<string>>, seen: seq<string>, groups: seq<Group>, i: nat, before: seq<seq<string>>)
    requires RoundRobin(start, seen) && Distinct(Names(groups)) && seen <= Names(groups) && i < |groups|
    requires |groups| <= MAX_PROC_DOMAINS * |start| && |before| == |start|
    ensures var t := Send(start, groups[..i]).0;
            var a := Assign(t, groups[i].domain);
            var queues := Appended(before, Send(start, groups[..i]).1);
            && (Holder(t, groups[i].domain).Some? || |t[Least(t)]| < MAX_PROC_DOMAINS)
            && a.0 == Send(start, groups[..i + 1]).0 && a.1 < |start|
            && queues[a.1 := queues[a.1] + groups[i].paths] == Appended(before, Send(start, groups[..i + 1]).1)
  {
    RoomLeft(start, seen, groups, i);
    SendStep(start, groups, i);
    var s := Send(start, groups[..i]);
    AppendedStep(before, s.1, Assign(s.0, groups[i].domain).1, groups[i].paths);
  }

  lemma RoundReady(m: Master, mails: seq<Mail>, home: string -> string)
    requires Settled(m) && Homes(mails, home)
    ensures var groups := AddAll(m.groups, mails);
            && RoundRobin(m.procs, Names(m.groups)) && Distinct(Names(groups)) && Names(m.groups) <= Names(groups)
            && Round(m, mails) == (Master(Send(m.procs, groups).0, Emptied(groups)), Send(m.procs, groups).1)
            && Settled(Round(m, mails).0)
  {
    SettledIsAtHome(m, home);
    Grouping(m.groups, mails, home);
    RoundDispatches(m, mails, home);
  }

  lemma ScanReady(m: Master, entries: seq<DirEntry>, key: string -> string, home: string -> string)
    requires Settled(m) && Homes(Scanned(entries, |entries|, key), home)
    ensures var mails := Scanned(entries, |entries|, key);
            var groups := AddAll(m.groups, mails);
            && RoundRobin(m.procs, Names(m.groups)) && Distinct(Names(groups)) && Names(m.groups) <= Names(groups)
            && Round(m, mails) == (Master(Send(m.procs, groups).0, Emptied(groups)), Send(m.procs, groups).1)
            && Settled(Round(m, mails).0) && Total(Round(m, mails).1) == multiset(FilesIn(entries))
  {
    var mails := Scanned(entries, |entries|, key);
    RoundReady(m, mails, home);
    RoundDispatches(m, mails, home);
    ScannedFiles(entries, |entries|, key);
    assert entries[..|entries|] == entries;
  }

  class MasterProcess {
    const procs: MailProcs
    const table: MailTable
    const queues: array<seq<string>>

    /** Tables, mails and queues lie apart. */
    ghost predicate Valid()
      reads this, procs, procs.procs, procs.Repr, table, table.slots, table.Repr
    {
      && procs.Valid() && table.Valid() && queues.Length == procs.procs.Length
      && procs.Repr !! table.Repr && queues !in procs.Repr && queues !in table.Repr
      && table !in procs.Repr && table.slots !in procs.Repr && procs.procs !in table.Repr
    }

    ghost function View(): Master
      requires procs.Valid() && table.Valid()
      reads this, procs, procs.procs, procs.Repr, table, table.slots, table.Repr
    {
      Master(procs.Tables(), table.Groups())
    }

    constructor (n: nat)
      requires n > 0
      ensures Valid() && View() == Rounds(n, []) && queues[..] == Empty(n)
    {
      procs := new MailProcs(n);
      table := new MailTable();
      queues := new seq<string>[n](_ => []);
    }

    /** The loop that sends a domain's mails to one queue. */
    method SendPaths(idx: nat, paths: seq<string>)
      requires idx < queues.Length
      modifies queues
      ensures queues[..] == old(queues[..])[idx := old(queues[idx]) + paths]
    {
      ghost var before := queues[..];
      assert before[idx] + paths[..0] == before[idx];
      for j := 0 to |paths|
        invariant queues[..] == before[idx := before[idx] + paths[..j]]
      {
        assert paths[..j + 1] == paths[..j] + [paths[j]];
        assert before[idx] + paths[..j] + [paths[j]] == before[idx] + paths[..j + 1];
        queues[idx] := queues[idx] + [paths[j]];
      }
      assert paths[..|paths|] == paths;
    }

    /** One domain's mails go to the queue of its process. */
    method SendGroup(i: nat)
      requires Valid() && i < table.count
      requires Holder(procs.Tables(), table.slots[i].domain).Some? ||
               |procs.Tables()[Least(procs.Tables())]| < MAX_PROC_DOMAINS
      modifies table.Repr, procs.Repr, queues
      ensures Valid() && table.count == old(table.count)
      ensures var a := Assign(old(procs.Tables()), old(table.slots[i].domain));
              && procs.Tables() == a.0 && a.1 < queues.Length
              && queues[..] == old(queues[..])[a.1 := old(queues[a.1]) + old(table.slots[i].paths)]
      ensures table.Groups()[i] == Group(old(table.Groups())[i].domain, [])
      ensures forall k :: 0 <= k < table.count && k != i ==> table.Groups()[k] == old(table.Groups())[k]
    {
      var idx := procs.GetMailProcIdx(table.slots[i].domain);
      SendPaths(idx, table.slots[i].paths);
      table.slots[i].paths := [];
    }

    /** One turn of the endless loop of master_process_worker_start. */
    method DispatchRound(entries: seq<DirEntry>, ghost key: string -> string, ghost home: string -> string)
      requires Valid() && Settled(View()) && WellNamed(entries, key) && Homes(Scanned(entries, |entries|, key), home)
      requires var groups := AddAll(table.Groups(), Scanned(entries, |entries|, key));
               Fits(groups) && |groups| <= MAX_PROC_DOMAINS * procs.procs.Length
      modifies table`count, table.Repr, procs.Repr, queues
      ensures Valid() && Settled(View())
      ensures var r := Round(old(View()), Scanned(entries, |entries|, key));
              View() == r.0 && queues[..] == Appended(old(queues[..]), r.1) && Total(r.1) == multiset(FilesIn(entries))
    {
      ghost var start := View();
      ghost var mails := Scanned(entries, |entries|, key);
      ghost var groups := AddAll(start.groups, mails);
      table.GetDomainsMails(entries, key);
      ScanReady(start, entries, key, home);
      SendAll(start.procs, Names(start.groups), groups);
      assert table.Groups() == Emptied(groups);
    }

    /** The loop over the domains. */
    method SendAll(ghost start: seq<seq<string>>, ghost seen: seq<string>, ghost groups: seq<Group>)
      requires Valid() && table.Groups() == groups && procs.Tables() == start
      requires RoundRobin(start, seen) && Distinct(Names(groups)) && seen <= Names(groups)
      requires |groups| <= MAX_PROC_DOMAINS * |start|
      modifies table.Repr, procs.Repr, queues
      ensures Valid() && table.count == |groups|
      ensures forall k :: 0 <= k < |groups| ==> table.Groups()[k] == Group(groups[k].domain, [])
      ensures procs.Tables() == Send(start, groups).0
      ensures queues[..] == Appended(old(queues[..]), Send(start, groups).1)
    {
      var i := 0;
      ghost var before := queues[..];
      assert groups[..0] == [];
      AppendedNothing(before);
      while i < table.count
        invariant Valid() && 0 <= i <= table.count == |groups|
        invariant forall k :: 0 <= k < i ==> table.Groups()[k] == Group(groups[k].domain, [])
        invariant forall k :: i <= k < |groups| ==> table.Groups()[k] == groups[k]
        invariant procs.Tables() == Send(start, groups[..i]).0
        invariant queues[..] == Appended(before, Send(start, groups[..i]).1)
      {
        assert table.Groups()[i] == groups[i];
        SendReady(start, seen, groups, i, before);
        SendGroup(i);
        i := i + 1;
      }
      assert groups[..i] == groups;
    }
  }

  // A path has one domain.

  /** The name after the last slash. */
  function Base(path: string): string {
    if path == "" || path[|path| - 1] == '/' then "" else Base(path[..|path| - 1]) + [path[|path| - 1]]
  }

  lemma {:induction false} BaseOf(dir: string, name: string)
    requires dir != "" && dir[|dir| - 1] == '/' && '/' !in name
    ensures Base(dir + name) == name
  {
    if name == "" {
      assert dir + name == dir;
    } else {
      var front := name[..|name| - 1];
      assert (dir + name)[..|dir + name| - 1] == dir + front;
      BaseOf(dir, front);
      assert name == front + [name[|name| - 1]];
    }
  }

  /** A directory ends in a slash and its file names hold none. */
  ghost predicate IsFile(e: DirEntry) {
    e.newDir != "" && e.newDir[|e.newDir| - 1] == '/' && '/' !in e.name
  }

  /** So the scan always finds a path under the same domain. */
  lemma {:induction false} ScannedHome(entries: seq<DirEntry>, n: nat, key: string -> string)
    requires n <= |entries| && forall i :: 0 <= i < |entries| ==> IsFile(entries[i])
    ensures Homes(Scanned(entries, n, key), path => key(Base(path)))
  {
    if n == 0 {
    } else {
      ScannedHome(entries, n - 1, key);
      BaseOf(entries[n - 1].newDir, entries[n - 1].name);
    }
  }
}
