/** The mail files as the client finds them: it reads a mail once and moves it
    from the directory of new mails to that of current ones. */
module Disks {
  import opened Text
  import opened StringUtils

  datatype Disk = Disk(files: map<string, string>, dirs: set<string>)

  /** The directory part of a path, with its slash. */
  function DirOf(path: string): string {
    if path == "" || path[|path| - 1] == '/' then path else DirOf(path[..|path| - 1])
  }

  function Renamed(path: string): string {
    Replace(path, "new", "cur")
  }

  /** rename moves a file that exists into a directory that exists. */
  function Take(disk: Disk, path: string): Disk {
    if path in disk.files && DirOf(Renamed(path)) in disk.dirs then
      disk.(files := (disk.files - {path})[Renamed(path) := disk.files[path]])
    else disk
  }

  /** Reading the mail takes its file away. */
  predicate MovesAway(disk: Disk, path: string) {
    DirOf(Renamed(path)) in disk.dirs && Renamed(path) != path
  }

  lemma {:induction false} DirOfFile(dir: string, name: string)
    requires dir != "" && dir[|dir| - 1] == '/' && '/' !in name
    ensures DirOf(dir + name) == dir
  {
    if name == "" {
      assert dir + name == dir;
    } else {
      var front := name[..|name| - 1];
      DirOfFile(dir, front);
      assert (dir + name)[..|dir + name| - 1] == dir + front;
      assert name[|name| - 1] in name;
    }
  }

  /** A mail in a directory of new mails is found under its name in the directory
      beside it, and no longer in its own, where "new" is not found earlier in
      the path and the other directory exists. */
  lemma TakeMoves(disk: Disk, dir: string, name: string)
    requires var path := dir + "new/" + name;
             path in disk.files && forall j :: 0 <= j < |dir| ==> !OccursAt(path, "new", j)
    requires '/' !in name && dir + "cur/" in disk.dirs
    ensures var path, moved := dir + "new/" + name, dir + "cur/" + name;
            && MovesAway(disk, path)
            && Take(disk, path).files == (disk.files - {path})[moved := disk.files[path]]
  {
    var path, moved := dir + "new/" + name, dir + "cur/" + name;
    RenameIff(dir, name);
    DirOfFile(dir + "cur/", name);
    assert moved[|dir|] == 'c' && path[|dir|] == 'n';
  }

  /** Without that other directory nothing moves: the mail is still there exactly
      then. */
  lemma StaysIff(disk: Disk, dir: string, name: string)
    requires var path := dir + "new/" + name;
             path in disk.files && forall j :: 0 <= j < |dir| ==> !OccursAt(path, "new", j)
    requires '/' !in name
    ensures var path := dir + "new/" + name;
            && (path in Take(disk, path).files <==> dir + "cur/" !in disk.dirs)
            && (dir + "cur/" !in disk.dirs ==> Take(disk, path) == disk)
  {
    if dir + "cur/" in disk.dirs {
      TakeMoves(disk, dir, name);
    } else {
      RenameIff(dir, name);
      DirOfFile(dir + "cur/", name);
    }
  }

  /** A mail has a sender and a recipient. */
  predicate IsMail(disk: Disk, path: string) {
    path in disk.files && |Tokens(disk.files[path], '\n')| >= 2
  }

  /** A queue as it is read, mail by mail: the lines of each of the first mails
      and the disk before, between and after them. */
  datatype Plan = Plan(paths: seq<string>, texts: seq<seq<string>>, disks: seq<Disk>)

  predicate IsStep(disk: Disk, path: string, text: seq<string>, after: Disk) {
    IsMail(disk, path) && text == Tokens(disk.files[path], '\n') && after == Take(disk, path)
  }

  predicate IsPlan(s: Plan) {
    && |s.texts| <= |s.paths| && |s.disks| == |s.texts| + 1
    && (forall j :: 0 <= j < |s.texts| ==> |s.texts[j]| >= 2)
    && forall j :: 0 <= j < |s.texts| ==> IsStep(s.disks[j], s.paths[j], s.texts[j], s.disks[j + 1])
  }

  /** Every mail can be read when its turn comes. */
  predicate IsWhole(s: Plan) {
    IsPlan(s) && |s.texts| == |s.paths|
  }

  lemma LinesOf(s: Plan, j: nat)
    requires IsPlan(s) && j < |s.texts|
    ensures forall i :: 0 <= i < |s.texts[j]| ==> s.texts[j][i] != "" && '\n' !in s.texts[j][i]
  {
    assert IsStep(s.disks[j], s.paths[j], s.texts[j], s.disks[j + 1]);
  }

  /** How far the first n mails of a queue can be read. */
  function PlanTo(paths: seq<string>, disk: Disk, n: nat): (s: Plan)
    requires n <= |paths|
    ensures IsPlan(s) && s.paths == paths && s.disks[0] == disk && |s.texts| <= n
    ensures |s.texts| < n ==> !IsMail(s.disks[|s.texts|], paths[|s.texts|])
  {
    if n == 0 then Plan(paths, [], [disk])
    else
      var s := PlanTo(paths, disk, n - 1);
      if |s.texts| == n - 1 && IsMail(s.disks[n - 1], paths[n - 1]) then
        Extended(s, Tokens(s.disks[n - 1].files[paths[n - 1]], '\n'))
      else s
  }

  function Extended(s: Plan, text: seq<string>): (e: Plan)
    requires IsPlan(s) && |s.texts| < |s.paths|
    requires IsStep(s.disks[|s.texts|], s.paths[|s.texts|], text, Take(s.disks[|s.texts|], s.paths[|s.texts|]))
    ensures IsPlan(e)
  {
    var n := |s.texts|;
    var e := Plan(s.paths, s.texts + [text], s.disks + [Take(s.disks[n], s.paths[n])]);
    assert forall j :: 0 <= j <= n ==> e.disks[j] == s.disks[j];
    e
  }

  function PlanOf(paths: seq<string>, disk: Disk): Plan {
    PlanTo(paths, disk, |paths|)
  }

  /** All mails are there and are taken away when read, none in the place of
      another. */
  predicate AreNew(paths: seq<string>, disk: Disk) {
    && (forall i :: 0 <= i < |paths| ==> IsMail(disk, paths[i]) && MovesAway(disk, paths[i]))
    && (forall i, j :: 0 <= i < |paths| && 0 <= j < |paths| ==> Renamed(paths[i]) != paths[j])
  }

  /** The mail is among the first n. */
  predicate IsAmong(paths: seq<string>, n: nat, path: string)
    requires n <= |paths|
  {
    n > 0 && (paths[n - 1] == path || IsAmong(paths, n - 1, path))
  }

  lemma {:induction false} IsAmongIff(paths: seq<string>, n: nat, path: string)
    requires n <= |paths|
    ensures IsAmong(paths, n, path) <==> exists i :: 0 <= i < n && paths[i] == path
  {
    if n == 0 {
    } else {
      IsAmongIff(paths, n - 1, path);
    }
  }

  /** The disk after the first n mails were read, those that are there. */
  function After(disk: Disk, paths: seq<string>, n: nat): Disk
    requires n <= |paths|
  {
    if n == 0 then disk else Take(After(disk, paths, n - 1), paths[n - 1])
  }

  /** A mail that was not read yet is where it was; one that was read is gone. */
  lemma {:induction false} FoundIff(disk: Disk, paths: seq<string>, n: nat, path: string)
    requires n <= |paths| && path in disk.files
    requires forall i :: 0 <= i < n ==> MovesAway(disk, paths[i]) && Renamed(paths[i]) != path
    ensures After(disk, paths, n).dirs == disk.dirs
    ensures path in After(disk, paths, n).files <==> !IsAmong(paths, n, path)
    ensures path in After(disk, paths, n).files ==> After(disk, paths, n).files[path] == disk.files[path]
  {
    if n == 0 {
    } else {
      FoundIff(disk, paths, n - 1, path);
      FoundNext(After(disk, paths, n - 1), disk, paths[n - 1], path);
    }
  }

  lemma {:induction false} ReadIsGone(disk: Disk, paths: seq<string>, j: nat)
    requires j < |paths| && paths[j] in disk.files
    requires forall i :: 0 <= i < |paths| ==> MovesAway(disk, paths[i]) && Renamed(paths[i]) != paths[j]
    ensures paths[j] !in After(disk, paths, j + 1).files
  {
    FoundIff(disk, paths, j + 1, paths[j]);
    assert IsAmong(paths, j + 1, paths[j]);
  }

  lemma {:induction false} PlanDisk(s: Plan, n: nat)
    requires IsPlan(s) && n <= |s.texts|
    ensures s.disks[n] == After(s.disks[0], s.paths, n)
  {
    if n == 0 {
    } else {
      PlanDisk(s, n - 1);
      assert IsStep(s.disks[n - 1], s.paths[n - 1], s.texts[n - 1], s.disks[n - 1 + 1]);
    }
  }

  lemma FoundNext(before: Disk, disk: Disk, p: string, path: string)
    requires before.dirs == disk.dirs && MovesAway(disk, p) && Renamed(p) != path
    ensures var after := Take(before, p);
            && after.dirs == disk.dirs
            && (path in after.files <==> path in before.files && p != path)
            && (path in after.files ==> after.files[path] == before.files[path])
  {
  }

  lemma IsMailIffNew(s: Plan, j: nat)
    requires IsPlan(s) && j <= |s.texts| && j < |s.paths| && AreNew(s.paths, s.disks[0])
    ensures IsMail(s.disks[j], s.paths[j]) <==> !IsAmong(s.paths, j, s.paths[j])
    ensures j < |s.texts| ==> s.texts[j] == Tokens(s.disks[0].files[s.paths[j]], '\n')
  {
    FoundIff(s.disks[0], s.paths, j, s.paths[j]);
    PlanDisk(s, j);
    if j < |s.texts| {
      assert IsStep(s.disks[j], s.paths[j], s.texts[j], s.disks[j + 1]);
    }
  }

  lemma DistinctIff(paths: seq<string>)
    ensures Distinct(paths) <==> forall j :: 0 <= j < |paths| ==> !IsAmong(paths, j, paths[j])
  {
    forall j | 0 <= j < |paths|
      ensures IsAmong(paths, j, paths[j]) <==> exists i :: 0 <= i < j && paths[i] == paths[j]
    {
      IsAmongIff(paths, j, paths[j]);
    }
  }

  /** A queue of new mails can be read to its end exactly when it names no mail
      twice, and then each is read as it was at the start. */
  lemma ReadableIffDistinct(paths: seq<string>, disk: Disk)
    requires AreNew(paths, disk)
    ensures IsWhole(PlanOf(paths, disk)) <==> Distinct(paths)
    ensures var s := PlanOf(paths, disk);
            forall j :: 0 <= j < |s.texts| ==> s.texts[j] == Tokens(disk.files[paths[j]], '\n')
  {
    var s := PlanOf(paths, disk);
    DistinctIff(paths);
    forall j | 0 <= j < |s.texts|
      ensures !IsAmong(paths, j, paths[j]) && s.texts[j] == Tokens(disk.files[paths[j]], '\n')
    {
      IsMailIffNew(s, j);
      assert IsStep(s.disks[j], paths[j], s.texts[j], s.disks[j + 1]);
    }
    if |s.texts| < |paths| {
      IsMailIffNew(s, |s.texts|);
    }
  }
}
