/** The relay as a whole: letters that a server session saves, sent on by the client
    that finds their files. */
module Relay {
  import opened Text
  import opened Pattern
  import opened Commands
  import opened Disks
  import opened Conversation
  import opened BodyLines
  import S = Session
  import W = Stopwatch
  import H = History
  import L = ClientLanguage
  import opened Mailbox

  /** The saved letters lie in files of their own, to be moved when they are read. */
  ghost predicate AreFiled(letters: seq<S.Letter>, paths: seq<string>, disk: Disk) {
    && |paths| == |letters| && Distinct(paths)
    && (forall k :: 0 <= k < |paths| ==> paths[k] in disk.files && disk.files[paths[k]] == PrintLetter(letters[k]))
    && (forall k :: 0 <= k < |paths| ==> MovesAway(disk, paths[k]))
    && (forall i, k :: 0 <= i < |paths| && 0 <= k < |paths| ==> Renamed(paths[i]) != paths[k])
  }

  /** The file of a saved letter, as the client reads it. */
  lemma FileOf(l: S.Letter)
    requires IsReadable(l)
    ensures var t := Tokens(PrintLetter(l), '\n');
            && |t| >= 2 && t[0] == l.mailFrom && t[1] == l.rcptTo && t[2..] == Tokens(l.body, '\n')
            && IsUserAtDomain(t[1]) && EnvelopeOf(t) == l.(body := "")
  {
    FileRoundTripIff(l);
    EmailSplit(l.rcptTo);
  }

  /** Letters that a session saved can all be delivered, each under the envelope it
      was saved with. */
  lemma {:induction false} SavedLettersAreDeliverable(
      accepted: W.TimeVal, h: seq<H.Input>, paths: seq<string>, disk: Disk)
    requires AreHeard(h) && H.Run(accepted, h).Some? && AreFiled(H.Run(accepted, h).value.letters, paths, disk)
    ensures var letters, plan := H.Run(accepted, h).value.letters, PlanOf(paths, disk);
            && Deliverable(plan) && |plan.texts| == |letters|
            && forall k :: 0 <= k < |letters| ==>
                 plan.texts[k][2..] == Tokens(letters[k].body, '\n') &&
                 SplitAt(plan.texts[k][1]).Some? && EnvelopeOf(plan.texts[k]) == letters[k].(body := "")
  {
    var letters, plan := H.Run(accepted, h).value.letters, PlanOf(paths, disk);
    forall k | 0 <= k < |paths|
      ensures IsMail(disk, paths[k]) && IsReadable(letters[k])
    {
      SavedLettersAreReadable(accepted, h, k);
      FileOf(letters[k]);
    }
    ReadableIffDistinct(paths, disk);
    forall k | 0 <= k < |paths|
      ensures IsUserAtDomain(plan.texts[k][1]) && plan.texts[k][2..] == Tokens(letters[k].body, '\n')
      ensures SplitAt(plan.texts[k][1]).Some? && EnvelopeOf(plan.texts[k]) == letters[k].(body := "")
    {
      FileOf(letters[k]);
    }
  }

  /** So after the session that sends them on, the next server has stored each letter
      under the envelope of the first; its lines, but for those that transfers add,
      are the letter's own exactly when every cut was harmless. */
  lemma {:induction false} LettersAreRelayed(
      accepted: W.TimeVal, h: seq<H.Input>, paths: seq<string>, disk: Disk, w: World, k: nat)
    requires AreHeard(h) && H.Run(accepted, h).Some? && AreFiled(H.Run(accepted, h).value.letters, paths, disk)
    requires IsWhole(PlanOf(paths, disk)) && Finished(w, PlanOf(paths, disk)) && k < |paths|
    ensures var letter := H.Run(accepted, h).value.letters[k];
            && w.store[k].(body := "") == letter.(body := "")
            && (Clean(Tokens(w.store[k].body, '\n')) == Clean(Tokens(letter.body, '\n')) <==> AllHarmless(w.splits[k]))
  {
    var plan := PlanOf(paths, disk);
    SavedLettersAreDeliverable(accepted, h, paths, disk);
    DeliveredLinesIff(w, plan, k);
    assert IsDelivered(w.store[k], plan.texts[k], w.splits[k]);
  }
}
