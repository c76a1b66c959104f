/** From a solve to a subscriber: the submission protocol writes the NOTIFY log, the fan-out
    delivers it. */
module Feed {
  import Submit
  import Tables
  import SubmitSchedules
  import Fanout

  /** What a subscriber has been sent or will read next: the events at its frames. */
  function Heard(log: seq<Tables.Event>, frames: seq<nat>): seq<Tables.Event>
    requires forall i :: i in frames ==> i < |log|
  {
    seq(|frames|, i requires 0 <= i < |frames| => assert frames[i] in frames; log[frames[i]])
  }

  /** A solve of the table, as it is told. */
  ghost predicate InTable(solves: seq<Tables.Solve>, e: Tables.Event) {
    exists row :: row in solves && e == Tables.ChallengeSolved(row.team, row.challenge, row.points)
  }

  predicate SameSolve(e: Tables.Event, f: Tables.Event) {
    e.ChallengeSolved? && f.ChallengeSolved? && e.team == f.team && e.challenge == f.challenge
  }

  /** No solve is heard of twice, and each that is heard of is in the table as told. */
  ghost predicate Truthful(solves: seq<Tables.Solve>, heard: seq<Tables.Event>) {
    && (forall i :: 0 <= i < |heard| && heard[i].ChallengeSolved? ==> InTable(solves, heard[i]))
    && (forall i, j :: 0 <= i < j < |heard| ==> !SameSolve(heard[i], heard[j]))
  }

  lemma BackedIsInTable(sys: Submit.System, e: Tables.Event, k: nat)
    requires SubmitSchedules.Backed(sys, e, k)
    ensures InTable(sys.db.solves, e)
  {
    assert sys.db.solves[k] in sys.db.solves;
  }

  lemma IncreasingFramesAreTruthful(sys: Submit.System, frames: seq<nat>)
    requires SubmitSchedules.Announcements(sys) && Fanout.Increasing(frames)
    requires forall i :: i in frames ==> i < |sys.db.log|
    ensures Truthful(sys.db.solves, Heard(sys.db.log, frames))
  {
    var heard := Heard(sys.db.log, frames);
    forall i | 0 <= i < |heard| && heard[i].ChallengeSolved? ensures InTable(sys.db.solves, heard[i]) {
      assert frames[i] in frames;
      var k: nat :| SubmitSchedules.Backed(sys, sys.db.log[frames[i]], k);
      BackedIsInTable(sys, heard[i], k);
    }
    forall i, j | 0 <= i < j < |heard| ensures !SameSolve(heard[i], heard[j]) {
      assert frames[i] in frames && frames[j] in frames && frames[i] < frames[j];
    }
  }

  /** Whatever the schedule of the submissions, and of the fan-out of their log: no subscriber on
      any pod hears of one solve twice, and what it hears of is in the table, with the points it
      was told. */
  lemma SubscribersHearTruthfully(log2: Submit.Log2, actions: seq<Submit.Action>,
                                  pods: nat, steps: seq<Fanout.Action>, c: nat)
    requires |Fanout.Run(pods, steps).log| == |Submit.Run(log2, actions).db.log|
    requires c < |Fanout.Run(pods, steps).clients|
    ensures var db, frames := Submit.Run(log2, actions).db, Fanout.Run(pods, steps).clients[c].Frames();
            (forall x :: x in frames ==> x < |db.log|) && Truthful(db.solves, Heard(db.log, frames))
  {
    SubmitSchedules.AnnouncedTruthfully(log2, actions);
    Fanout.InOrderWithoutGaps(pods, steps, c);
    IncreasingFramesAreTruthful(Submit.Run(log2, actions), Fanout.Run(pods, steps).clients[c].Frames());
  }
}
