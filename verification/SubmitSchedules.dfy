/** Schedules of the submission protocol: the handler as one of them, serial schedules, a race,
    and what subscribers are told. */
module SubmitSchedules {
  import opened Common
  import opened Pricing
  import opened Tables
  import opened Submit
  import opened SubmitRuns

  function PerformAll(log2: Log2, sys: System, actions: seq<Action>): System
    decreases |actions|
  {
    if actions == [] then sys else PerformAll(log2, Perform(log2, sys, actions[0]), actions[1..])
  }

  lemma {:induction false} RunConcat(log2: Log2, before: seq<Action>, after: seq<Action>)
    ensures Run(log2, before + after) == PerformAll(log2, Run(log2, before), after)
    decreases |after|
  {
    if after == [] {
      assert before + after == before;
    } else {
      var all := before + [after[0]];
      assert all + after[1..] == before + after;
      assert all[..|all| - 1] == before;
      RunConcat(log2, all, after[1..]);
    }
  }

  /** The five statements of request `r`, one after the other. Once the request is answered the
      remaining ones do nothing. */
  function Statements(r: nat, os: Outcomes): seq<Action> {
    [Step(r, os.record), Step(r, os.count), Step(r, os.award), Step(r, os.solved), Step(r, os.board)]
  }

  /** `sys` after request `r` alone has moved, with at most one row written, unraced if any. */
  ghost predicate MovedAlone(sys: System, next: System, r: nat, db: Db, q: Request)
    requires r < |sys.requests|
  {
    && next.db == db && next.requests == sys.requests[r := q]
    && (|| (next.db.solves == sys.db.solves && next.awards == sys.awards)
        || (exists row :: WroteUnraced(sys, next, r, row) && row.challenge == q.ch.name))
  }

  ghost predicate WroteUnraced(sys: System, next: System, r: nat, row: Solve) {
    && next.db.solves == sys.db.solves + [row]
    && next.awards == sys.awards + [Award(r, CountSolves(sys.db.solves, row.challenge))]
  }

  lemma AnsweredStays(log2: Log2, sys: System, r: nat, o: Outcome)
    requires r < |sys.requests| && sys.requests[r].phase.Answered?
    ensures Perform(log2, sys, Step(r, o)) == sys
  {
  }

  /** One statement of request `r`. */
  function After1(log2: Log2, sys: System, r: nat, o: Outcome): System {
    Perform(log2, sys, Step(r, o))
  }

  lemma {:induction false} AnsweredStaysAll(log2: Log2, sys: System, r: nat, actions: seq<Action>)
    requires r < |sys.requests| && sys.requests[r].phase.Answered?
    requires forall a :: a in actions ==> a.Step? && a.r == r
    ensures PerformAll(log2, sys, actions) == sys
    decreases |actions|
  {
    if actions != [] {
      assert actions[0] in actions;
      AnsweredStays(log2, sys, r, actions[0].outcome);
      AnsweredStaysAll(log2, sys, r, actions[1..]);
    }
  }

  /** Publishing needs two more statements. */
  lemma FromAwarded(log2: Log2, sys: System, r: nat, os: Outcomes)
    requires r < |sys.requests| && sys.requests[r].phase.Awarded?
    ensures var done := Complete(log2, sys.db, sys.requests[r], os);
            var next := PerformAll(log2, sys, [Step(r, os.solved), Step(r, os.board)]);
            next.db == done.0 && next.requests == sys.requests[r := done.1] && next.awards == sys.awards
            && next.db.solves == sys.db.solves && done.1.ch == sys.requests[r].ch
  {
    var q := sys.requests[r];
    CompleteStep(log2, sys.db, q, os);
    var a := After1(log2, sys, r, os.solved);
    CompleteStep(log2, a.db, a.requests[r], os);
    var b := After1(log2, a, r, os.board);
    assert [Step(r, os.solved), Step(r, os.board)][1..] == [Step(r, os.board)];
    assert PerformAll(log2, a, [Step(r, os.board)]) == b;
  }

  lemma FromCounted(log2: Log2, sys: System, r: nat, os: Outcomes)
    requires r < |sys.requests| && sys.requests[r].phase == Counted(CountSolves(sys.db.solves, sys.requests[r].ch.name))
    ensures var done := Complete(log2, sys.db, sys.requests[r], os);
            MovedAlone(sys, PerformAll(log2, sys, [Step(r, os.award), Step(r, os.solved), Step(r, os.board)]), r, done.0, done.1)
  {
    var q := sys.requests[r];
    var rest := [Step(r, os.solved), Step(r, os.board)];
    CompleteStep(log2, sys.db, q, os);
    var a := After1(log2, sys, r, os.award);
    assert [Step(r, os.award), Step(r, os.solved), Step(r, os.board)][1..] == rest;
    var points := CurrentValue(q.ch.scoring, q.phase.n, log2);
    if a.db.solves != sys.db.solves {
      var row := Solve(q.team, q.ch.name, points, sys.db.clock);
      assert WroteUnraced(sys, a, r, row);
    }
    if a.requests[r].phase.Answered? {
      AnsweredStaysAll(log2, a, r, rest);
    } else {
      FromAwarded(log2, a, r, os);
      var next := PerformAll(log2, a, rest);
      assert a.db.solves != sys.db.solves ==>
        WroteUnraced(sys, next, r, Solve(q.team, q.ch.name, points, sys.db.clock));
    }
  }

  lemma FromRecorded(log2: Log2, sys: System, r: nat, os: Outcomes)
    requires r < |sys.requests| && sys.requests[r].phase.Recorded?
    ensures var done := Complete(log2, sys.db, sys.requests[r], os);
            MovedAlone(sys, PerformAll(log2, sys, Statements(r, os)[1..]), r, done.0, done.1)
  {
    var rest := [Step(r, os.award), Step(r, os.solved), Step(r, os.board)];
    CompleteStep(log2, sys.db, sys.requests[r], os);
    var a := After1(log2, sys, r, os.count);
    assert Statements(r, os)[1..][1..] == rest && Statements(r, os)[1..][0] == Step(r, os.count);
    if a.requests[r].phase.Answered? {
      AnsweredStaysAll(log2, a, r, rest);
    } else {
      FromCounted(log2, a, r, os);
    }
  }

  /** The handler run without interference is a schedule of the protocol. */
  lemma HandlerIsSchedule(log2: Log2, sys: System, r: nat, os: Outcomes)
    requires r < |sys.requests| && (sys.requests[r].phase.Checked? || sys.requests[r].phase.Answered?)
    ensures var done := Complete(log2, sys.db, sys.requests[r], os);
            MovedAlone(sys, PerformAll(log2, sys, Statements(r, os)), r, done.0, done.1)
  {
    if sys.requests[r].phase.Answered? {
      AnsweredStaysAll(log2, sys, r, Statements(r, os));
    } else {
      CompleteStep(log2, sys.db, sys.requests[r], os);
      var a := After1(log2, sys, r, os.record);
      assert Statements(r, os)[0] == Step(r, os.record);
      if a.requests[r].phase.Answered? {
        AnsweredStaysAll(log2, a, r, Statements(r, os)[1..]);
      } else {
        FromRecorded(log2, a, r, os);
      }
    }
  }

  // ------------------------------------------------------ serial schedules

  datatype Visit = Visit(arrival: Action, os: Outcomes)

  /** Requests handled one after the other, each to its end. */
  function Serial(visits: seq<Visit>): seq<Action>
    decreases |visits|
  {
    if visits == [] then []
    else
      var last := |visits| - 1;
      Serial(visits[..last]) + ([visits[last].arrival] + Statements(last, visits[last].os))
  }

  ghost predicate AllUnraced(sys: System) {
    |sys.awards| == |sys.db.solves| && forall k :: 0 <= k < |sys.db.solves| ==> Unraced(sys, k)
  }

  lemma MovedAloneUnraced(sys: System, next: System, r: nat, db: Db, q: Request)
    requires r < |sys.requests| && AllUnraced(sys) && MovedAlone(sys, next, r, db, q)
    ensures AllUnraced(next)
  {
    if next.db.solves != sys.db.solves || next.awards != sys.awards {
      var row :| WroteUnraced(sys, next, r, row);
    }
    forall k | 0 <= k < |next.db.solves| ensures Unraced(next, k) {
      if k < |sys.db.solves| {
        assert Unraced(sys, k);
        assert next.db.solves[..k] == sys.db.solves[..k];
      } else {
        assert next.db.solves[..k] == sys.db.solves;
      }
    }
  }

  lemma VisitUnraced(log2: Log2, sys: System, v: Visit)
    requires AllUnraced(sys) && v.arrival.Arrive?
    ensures var next := PerformAll(log2, sys, [v.arrival] + Statements(|sys.requests|, v.os));
            AllUnraced(next) && |next.requests| == |sys.requests| + 1
  {
    var r := |sys.requests|;
    var arrived := Perform(log2, sys, v.arrival);
    assert ([v.arrival] + Statements(r, v.os))[1..] == Statements(r, v.os);
    assert AllUnraced(arrived) by {
      forall k | 0 <= k < |sys.db.solves| ensures Unraced(arrived, k) {
        assert Unraced(sys, k);
      }
    }
    HandlerIsSchedule(log2, arrived, r, v.os);
    var done := Complete(log2, arrived.db, arrived.requests[r], v.os);
    MovedAloneUnraced(arrived, PerformAll(log2, arrived, Statements(r, v.os)), r, done.0, done.1);
  }

  /** Handled serially, with any errors on the way, no row is raced. */
  lemma {:induction false} SerialIsUnraced(log2: Log2, visits: seq<Visit>)
    requires forall v :: v in visits ==> v.arrival.Arrive?
    ensures var sys := Run(log2, Serial(visits)); AllUnraced(sys) && |sys.requests| == |visits|
    decreases |visits|
  {
    if visits != [] {
      var last := |visits| - 1;
      var v := visits[last];
      SerialIsUnraced(log2, visits[..last]);
      RunConcat(log2, Serial(visits[..last]), [v.arrival] + Statements(last, v.os));
      VisitUnraced(log2, Run(log2, Serial(visits[..last])), v);
    }
  }

  /** Served one after the other, k solvers of a challenge are paid exactly its first k prices. */
  lemma SerialPaysThePrices(log2: Log2, visits: seq<Visit>, challenge: string, ch: Scoring)
    requires forall v :: v in visits ==> v.arrival.Arrive?
    requires OneScoring(Run(log2, Serial(visits)), challenge, ch)
    ensures var solves := Run(log2, Serial(visits)).db.solves;
            ChallengeTotal(solves, challenge) == PriceSum(ch, CountSolves(solves, challenge), log2)
  {
    SerialIsUnraced(log2, visits);
    TotalPaid(log2, Serial(visits), challenge, ch);
  }

  /** Requests 0 and 1 each make one statement. */
  function Both(log2: Log2, sys: System): System {
    After1(log2, After1(log2, sys, 0, Fine), 1, Fine)
  }

  lemma {:induction false} BothPerformed(log2: Log2, sys: System, n: nat, rest: seq<Action>)
    requires rest == Turns(n)
    ensures PerformAll(log2, sys, rest) == BothTimes(log2, sys, n)
    decreases n
  {
    if n > 0 {
      var mid := Turns(n - 1);
      assert rest[0] == Step(0, Fine) && rest[1..] == [Step(1, Fine)] + mid && rest[1..][1..] == mid;
      BothPerformed(log2, Both(log2, sys), n - 1, mid);
    }
  }

  /** Both requests in turn, n statements each. */
  function Turns(n: nat): seq<Action> {
    if n == 0 then [] else [Step(0, Fine), Step(1, Fine)] + Turns(n - 1)
  }

  function BothTimes(log2: Log2, sys: System, n: nat): System
    decreases n
  {
    if n == 0 then sys else BothTimes(log2, Both(log2, sys), n - 1)
  }

  /** A challenge with the given scoring fields, and two teams that answer it correctly. */
  function Raced(ch: Scoring): Challenge { Challenge("c", "static", "visible", "f", ch) }

  function Arrivals(ch: Scoring): seq<Action> {
    [Arrive("a", "u", Found(Raced(ch)), Flag("f"), NoInstance), Arrive("b", "v", Found(Raced(ch)), Flag("f"), NoInstance)]
  }

  function Rival(ch: Scoring, team: string, user: string, phase: Phase): Request {
    Request(team, user, Raced(ch), "f", phase, None)
  }

  lemma RaceToTheCount(log2: Log2, ch: Scoring)
    ensures var sys := Both(log2, Both(log2, Run(log2, Arrivals(ch))));
            && sys.requests == [Rival(ch, "a", "u", Counted(0)), Rival(ch, "b", "v", Counted(0))]
            && sys.db.solves == []
  {
    var arrivals := Arrivals(ch);
    assert arrivals[..1] == [arrivals[0]] && [arrivals[0]][..0] == [];
    var s0 := Run(log2, arrivals);
    assert s0 == Perform(log2, Run(log2, arrivals[..1]), arrivals[1]);
    assert Run(log2, arrivals[..1]) == Perform(log2, IDLE, arrivals[0]);
    assert s0.requests == [Rival(ch, "a", "u", Checked(true)), Rival(ch, "b", "v", Checked(true))];
    var s1 := Both(log2, s0);
    assert s1.requests == [Rival(ch, "a", "u", Recorded), Rival(ch, "b", "v", Recorded)] && s1.db.solves == [];
  }

  lemma RaceToTheAward(log2: Log2, sys: System, ch: Scoring)
    requires sys.requests == [Rival(ch, "a", "u", Counted(0)), Rival(ch, "b", "v", Counted(0))] && sys.db.solves == []
    ensures var solves, points := Both(log2, sys).db.solves, CurrentValue(ch, 0, log2);
            && |solves| == 2 && solves[0].points == points && solves[1].points == points
            && solves[0].challenge == "c" && solves[1].challenge == "c"
    ensures OneScoring(Both(log2, sys), "c", ch)
  {
    var s := After1(log2, sys, 0, Fine);
    assert s.db.solves == [Solve("a", "c", CurrentValue(ch, 0, log2), sys.db.clock)] && s.requests[1] == sys.requests[1];
    assert !Solved(s.db.solves, "b", "c");
  }

  /** A race, for any scoring: both requests count before either inserts, and the second solver is
      paid the first price. */
  lemma RacePaysTwice(log2: Log2, ch: Scoring)
    ensures var sys := Run(log2, Arrivals(ch) + Turns(3));
            var points := CurrentValue(ch, 0, log2);
            && |sys.db.solves| == 2 && sys.db.solves[0].points == points && sys.db.solves[1].points == points
            && sys.db.solves[0].challenge == "c" && sys.db.solves[1].challenge == "c"
            && OneScoring(sys, "c", ch)
  {
    RunConcat(log2, Arrivals(ch), Turns(3));
    var s0 := Run(log2, Arrivals(ch));
    BothPerformed(log2, s0, 3, Turns(3));
    var s2 := Both(log2, Both(log2, s0));
    assert BothTimes(log2, s0, 3) == Both(log2, s2) by {
      assert BothTimes(log2, s2, 1) == Both(log2, s2);
    }
    RaceToTheCount(log2, ch);
    RaceToTheAward(log2, s2, ch);
  }

  /** "The n-th solver is paid the n-th price", for all schedules and all challenges scored so. */
  ghost predicate EachPaidItsPrice(log2: Log2, ch: Scoring) {
    forall actions: seq<Action>, k: nat :: PaidItsPrice(log2, ch, Run(log2, actions), k)
  }

  ghost predicate PaidItsPrice(log2: Log2, ch: Scoring, sys: System, k: nat) {
    k < |sys.db.solves| && OneScoring(sys, sys.db.solves[k].challenge, ch) ==>
      sys.db.solves[k].points == CurrentValue(ch, CountSolves(sys.db.solves[..k], sys.db.solves[k].challenge), log2)
  }

  /** It holds exactly of the challenges whose price never moves: any other one has a schedule in
      which the second solver is paid the first price. */
  lemma EachPaidExactlyWhenFixed(log2: Log2, ch: Scoring)
    requires IsLog2(log2)
    ensures EachPaidItsPrice(log2, ch) <==> FixedPrice(ch)
  {
    if FixedPrice(ch) {
      forall actions: seq<Action>, k: nat ensures PaidItsPrice(log2, ch, Run(log2, actions), k) {
        FixedPricePays(log2, ch, actions, k);
      }
    } else {
      RacePaysTwice(log2, ch);
      FixedPriceTells(ch, 1, log2);
      SecondRowIsUnpaid(log2, ch, Run(log2, Arrivals(ch) + Turns(3)));
    }
  }

  lemma FixedPricePays(log2: Log2, ch: Scoring, actions: seq<Action>, k: nat)
    requires IsLog2(log2) && FixedPrice(ch)
    ensures PaidItsPrice(log2, ch, Run(log2, actions), k)
  {
    var sys := Run(log2, actions);
    AlwaysInv(log2, actions);
    if k < |sys.db.solves| && OneScoring(sys, sys.db.solves[k].challenge, ch) {
      assert RowOk(log2, sys, k);
      FixedPriceTells(ch, sys.awards[k].counted, log2);
      FixedPriceTells(ch, CountSolves(sys.db.solves[..k], sys.db.solves[k].challenge), log2);
    }
  }

  lemma SecondRowIsUnpaid(log2: Log2, ch: Scoring, sys: System)
    requires |sys.db.solves| == 2 && sys.db.solves[0].challenge == "c" && sys.db.solves[1].challenge == "c"
    requires OneScoring(sys, "c", ch) && sys.db.solves[1].points == CurrentValue(ch, 0, log2)
    requires CurrentValue(ch, 1, log2) != CurrentValue(ch, 0, log2)
    ensures !PaidItsPrice(log2, ch, sys, 1)
  {
    var first := sys.db.solves[..1];
    assert first == [sys.db.solves[0]] && first[..0] == [];
    assert CountSolves(first, "c") == 1;
  }

  // --------------------------------------------------------- announcements

  ghost predicate Backed(sys: System, e: Event, k: nat) {
    && k < |sys.db.solves| == |sys.awards|
    && e == ChallengeSolved(sys.db.solves[k].team, sys.db.solves[k].challenge, sys.db.solves[k].points)
    && sys.awards[k].owner < |sys.requests|
    && (sys.requests[sys.awards[k].owner].phase.Announced? || sys.requests[sys.awards[k].owner].phase.Answered?)
  }

  ghost predicate AnnouncedOnce(log: seq<Event>) {
    forall i, j :: 0 <= i < j < |log| && log[i].ChallengeSolved? && log[j].ChallengeSolved? ==>
      log[i].team != log[j].team || log[i].challenge != log[j].challenge
  }

  ghost predicate Announcements(sys: System) {
    && AnnouncedOnce(sys.db.log)
    && forall i :: 0 <= i < |sys.db.log| && sys.db.log[i].ChallengeSolved? ==> exists k :: Backed(sys, sys.db.log[i], k)
  }

  lemma BackedStays(log2: Log2, sys: System, a: Action, e: Event, k: nat)
    requires Inv(log2, sys) && Backed(sys, e, k)
    ensures Backed(Perform(log2, sys, a), e, k)
  {
    var next := Perform(log2, sys, a);
    AlwaysGrows(log2, sys, a);
    assert RowOk(log2, sys, k);
  }

  lemma AlwaysGrows(log2: Log2, sys: System, a: Action)
    requires Inv(log2, sys)
    ensures var next := Perform(log2, sys, a);
            && sys.db.solves <= next.db.solves && sys.awards <= next.awards && |next.awards| == |next.db.solves|
            && |sys.requests| <= |next.requests|
            && (forall i :: 0 <= i < |sys.requests| && (sys.requests[i].phase.Announced? || sys.requests[i].phase.Answered?) ==>
                  next.requests[i].phase.Announced? || next.requests[i].phase.Answered?)
  {
  }

  lemma OldAnnouncements(log2: Log2, sys: System, a: Action, i: nat)
    requires Inv(log2, sys) && Announcements(sys) && i < |sys.db.log| && sys.db.log[i].ChallengeSolved?
    ensures exists k :: Backed(Perform(log2, sys, a), sys.db.log[i], k)
  {
    var k :| Backed(sys, sys.db.log[i], k);
    BackedStays(log2, sys, a, sys.db.log[i], k);
  }

  ghost predicate Announces(log2: Log2, sys: System, a: Action, e: Event) {
    Perform(log2, sys, a).db.log == sys.db.log + [e]
  }

  lemma LogSteps(log2: Log2, sys: System, a: Action)
    ensures Perform(log2, sys, a).db.log == sys.db.log || exists e :: Announces(log2, sys, a, e)
  {
    var next := Perform(log2, sys, a);
    if next.db.log != sys.db.log {
      assert Announces(log2, sys, a, next.db.log[|sys.db.log|]);
    }
  }

  /** A new announcement is backed by a row that no earlier one is backed by. */
  lemma NewAnnouncement(log2: Log2, sys: System, a: Action, e: Event) returns (k: nat)
    requires Inv(log2, sys) && Announces(log2, sys, a, e) && e.ChallengeSolved?
    ensures Backed(Perform(log2, sys, a), e, k)
    ensures forall f :: !Backed(sys, f, k)
  {
    assert Perform(log2, sys, a).db.log[|sys.db.log|] == e;
    assert a.Step? && a.r < |sys.requests| && sys.requests[a.r].phase.Awarded?;
    assert RequestOk(sys, a.r);
    var row :| Owns(sys, a.r, row);
    assert RowOk(log2, sys, row);
    k := row;
  }

  lemma RowsDiffer(log2: Log2, sys: System, e: Event, f: Event, j: nat, k: nat)
    requires Inv(log2, sys) && Backed(sys, e, j) && Backed(sys, f, k) && j != k
    ensures e.team != f.team || e.challenge != f.challenge
  {
  }

  lemma AnnouncementsStay(log2: Log2, sys: System, a: Action)
    requires Inv(log2, sys) && Inv(log2, Perform(log2, sys, a)) && Announcements(sys)
    ensures Announcements(Perform(log2, sys, a))
  {
    var next := Perform(log2, sys, a);
    forall i | 0 <= i < |sys.db.log| && sys.db.log[i].ChallengeSolved? ensures exists k :: Backed(next, sys.db.log[i], k) {
      OldAnnouncements(log2, sys, a, i);
    }
    LogSteps(log2, sys, a);
    if next.db.log != sys.db.log {
      var e :| Announces(log2, sys, a, e);
      if e.ChallengeSolved? {
        var k := NewAnnouncement(log2, sys, a, e);
        forall i | 0 <= i < |sys.db.log| && sys.db.log[i].ChallengeSolved?
          ensures sys.db.log[i].team != e.team || sys.db.log[i].challenge != e.challenge
        {
          var j :| Backed(sys, sys.db.log[i], j);
          BackedStays(log2, sys, a, sys.db.log[i], j);
          RowsDiffer(log2, next, sys.db.log[i], e, j, k);
        }
      }
    }
  }

  /** challenge.solved is announced at most once per team and challenge, only after the row was
      committed, and with the points of the row. */
  lemma {:induction false} AnnouncedTruthfully(log2: Log2, actions: seq<Action>)
    ensures Announcements(Run(log2, actions))
    decreases |actions|
  {
    if actions != [] {
      AlwaysInv(log2, actions[..|actions| - 1]);
      AlwaysInv(log2, actions);
      AnnouncedTruthfully(log2, actions[..|actions| - 1]);
      AnnouncementsStay(log2, Run(log2, actions[..|actions| - 1]), actions[|actions| - 1]);
    }
  }
}
