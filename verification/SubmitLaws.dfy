/** What the submission protocol (internal/engine/handlers.go) decides from what clients send:
    which requests are refused, which flags are right, what a request does to the tables, and where
    every stored row comes from. */
module SubmitLaws {
  import opened Common
  import opened Pricing
  import opened Tables
  import opened Submit
  import opened SubmitRuns

  /** The flag is the static flag, or one of the flags of the team's running instance. Without an
      instance no flag is right. */
  predicate Genuine(ch: Challenge, flag: string, instance: Instance) {
    if ch.mode == "static" then flag == ch.staticFlag
    else instance.Running? && exists i :: 0 <= i < |instance.flags| && instance.flags[i] == flag
  }

  /** The challenge can be submitted to: visible, with a decrypted flag or a readable instance. */
  predicate Submittable(ch: Challenge, instance: Instance) {
    ch.state == "visible" && (if ch.mode == "static" then ch.staticFlag != "" else !instance.InstanceFailed?)
  }

  /** A request reaches the tables exactly when it comes from a team, names a challenge that can be
      submitted to, and carries a flag; what is stored as correct is whether the flag is right. */
  lemma AdmittedExactly(team: string, user: string, lookup: Lookup, body: Body, instance: Instance)
    ensures var q := Admit(team, user, lookup, body, instance);
            && q.award == None
            && (!q.phase.Answered? <==>
                  team != "" && lookup.Found? && Submittable(lookup.ch, instance) && body.Flag? && body.flag != "")
            && (!q.phase.Answered? ==>
                  q == Request(team, user, lookup.ch, body.flag, Checked(Genuine(lookup.ch, body.flag, instance)), None))
  {
    if lookup.Found? && body.Flag? && instance.Running? && body.flag in instance.flags {
      var i :| 0 <= i < |instance.flags| && instance.flags[i] == body.flag;
    }
  }

  /** What a refused request is told, by the first thing that is wrong with it. */
  lemma RefusedExactly(team: string, user: string, lookup: Lookup, body: Body, instance: Instance)
    requires Admit(team, user, lookup, body, instance).phase.Answered?
    ensures var reply := Admit(team, user, lookup, body, instance).phase.reply;
            reply.Refused? && reply.status ==
              if team == "" then 403
              else if lookup.LookupFailed? then 500
              else if lookup.NoChallenge? || lookup.ch.state != "visible" then 404
              else if body.Malformed? || body.flag == "" then 400
              else if lookup.ch.mode == "static" then 409
              else 500
  {
  }

  /** An error of one of the statements on the tables ends the request with status 500, whether or
      not the statement took effect; an error of a publication is ignored. */
  lemma LostExactly(log2: Log2, db: Db, q: Request, applied: bool)
    ensures var (after, next) := Act(log2, db, q, Lost(applied));
            var (fine, onwards) := Act(log2, db, q, Fine);
            && after == (if applied then fine else db)
            && (q.phase.Checked? || q.phase.Recorded? || q.phase.Counted? ==> next.phase == Answered(Refused(500)))
            && (q.phase.Awarded? || q.phase.Announced? || q.phase.Answered? ==> next == onwards)
            && (next.award.Some? && q.award.None? ==> applied && |after.solves| == |db.solves| + 1)
  {
  }

  // ------------------------------------------------------ one request alone

  const ALL_FINE: Outcomes := Outcomes(Fine, Fine, Fine, Fine, Fine)

  lemma AnnouncedHandled(log2: Log2, db: Db, q: Request, price: int)
    requires q.phase == Awarded(price)
    ensures Complete(log2, db, q, ALL_FINE) ==
            (db.(log := db.log + [ChallengeSolved(q.team, q.ch.name, price), ScoreboardUpdated]),
             q.(phase := Answered(Result(true, price))))
  {
    CompleteStep(log2, db, q, ALL_FINE);
    CompleteStep(log2, Notify(db, ChallengeSolved(q.team, q.ch.name, price)), q.(phase := Announced(price)), ALL_FINE);
    assert db.log + [ChallengeSolved(q.team, q.ch.name, price)] + [ScoreboardUpdated]
        == db.log + [ChallengeSolved(q.team, q.ch.name, price), ScoreboardUpdated];
  }

  lemma CountedHandled(log2: Log2, db: Db, q: Request, n: nat)
    requires q.phase == Counted(n)
    ensures var (after, done) := Complete(log2, db, q, ALL_FINE);
            var price := CurrentValue(q.ch.scoring, n, log2);
            var first := !Solved(db.solves, q.team, q.ch.name);
            && after.submissions == db.submissions
            && after.solves == db.solves + (if first then [Solve(q.team, q.ch.name, price, db.clock)] else [])
            && after.log == db.log + (if first then [ChallengeSolved(q.team, q.ch.name, price), ScoreboardUpdated] else [])
            && done.phase == Answered(Result(true, if first then price else 0))
  {
    var price := CurrentValue(q.ch.scoring, n, log2);
    var after := InsertSolve(db, q.team, q.ch.name, price);
    CompleteStep(log2, db, q, ALL_FINE);
    if !Solved(db.solves, q.team, q.ch.name) {
      assert |after.solves| == |db.solves| + 1;
      AnnouncedHandled(log2, after, q.(phase := Awarded(price), award := Some(price)), price);
    }
  }

  /** What a request that is not disturbed does: it stores the attempt; if the flag is right and
      the team had not solved the challenge, also a solve at the present price, and two events. */
  lemma HandledExactly(log2: Log2, db: Db, team: string, user: string, ch: Challenge, flag: string, right: bool)
    ensures var q := Request(team, user, ch, flag, Checked(right), None);
            var (after, done) := Complete(log2, db, q, ALL_FINE);
            var price := CurrentValue(ch.scoring, CountSolves(db.solves, ch.name), log2);
            var first := right && !Solved(db.solves, team, ch.name);
            && after.submissions == db.submissions + [Submission(team, user, ch.name, flag, right, db.clock)]
            && after.solves == db.solves + (if first then [Solve(team, ch.name, price, db.clock + 1)] else [])
            && after.log == db.log + (if first then [ChallengeSolved(team, ch.name, price), ScoreboardUpdated] else [])
            && done.phase == Answered(Result(right, if first then price else 0))
  {
    var q := Request(team, user, ch, flag, Checked(right), None);
    CompleteStep(log2, db, q, ALL_FINE);
    if right {
      var stored, recorded := InsertSubmission(db, team, user, ch.name, flag, true), q.(phase := Recorded);
      CompleteStep(log2, stored, recorded, ALL_FINE);
      CountedHandled(log2, stored, q.(phase := Counted(CountSolves(db.solves, ch.name))), CountSolves(db.solves, ch.name));
    }
  }

  // ------------------------------------------------------- where rows come from

  /** The arrivals of a schedule, in order: request r is the r-th of them. */
  function ArrivalsOf(actions: seq<Action>): seq<Action> {
    if actions == [] then []
    else
      var last := actions[|actions| - 1];
      ArrivalsOf(actions[..|actions| - 1]) + if last.Arrive? then [last] else []
  }

  predicate SameSubmitter(q: Request, start: Request) {
    q.team == start.team && q.user == start.user && q.ch == start.ch && q.flag == start.flag
  }

  /** What may have become of a request that was admitted as `start`. */
  predicate Follows(q: Request, start: Request) {
    && SameSubmitter(q, start)
    && (start.phase.Answered? ==> q == start)
    && (q.phase.Checked? ==> q.phase == start.phase)
    && (q.phase.Recorded? || q.phase.Counted? || q.phase.Awarded? || q.phase.Announced? || q.award.Some? ==>
          start.phase == Checked(true))
  }

  ghost predicate FromArrival(row: Submission, a: Action) {
    && a.Arrive? && a.team == row.team && a.user == row.user && a.body == Flag(row.flag) && row.flag != "" && row.team != ""
    && a.lookup.Found? && a.lookup.ch.name == row.challenge && Submittable(a.lookup.ch, a.instance)
    && (row.correct <==> Genuine(a.lookup.ch, row.flag, a.instance))
  }

  function StartOf(a: Action): Request
    requires a.Arrive?
  {
    Admit(a.team, a.user, a.lookup, a.body, a.instance)
  }

  ghost predicate Sent(actions: seq<Action>, row: Submission) {
    exists a :: a in actions && FromArrival(row, a)
  }

  lemma SentLater(actions: seq<Action>, more: Action, row: Submission)
    requires Sent(actions, row)
    ensures Sent(actions + [more], row)
  {
    var a :| a in actions && FromArrival(row, a);
    assert a in actions + [more];
  }

  /** Request r stems from arrival r. */
  ghost predicate RequestsRooted(arrivals: seq<Action>, requests: seq<Request>) {
    && |arrivals| == |requests|
    && forall r :: 0 <= r < |arrivals| ==> arrivals[r].Arrive? && Follows(requests[r], StartOf(arrivals[r]))
  }

  ghost predicate RowsRooted(actions: seq<Action>, rows: seq<Submission>) {
    forall i :: 0 <= i < |rows| ==> Sent(actions, rows[i])
  }

  ghost predicate Rooted(actions: seq<Action>, sys: System) {
    RequestsRooted(ArrivalsOf(actions), sys.requests) && RowsRooted(actions, sys.db.submissions)
  }

  lemma ActFollows(log2: Log2, db: Db, q: Request, start: Request, o: Outcome)
    requires Follows(q, start)
    ensures Follows(Act(log2, db, q, o).1, start)
  {
  }

  lemma ActSubmits(log2: Log2, db: Db, q: Request, o: Outcome)
    ensures var after := Act(log2, db, q, o).0;
            after.submissions == db.submissions
            || (q.phase.Checked? && after.submissions
                  == db.submissions + [Submission(q.team, q.user, q.ch.name, q.flag, q.phase.correct, db.clock)])
  {
  }

  lemma CheckedIsFromArrival(q: Request, a: Action, at: nat)
    requires a.Arrive? && Follows(q, StartOf(a)) && q.phase.Checked?
    ensures FromArrival(Submission(q.team, q.user, q.ch.name, q.flag, q.phase.correct, at), a)
  {
    AdmittedExactly(a.team, a.user, a.lookup, a.body, a.instance);
  }

  lemma {:induction false} ArrivalsAreActions(actions: seq<Action>)
    ensures forall a :: a in ArrivalsOf(actions) ==> a in actions
    decreases |actions|
  {
    if actions != [] {
      ArrivalsAreActions(actions[..|actions| - 1]);
    }
  }

  lemma ArrivalsSnoc(actions: seq<Action>, a: Action)
    ensures ArrivalsOf(actions + [a]) == ArrivalsOf(actions) + if a.Arrive? then [a] else []
  {
    assert (actions + [a])[..|actions|] == actions;
  }

  lemma RowsStayRooted(actions: seq<Action>, a: Action, rows: seq<Submission>, more: seq<Submission>)
    requires RowsRooted(actions, rows)
    requires more == rows || (|more| == |rows| + 1 && more[..|rows|] == rows && Sent(actions + [a], more[|rows|]))
    ensures RowsRooted(actions + [a], more)
  {
    forall i | 0 <= i < |more| ensures Sent(actions + [a], more[i]) {
      if i < |rows| {
        assert more[i] == rows[i];
        SentLater(actions, a, rows[i]);
      }
    }
  }

  lemma StepStaysRooted(log2: Log2, actions: seq<Action>, sys: System, r: nat, o: Outcome)
    requires Rooted(actions, sys)
    ensures Rooted(actions + [Step(r, o)], Perform(log2, sys, Step(r, o)))
  {
    var next := Perform(log2, sys, Step(r, o));
    ArrivalsSnoc(actions, Step(r, o));
    if r < |sys.requests| {
      var q, a := sys.requests[r], ArrivalsOf(actions)[r];
      ArrivalsAreActions(actions);
      ActFollows(log2, sys.db, q, StartOf(a), o);
      ActSubmits(log2, sys.db, q, o);
      if q.phase.Checked? {
        CheckedIsFromArrival(q, a, sys.db.clock);
        assert a in actions + [Step(r, o)];
      }
    }
    RowsStayRooted(actions, Step(r, o), sys.db.submissions, next.db.submissions);
  }

  lemma RequestsJoin(arrivals: seq<Action>, requests: seq<Request>, a: Action)
    requires RequestsRooted(arrivals, requests) && a.Arrive?
    ensures RequestsRooted(arrivals + [a], requests + [StartOf(a)])
  {
    AdmittedExactly(a.team, a.user, a.lookup, a.body, a.instance);
  }

  lemma OtherStaysRooted(log2: Log2, actions: seq<Action>, sys: System, a: Action)
    requires Rooted(actions, sys) && !a.Step?
    ensures Rooted(actions + [a], Perform(log2, sys, a))
  {
    var next := Perform(log2, sys, a);
    ArrivalsSnoc(actions, a);
    RowsStayRooted(actions, a, sys.db.submissions, next.db.submissions);
    if a.Arrive? {
      RequestsJoin(ArrivalsOf(actions), sys.requests, a);
      assert next.requests == sys.requests + [StartOf(a)];
    } else {
      assert next.requests == sys.requests;
    }
  }

  lemma {:induction false} AlwaysRooted(log2: Log2, actions: seq<Action>)
    ensures Rooted(actions, Run(log2, actions))
    decreases |actions|
  {
    if actions != [] {
      var front, last := actions[..|actions| - 1], actions[|actions| - 1];
      AlwaysRooted(log2, front);
      assert actions == front + [last];
      match last {
        case Step(r, o) => StepStaysRooted(log2, front, Run(log2, front), r, o);
        case Arrive(_, _, _, _, _) => OtherStaysRooted(log2, front, Run(log2, front), last);
        case Launched(_, _, _, _) => OtherStaysRooted(log2, front, Run(log2, front), last);
      }
    }
  }

  /** Every stored attempt was sent: by that user of that team, with that flag, for a challenge of
      that name that could be submitted to; and it is stored as correct exactly if its flag is right. */
  lemma AttemptsWereSent(log2: Log2, actions: seq<Action>, i: nat)
    requires i < |Run(log2, actions).db.submissions|
    ensures Sent(actions, Run(log2, actions).db.submissions[i])
  {
    AlwaysRooted(log2, actions);
  }

  ghost predicate Earned(row: Solve, a: Action) {
    && a.Arrive? && a.team == row.team && a.lookup.Found? && a.lookup.ch.name == row.challenge
    && Submittable(a.lookup.ch, a.instance) && a.body.Flag? && a.body.flag != ""
    && Genuine(a.lookup.ch, a.body.flag, a.instance)
  }

  /** Every solve was earned: the schedule holds an arrival of that team, for that challenge, when
      it could be submitted to, with a right flag. */
  lemma SolvesWereEarned(log2: Log2, actions: seq<Action>, k: nat)
    requires k < |Run(log2, actions).db.solves|
    ensures exists a :: a in actions && Earned(Run(log2, actions).db.solves[k], a)
  {
    var sys := Run(log2, actions);
    AlwaysInv(log2, actions);
    AlwaysRooted(log2, actions);
    assert RowOk(log2, sys, k);
    OwnerEarned(actions, sys, sys.awards[k].owner, sys.db.solves[k]);
  }

  lemma OwnerEarned(actions: seq<Action>, sys: System, r: nat, row: Solve)
    requires Rooted(actions, sys) && r < |sys.requests| && sys.requests[r].award.Some?
    requires sys.requests[r].team == row.team && sys.requests[r].ch.name == row.challenge
    ensures exists a :: a in actions && Earned(row, a)
  {
    var a := ArrivalsOf(actions)[r];
    ArrivalsAreActions(actions);
    AdmittedExactly(a.team, a.user, a.lookup, a.body, a.instance);
    assert Follows(sys.requests[r], StartOf(a));
    assert Earned(row, a);
  }

  // ------------------------------------------------------------------ counts

  /** The count a price is taken at is the number of teams that have solved the challenge. */
  lemma {:induction false} CountIsTeams(solves: seq<Solve>, challenge: string)
    requires OncePerTeam(solves)
    ensures CountSolves(solves, challenge) == |SolvingTeams(solves, challenge)|
    decreases |solves|
  {
    if solves != [] {
      var last := |solves| - 1;
      CountIsTeams(solves[..last], challenge);
      TeamsSnoc(solves[..last], solves[last], challenge);
      assert solves == solves[..last] + [solves[last]];
      if solves[last].challenge == challenge {
        NotYetSolving(solves, challenge);
      }
    }
  }

  lemma TeamsSnoc(front: seq<Solve>, row: Solve, challenge: string)
    ensures SolvingTeams(front + [row], challenge) ==
            SolvingTeams(front, challenge) + if row.challenge == challenge then {row.team} else {}
  {
    var all := front + [row];
    forall t | t in SolvingTeams(front, challenge) ensures t in SolvingTeams(all, challenge) {
      var i :| 0 <= i < |front| && front[i].challenge == challenge && front[i].team == t;
      assert all[i] == front[i];
    }
    assert all[|front|] == row;
  }

  lemma NotYetSolving(solves: seq<Solve>, challenge: string)
    requires OncePerTeam(solves) && solves != [] && solves[|solves| - 1].challenge == challenge
    ensures solves[|solves| - 1].team !in SolvingTeams(solves[..|solves| - 1], challenge)
  {
  }

  function SolvingTeams(solves: seq<Solve>, challenge: string): set<string> {
    set i | 0 <= i < |solves| && solves[i].challenge == challenge :: solves[i].team
  }
}
