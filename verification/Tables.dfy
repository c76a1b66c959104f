/** The tables behind scoring (internal/store/scoring.go, internal/store/migrations/
    0002_submissions.sql) and the statements run on them. Each statement is atomic: that is the
    only thing taken from PostgreSQL. */
module Tables {
  import opened Common

  datatype Submission = Submission(team: string, user: string, challenge: string, flag: string, correct: bool, at: nat)

  datatype Solve = Solve(team: string, challenge: string, points: int, at: nat)

  /** The payloads published on the NOTIFY channel, the first two by Submit, the last by Launch. */
  datatype Event =
    | ChallengeSolved(team: string, challenge: string, points: int)
    | ScoreboardUpdated
    | InstanceStatus(team: string, challenge: string, status: string)

  /** Rows in insertion order; `clock` stands for now(), which a later write never precedes. */
  datatype Db = Db(submissions: seq<Submission>, solves: seq<Solve>, log: seq<Event>, clock: nat)

  const FRESH: Db := Db([], [], [], 0)

  predicate Solved(solves: seq<Solve>, team: string, challenge: string) {
    exists i :: 0 <= i < |solves| && solves[i].team == team && solves[i].challenge == challenge
  }

  function CountSolves(solves: seq<Solve>, challenge: string): nat {
    if solves == [] then 0
    else
      var last := |solves| - 1;
      CountSolves(solves[..last], challenge) + if solves[last].challenge == challenge then 1 else 0
  }

  /** COALESCE(SUM(points), 0) of one team, as in Scoreboard. */
  function TeamTotal(solves: seq<Solve>, team: string): int {
    if solves == [] then 0
    else
      var last := |solves| - 1;
      TeamTotal(solves[..last], team) + if solves[last].team == team then solves[last].points else 0
  }

  function InsertSubmission(db: Db, team: string, user: string, challenge: string, flag: string, correct: bool): Db {
    db.(submissions := db.submissions + [Submission(team, user, challenge, flag, correct, db.clock)], clock := db.clock + 1)
  }

  /** INSERT ... ON CONFLICT (team_id, challenge) DO NOTHING. */
  function InsertSolve(db: Db, team: string, challenge: string, points: int): Db {
    if Solved(db.solves, team, challenge) then db
    else db.(solves := db.solves + [Solve(team, challenge, points, db.clock)], clock := db.clock + 1)
  }

  function Notify(db: Db, e: Event): Db {
    db.(log := db.log + [e])
  }

  lemma TotalAppend(solves: seq<Solve>, row: Solve, team: string)
    ensures TeamTotal(solves + [row], team) == TeamTotal(solves, team) + if row.team == team then row.points else 0
  {
  }

  lemma {:induction false} CountGrows(solves: seq<Solve>, n: nat, challenge: string)
    requires n <= |solves|
    ensures CountSolves(solves[..n], challenge) <= CountSolves(solves, challenge)
    decreases |solves|
  {
    if n == |solves| {
      assert solves[..n] == solves;
    } else {
      var front := solves[..|solves| - 1];
      assert front[..n] == solves[..n];
      CountGrows(front, n, challenge);
    }
  }

  /** *store.Store, as far as scoring uses it. */
  class Store {
    var submissions: seq<Submission>
    var solves: seq<Solve>
    var log: seq<Event>
    var clock: nat

    ghost function State(): Db
      reads this
    {
      Db(submissions, solves, log, clock)
    }

    constructor ()
      ensures State() == FRESH
    {
      submissions, solves, log, clock := [], [], [], 0;
    }

    method RecordSubmission(team: string, user: string, challenge: string, flag: string, correct: bool, o: Outcome)
      returns (ok: bool)
      modifies this
      ensures ok == o.Fine?
      ensures State() == if o.Commits() then InsertSubmission(old(State()), team, user, challenge, flag, correct)
                         else old(State())
    {
      ok := o.Fine?;
      if o.Commits() {
        submissions := submissions + [Submission(team, user, challenge, flag, correct, clock)];
        clock := clock + 1;
      }
    }

    method Count(challenge: string, o: Outcome) returns (n: Option<nat>)
      ensures n == if o.Fine? then Some(CountSolves(solves, challenge)) else None
    {
      n := if o.Fine? then Some(CountSolves(solves, challenge)) else None;
    }

    /** InsertSolve: `Some(true)` when a row was written, `None` on an error. */
    method AwardSolve(team: string, challenge: string, points: int, o: Outcome) returns (awarded: Option<bool>)
      modifies this
      ensures State() == if o.Commits() then InsertSolve(old(State()), team, challenge, points) else old(State())
      ensures awarded == if o.Fine? then Some(!Solved(old(solves), team, challenge)) else None
    {
      var isNew := !Solved(solves, team, challenge);
      awarded := if o.Fine? then Some(isNew) else None;
      if isNew && o.Commits() {
        solves := solves + [Solve(team, challenge, points, clock)];
        clock := clock + 1;
      }
    }

    /** NotifyEvent behind Publish, whose errors are logged and forgotten. */
    method Publish(e: Event, o: Outcome)
      modifies this
      ensures State() == if o.Commits() then Notify(old(State()), e) else old(State())
    {
      if o.Commits() {
        log := log + [e];
      }
    }
  }
}
