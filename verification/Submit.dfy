/** Flag submission (Submit in internal/engine/handlers.go) as a protocol: any number of requests
    on any number of replicas, each a sequence of separate statements on the shared tables,
    interleaved in any order, each statement possibly failing before or after it took effect.
    A crashed request is one that is never scheduled again. */
module Submit {
  import opened Common
  import opened Pricing
  import opened Tables

  /** The fields of a Challenge that Submit reads. */
  datatype Challenge = Challenge(name: string, mode: string, state: string, staticFlag: string, scoring: Scoring)

  datatype Lookup = Found(ch: Challenge) | NoChallenge | LookupFailed

  datatype Instance = Running(flags: seq<string>) | NoInstance | InstanceFailed

  /** The decoded body; `flag` is what strings.TrimSpace leaves. */
  datatype Body = Malformed | Flag(flag: string)

  /** What the client is told: an HTTP error, or the JSON result with its points. */
  datatype Reply = Refused(status: int) | Result(correct: bool, points: int)

  datatype Phase =
    | Checked(correct: bool)       // the flag has been compared
    | Recorded                     // a correct submission is stored
    | Counted(n: nat)              // CountSolves has answered n
    | Awarded(points: int)         // InsertSolve wrote the row
    | Announced(points: int)       // challenge.solved has been published, or publishing failed
    | Answered(reply: Reply)

  /** `award` remembers what InsertSolve committed for this request, whatever it was told. */
  datatype Request = Request(team: string, user: string, ch: Challenge, flag: string, phase: Phase, award: Option<int>)

  const NOTHING: Challenge := Challenge("", "", "", "", Scoring(0, 0, 0, 0, ""))

  /** Everything Submit does before it touches the tables. */
  function Admit(team: string, user: string, lookup: Lookup, body: Body, instance: Instance): Request {
    var refuse := (status: int) => Request(team, user, NOTHING, "", Answered(Refused(status)), None);
    if team == "" then refuse(403)
    else match lookup
      case NoChallenge => refuse(404)
      case LookupFailed => refuse(500)
      case Found(ch) =>
        if ch.state != "visible" then refuse(404)
        else if body.Malformed? then refuse(400)
        else if body.flag == "" then refuse(400)
        else
          var checked := (correct: bool) => Request(team, user, ch, body.flag, Checked(correct), None);
          if ch.mode == "static" then
            if ch.staticFlag == "" then refuse(409) else checked(body.flag == ch.staticFlag)
          else
            match instance
            case Running(flags) => checked(body.flag in flags)
            case NoInstance => checked(false)
            case InstanceFailed => refuse(500)
  }

  type Log2 = nat -> real

  /** One statement of Submit, in the order of the handler. */
  function Advance(log2: Log2, db: Db, q: Request): (Db, Request) {
    match q.phase
    case Checked(correct) =>
      (InsertSubmission(db, q.team, q.user, q.ch.name, q.flag, correct),
       q.(phase := if correct then Recorded else Answered(Result(false, 0))))
    case Recorded =>
      (db, q.(phase := Counted(CountSolves(db.solves, q.ch.name))))
    case Counted(n) =>
      var points := CurrentValue(q.ch.scoring, n, log2);
      var after := InsertSolve(db, q.team, q.ch.name, points);
      (after, if after == db then q.(phase := Answered(Result(true, 0)))
              else q.(phase := Awarded(points), award := Some(points)))
    case Awarded(points) =>
      (Notify(db, ChallengeSolved(q.team, q.ch.name, points)), q.(phase := Announced(points)))
    case Announced(points) =>
      (Notify(db, ScoreboardUpdated), q.(phase := Answered(Result(true, points))))
    case Answered(_) => (db, q)
  }

  function Act(log2: Log2, db: Db, q: Request, o: Outcome): (Db, Request) {
    var (after, next) := Advance(log2, db, q);
    if o.Fine? then (after, next)
    else
      (if o.applied then after else db,
       // the errors of Publish are only logged
       if q.phase.Awarded? || q.phase.Announced? || q.phase.Answered? then next
       else q.(phase := Answered(Refused(500)), award := if o.applied then next.award else q.award))
  }

  /** Whose request wrote a solve row, and the count it had read: history, not part of the table. */
  datatype Award = Award(owner: nat, counted: nat)

  /** `awards[k]` belongs to row k of solves. */
  datatype System = System(db: Db, requests: seq<Request>, awards: seq<Award>)

  const IDLE: System := System(FRESH, [], [])

  datatype Action =
    | Arrive(team: string, user: string, lookup: Lookup, body: Body, instance: Instance)
    | Step(r: nat, outcome: Outcome)
    | Launched(team: string, challenge: string, status: string, outcome: Outcome)   // Launch publishes

  function Replace(sys: System, r: nat, db: Db, q: Request): System
    requires r < |sys.requests|
  {
    var q0 := sys.requests[r];
    System(db, sys.requests[r := q],
           if db.solves == sys.db.solves || !q0.phase.Counted? then sys.awards
           else sys.awards + [Award(r, q0.phase.n)])
  }

  function Perform(log2: Log2, sys: System, a: Action): System {
    match a
    case Arrive(team, user, lookup, body, instance) =>
      sys.(requests := sys.requests + [Admit(team, user, lookup, body, instance)])
    case Launched(team, challenge, status, o) =>
      if o.Commits() then sys.(db := Notify(sys.db, InstanceStatus(team, challenge, status))) else sys
    case Step(r, o) =>
      if r >= |sys.requests| then sys
      else
        var (db, q) := Act(log2, sys.db, sys.requests[r], o);
        Replace(sys, r, db, q)
  }

  /** The system after any schedule. */
  function Run(log2: Log2, actions: seq<Action>): System
    decreases |actions|
  {
    if actions == [] then IDLE
    else Perform(log2, Run(log2, actions[..|actions| - 1]), actions[|actions| - 1])
  }

  // ------------------------------------------------------------ invariant

  function AwardTotal(requests: seq<Request>, team: string): int {
    if requests == [] then 0
    else
      var last := |requests| - 1;
      AwardTotal(requests[..last], team) +
      if requests[last].team == team && requests[last].award.Some? then requests[last].award.value else 0
  }

  /** A correct submission of this team for this challenge, stored before `time`. */
  ghost predicate Submitted(db: Db, team: string, challenge: string, time: nat) {
    exists i :: 0 <= i < |db.submissions|
      && db.submissions[i].team == team && db.submissions[i].challenge == challenge
      && db.submissions[i].correct && db.submissions[i].at < time
  }

  ghost predicate RowOk(log2: Log2, sys: System, k: nat)
    requires k < |sys.db.solves| == |sys.awards|
  {
    var row, a := sys.db.solves[k], sys.awards[k];
    && row.at < sys.db.clock
    && Submitted(sys.db, row.team, row.challenge, row.at)
    && a.owner < |sys.requests|
    && var q := sys.requests[a.owner];
    && q.team == row.team && q.ch.name == row.challenge && q.award == Some(row.points)
    && a.counted <= CountSolves(sys.db.solves[..k], row.challenge)
    && row.points == CurrentValue(q.ch.scoring, a.counted, log2)
  }

  ghost predicate Owns(sys: System, r: nat, k: nat) {
    k < |sys.awards| && sys.awards[k].owner == r
  }

  ghost predicate RequestOk(sys: System, r: nat)
    requires r < |sys.requests|
  {
    var q := sys.requests[r];
    && (q.award.Some? <==> exists k :: Owns(sys, r, k))
    && (q.phase.Recorded? || q.phase.Counted? ==> Submitted(sys.db, q.team, q.ch.name, sys.db.clock))
    && (match q.phase
        case Checked(_) => q.award == None
        case Recorded => q.award == None
        case Counted(n) => q.award == None && n <= CountSolves(sys.db.solves, q.ch.name)
        case Awarded(points) => q.award == Some(points)
        case Announced(points) => q.award == Some(points)
        case Answered(Refused(_)) => true
        case Answered(Result(_, points)) => q.award == Some(points) || (q.award == None && points == 0))
  }

  ghost predicate OncePerTeam(solves: seq<Solve>) {
    forall i, j :: 0 <= i < j < |solves| ==> solves[i].team != solves[j].team || solves[i].challenge != solves[j].challenge
  }

  ghost predicate OwnersDiffer(awards: seq<Award>) {
    forall i, j :: 0 <= i < j < |awards| ==> awards[i].owner != awards[j].owner
  }

  ghost predicate Inv(log2: Log2, sys: System) {
    && |sys.awards| == |sys.db.solves|
    && (forall i :: 0 <= i < |sys.db.submissions| ==> sys.db.submissions[i].at < sys.db.clock)
    && (forall k :: 0 <= k < |sys.db.solves| ==> RowOk(log2, sys, k))
    && (forall r :: 0 <= r < |sys.requests| ==> RequestOk(sys, r))
    && OncePerTeam(sys.db.solves) && OwnersDiffer(sys.awards)
    && forall team :: TeamTotal(sys.db.solves, team) == AwardTotal(sys.requests, team)
  }

  // ------------------------------------------------- what a step leaves alone

  /** Tables only grow, and everybody's identity stays; the request `r` may have moved on. */
  ghost predicate Grows(sys: System, next: System, r: nat) {
    && sys.db.submissions <= next.db.submissions && sys.db.solves <= next.db.solves
    && sys.awards <= next.awards && sys.db.clock <= next.db.clock
    && |sys.requests| <= |next.requests|
    && forall i :: 0 <= i < |sys.requests| && i != r ==> next.requests[i] == sys.requests[i]
  }

  lemma SubmittedLater(db: Db, next: Db, team: string, challenge: string, time: nat, later: nat)
    requires Submitted(db, team, challenge, time) && db.submissions <= next.submissions && time <= later
    ensures Submitted(next, team, challenge, later)
  {
  }

  lemma RowStays(log2: Log2, sys: System, next: System, r: nat, k: nat)
    requires Grows(sys, next, r) && k < |sys.db.solves| == |sys.awards| && |next.awards| == |next.db.solves|
    requires RowOk(log2, sys, k)
    requires r < |sys.requests| ==> SameClaim(sys.requests[r], next.requests[r])
    ensures RowOk(log2, next, k)
  {
    var row := sys.db.solves[k];
    assert next.db.solves[k] == row && next.awards[k] == sys.awards[k];
    assert next.db.solves[..k] == sys.db.solves[..k];
    SubmittedLater(sys.db, next.db, row.team, row.challenge, row.at, row.at);
  }

  /** The parts of a request that never change, its award included once it has one. */
  ghost predicate SameClaim(q: Request, q': Request) {
    q'.team == q.team && q'.ch == q.ch && (q.award.Some? ==> q'.award == q.award)
  }

  lemma BystanderStays(sys: System, next: System, r: nat, i: nat)
    requires Grows(sys, next, r) && i < |sys.requests| && i != r && RequestOk(sys, i)
    requires forall k :: |sys.awards| <= k < |next.awards| ==> next.awards[k].owner == r
    ensures RequestOk(next, i)
  {
    var q := sys.requests[i];
    if q.award.Some? {
      var k :| Owns(sys, i, k);
      assert Owns(next, i, k);
    } else {
      forall k ensures !Owns(next, i, k) {
        assert !Owns(sys, i, k);
      }
    }
    if q.phase.Recorded? || q.phase.Counted? {
      SubmittedLater(sys.db, next.db, q.team, q.ch.name, sys.db.clock, next.db.clock);
    }
    assert next.db.solves[..|sys.db.solves|] == sys.db.solves;
    CountGrows(next.db.solves, |sys.db.solves|, q.ch.name);
  }

  lemma {:induction false} TotalReplace(requests: seq<Request>, r: nat, q: Request, team: string)
    requires r < |requests| && q.team == requests[r].team
    ensures AwardTotal(requests[r := q], team) == AwardTotal(requests, team)
              + (if q.team == team && q.award.Some? then q.award.value else 0)
              - (if q.team == team && requests[r].award.Some? then requests[r].award.value else 0)
    decreases |requests|
  {
    var last := |requests| - 1;
    var after := requests[r := q];
    if r == last {
      assert after[..last] == requests[..last];
    } else {
      assert after[..last] == requests[..last][r := q];
      TotalReplace(requests[..last], r, q, team);
    }
  }

  // ------------------------------------------------------------ the steps

  /** Steps that write no solve row: a submission, a count, a publication, an error. */
  lemma QuietStep(log2: Log2, sys: System, r: nat, db: Db, q: Request)
    requires Inv(log2, sys) && r < |sys.requests|
    requires db.solves == sys.db.solves && sys.db.submissions <= db.submissions && sys.db.clock <= db.clock
    requires forall i :: 0 <= i < |db.submissions| ==> db.submissions[i].at < db.clock
    requires SameClaim(sys.requests[r], q) && q.award == sys.requests[r].award
    requires RequestOk(System(db, sys.requests[r := q], sys.awards), r)
    ensures Inv(log2, System(db, sys.requests[r := q], sys.awards))
  {
    var next := System(db, sys.requests[r := q], sys.awards);
    forall k | 0 <= k < |db.solves| ensures RowOk(log2, next, k) {
      RowStays(log2, sys, next, r, k);
    }
    forall i | 0 <= i < |next.requests| ensures RequestOk(next, i) {
      if i != r {
        BystanderStays(sys, next, r, i);
      }
    }
    forall team ensures TeamTotal(db.solves, team) == AwardTotal(next.requests, team) {
      TotalReplace(sys.requests, r, q, team);
    }
  }

  /** The step that writes a solve row. */
  lemma AwardStep(log2: Log2, sys: System, r: nat, phase: Phase)
    requires Inv(log2, sys) && r < |sys.requests|
    requires var q := sys.requests[r]; q.phase.Counted? && !Solved(sys.db.solves, q.team, q.ch.name)
    requires var points := CurrentValue(sys.requests[r].ch.scoring, sys.requests[r].phase.n, log2);
             phase == Awarded(points) || (phase.Answered? && phase.reply.Refused?)
    ensures var q := sys.requests[r];
            var points := CurrentValue(q.ch.scoring, q.phase.n, log2);
            Inv(log2, System(InsertSolve(sys.db, q.team, q.ch.name, points),
                             sys.requests[r := q.(phase := phase, award := Some(points))],
                             sys.awards + [Award(r, q.phase.n)]))
  {
    var q := sys.requests[r];
    var points := CurrentValue(q.ch.scoring, q.phase.n, log2);
    var row := Solve(q.team, q.ch.name, points, sys.db.clock);
    var q' := q.(phase := phase, award := Some(points));
    var next := System(InsertSolve(sys.db, q.team, q.ch.name, points), sys.requests[r := q'], sys.awards + [Award(r, q.phase.n)]);
    var n := |sys.db.solves|;
    assert next.db.solves == sys.db.solves + [row];
    assert RequestOk(sys, r);
    forall k | 0 <= k < |next.db.solves| ensures RowOk(log2, next, k) {
      if k < n {
        RowStays(log2, sys, next, r, k);
      } else {
        SubmittedLater(sys.db, next.db, q.team, q.ch.name, sys.db.clock, row.at);
        assert next.db.solves[..k] == sys.db.solves;
      }
    }
    forall i | 0 <= i < |next.requests| ensures RequestOk(next, i) {
      if i != r {
        BystanderStays(sys, next, r, i);
      } else {
        assert Owns(next, r, n);
      }
    }
    forall i | 0 <= i < n ensures sys.awards[i].owner != r {
      assert !Owns(sys, r, i);
    }
    forall team ensures TeamTotal(next.db.solves, team) == AwardTotal(next.requests, team) {
      TotalReplace(sys.requests, r, q', team);
      TotalAppend(sys.db.solves, row, team);
    }
  }

  lemma ArriveKeeps(log2: Log2, sys: System, q: Request)
    requires Inv(log2, sys) && q.award == None && (q.phase.Checked? || (q.phase.Answered? && q.phase.reply.Refused?))
    ensures Inv(log2, sys.(requests := sys.requests + [q]))
  {
    var next := sys.(requests := sys.requests + [q]);
    var r := |sys.requests|;
    forall k | 0 <= k < |sys.db.solves| ensures RowOk(log2, next, k) && sys.awards[k].owner < r {
      RowStays(log2, sys, next, r, k);
      assert RowOk(log2, sys, k);
    }
    forall i | 0 <= i < |next.requests| ensures RequestOk(next, i) {
      if i < r {
        BystanderStays(sys, next, r, i);
      } else {
        forall k ensures !Owns(next, r, k) {
        }
      }
    }
    forall team ensures TeamTotal(sys.db.solves, team) == AwardTotal(next.requests, team) {
      assert next.requests[..r] == sys.requests;
    }
  }

  /** A statement that writes no solve row leaves its own request in order. */
  lemma QuietRequest(log2: Log2, sys: System, r: nat, o: Outcome)
    requires Inv(log2, sys) && r < |sys.requests|
    requires var q := sys.requests[r]; q.phase.Counted? ==> Solved(sys.db.solves, q.team, q.ch.name) || o == Lost(false)
    ensures var (db, q) := Act(log2, sys.db, sys.requests[r], o);
            RequestOk(System(db, sys.requests[r := q], sys.awards), r)
  {
    var q0 := sys.requests[r];
    var (db, q) := Act(log2, sys.db, q0, o);
    var next := System(db, sys.requests[r := q], sys.awards);
    assert RequestOk(sys, r);
    forall k ensures Owns(next, r, k) <==> Owns(sys, r, k) {
    }
    if q0.phase.Checked? && q.phase.Recorded? {
      assert db.submissions[|sys.db.submissions|].at < db.clock;
    } else if q0.phase.Recorded? && q.phase.Counted? {
      SubmittedLater(sys.db, db, q.team, q.ch.name, sys.db.clock, db.clock);
    }
  }

  lemma StepKeeps(log2: Log2, sys: System, r: nat, o: Outcome)
    requires Inv(log2, sys)
    ensures Inv(log2, Perform(log2, sys, Step(r, o)))
  {
    if r < |sys.requests| {
      var q0 := sys.requests[r];
      var (db, q) := Act(log2, sys.db, q0, o);
      assert RequestOk(sys, r);
      if q0.phase.Counted? && !Solved(sys.db.solves, q0.team, q0.ch.name) && o != Lost(false) {
        AwardStep(log2, sys, r, q.phase);
      } else {
        QuietRequest(log2, sys, r, o);
        QuietStep(log2, sys, r, db, q);
      }
    }
  }

  /** The other publisher of the channel touches nothing but the log. */
  lemma LaunchedKeeps(log2: Log2, sys: System, e: Event)
    requires Inv(log2, sys)
    ensures Inv(log2, sys.(db := Notify(sys.db, e)))
  {
    var next := sys.(db := Notify(sys.db, e));
    forall k | 0 <= k < |sys.db.solves| ensures RowOk(log2, next, k) {
      assert RowOk(log2, sys, k);
    }
    forall r | 0 <= r < |sys.requests| ensures RequestOk(next, r) {
      assert RequestOk(sys, r);
      forall k ensures Owns(next, r, k) <==> Owns(sys, r, k) {
      }
    }
  }

  /** The invariant holds after every schedule. */
  lemma {:induction false} AlwaysInv(log2: Log2, actions: seq<Action>)
    ensures Inv(log2, Run(log2, actions))
    decreases |actions|
  {
    if actions != [] {
      var sys := Run(log2, actions[..|actions| - 1]);
      AlwaysInv(log2, actions[..|actions| - 1]);
      match actions[|actions| - 1] {
        case Arrive(team, user, lookup, body, instance) => ArriveKeeps(log2, sys, Admit(team, user, lookup, body, instance));
        case Step(r, o) => StepKeeps(log2, sys, r, o);
        case Launched(team, challenge, status, _) => LaunchedKeeps(log2, sys, InstanceStatus(team, challenge, status));
      }
    }
  }
}
