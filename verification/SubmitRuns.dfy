/** What the submission protocol guarantees over every schedule, and the handler itself. */
module SubmitRuns {
  import opened Common
  import opened Pricing
  import opened Tables
  import opened Submit

  // ---------------------------------------------------------- conservation

  /** Under every interleaving, error and crash: a team is awarded a challenge at most once, every
      row is preceded by a correct submission of that team, carries the points its one request
      computed, and the scoreboard total of a team is the sum of what its requests were awarded. */
  lemma ScoringConserved(log2: Log2, actions: seq<Action>, k: nat, team: string)
    requires k < |Run(log2, actions).db.solves|
    ensures var sys := Run(log2, actions);
            var row := sys.db.solves[k];
            && |sys.awards| == |sys.db.solves|
            && (forall j :: 0 <= j < |sys.db.solves| && j != k ==>
                  sys.db.solves[j].team != row.team || sys.db.solves[j].challenge != row.challenge)
            && Submitted(sys.db, row.team, row.challenge, row.at)
            && sys.awards[k].owner < |sys.requests| && sys.requests[sys.awards[k].owner].award == Some(row.points)
            && TeamTotal(sys.db.solves, team) == AwardTotal(sys.requests, team)
  {
    AlwaysInv(log2, actions);
    assert RowOk(log2, Run(log2, actions), k);
  }

  /** A client is never promised points it does not have: a positive answer is backed by a row of
      its team with exactly these points. */
  lemma AnswersAreBacked(log2: Log2, actions: seq<Action>, r: nat)
    requires r < |Run(log2, actions).requests|
    requires var phase := Run(log2, actions).requests[r].phase;
             phase.Answered? && phase.reply.Result? && phase.reply.points != 0
    ensures var sys := Run(log2, actions);
            var q := sys.requests[r];
            exists k :: 0 <= k < |sys.db.solves| && sys.db.solves[k].team == q.team
              && sys.db.solves[k].challenge == q.ch.name && sys.db.solves[k].points == q.phase.reply.points
  {
    var sys := Run(log2, actions);
    AlwaysInv(log2, actions);
    assert RequestOk(sys, r);
    var k :| Owns(sys, r, k);
    assert RowOk(log2, sys, k);
  }

  lemma PerformAppends(log2: Log2, sys: System, a: Action)
    ensures sys.db.solves <= Perform(log2, sys, a).db.solves
  {
  }

  /** Rows are never changed or removed: later decay does not touch what was awarded. */
  lemma {:induction false} PointsNeverChange(log2: Log2, actions: seq<Action>, n: nat)
    requires n <= |actions|
    ensures Run(log2, actions[..n]).db.solves <= Run(log2, actions).db.solves
    decreases |actions|
  {
    if n == |actions| {
      assert actions[..n] == actions;
    } else {
      var front := actions[..|actions| - 1];
      assert front[..n] == actions[..n];
      PointsNeverChange(log2, front, n);
      PerformAppends(log2, Run(log2, front), actions[|actions| - 1]);
    }
  }

  // ----------------------------------------------------------------- prices

  /** Points awarded for one challenge. */
  function ChallengeTotal(solves: seq<Solve>, challenge: string): int {
    if solves == [] then 0
    else
      var last := |solves| - 1;
      ChallengeTotal(solves[..last], challenge) + if solves[last].challenge == challenge then solves[last].points else 0
  }

  /** The first `n` prices: what n solvers one after the other would be paid. */
  function PriceSum(ch: Scoring, n: nat, log2: Log2): int {
    if n == 0 then 0 else PriceSum(ch, n - 1, log2) + CurrentValue(ch, n - 1, log2)
  }

  /** All requests saw the same scoring fields for this challenge. */
  ghost predicate OneScoring(sys: System, challenge: string, ch: Scoring) {
    forall r :: 0 <= r < |sys.requests| && sys.requests[r].ch.name == challenge ==> sys.requests[r].ch.scoring == ch
  }

  /** The request behind row k read the count the row ended up at: nobody came in between. */
  ghost predicate Unraced(sys: System, k: nat)
    requires k < |sys.db.solves| == |sys.awards|
  {
    sys.awards[k].counted == CountSolves(sys.db.solves[..k], sys.db.solves[k].challenge)
  }

  /** Row k is the j-th solve of its challenge: it was paid a price of j solves or earlier, hence,
      when decay never raises, at least the j-th price. */
  lemma RowPrice(log2: Log2, sys: System, k: nat, ch: Scoring)
    requires Inv(log2, sys) && k < |sys.db.solves| && OneScoring(sys, sys.db.solves[k].challenge, ch)
    ensures var j := CountSolves(sys.db.solves[..k], sys.db.solves[k].challenge);
            && (exists n: nat :: n <= j && sys.db.solves[k].points == CurrentValue(ch, n, log2))
            && (Unraced(sys, k) ==> sys.db.solves[k].points == CurrentValue(ch, j, log2))
            && (IsLog2(log2) && Sane(ch) ==> CurrentValue(ch, j, log2) <= sys.db.solves[k].points <= Start(ch))
  {
    assert RowOk(log2, sys, k);
    var n, j := sys.awards[k].counted, CountSolves(sys.db.solves[..k], sys.db.solves[k].challenge);
    if IsLog2(log2) && Sane(ch) {
      PriceDrops(ch, n, j, log2);
      PriceRange(ch, n, log2);
    }
  }

  lemma {:induction false} PrefixTotals(log2: Log2, sys: System, n: nat, challenge: string, ch: Scoring)
    requires Inv(log2, sys) && n <= |sys.db.solves| && OneScoring(sys, challenge, ch)
    ensures var solves := sys.db.solves[..n];
            var total, sum := ChallengeTotal(solves, challenge), PriceSum(ch, CountSolves(solves, challenge), log2);
            && (IsLog2(log2) && Sane(ch) ==> total >= sum)
            && ((forall k :: 0 <= k < n && sys.db.solves[k].challenge == challenge ==> Unraced(sys, k)) ==> total == sum)
  {
    if n > 0 {
      PrefixTotals(log2, sys, n - 1, challenge, ch);
      assert sys.db.solves[..n][..n - 1] == sys.db.solves[..n - 1];
      if sys.db.solves[n - 1].challenge == challenge {
        RowPrice(log2, sys, n - 1, ch);
      }
    }
  }

  /** k solves cost the organisers at least the sum of the first k prices, whatever the races, and
      exactly that sum when nobody raced. */
  lemma TotalPaid(log2: Log2, actions: seq<Action>, challenge: string, ch: Scoring)
    requires OneScoring(Run(log2, actions), challenge, ch)
    ensures var sys := Run(log2, actions);
            var total, sum := ChallengeTotal(sys.db.solves, challenge), PriceSum(ch, CountSolves(sys.db.solves, challenge), log2);
            && |sys.awards| == |sys.db.solves|
            && (IsLog2(log2) && Sane(ch) ==> total >= sum)
            && ((forall k :: 0 <= k < |sys.db.solves| && sys.db.solves[k].challenge == challenge ==> Unraced(sys, k)) ==> total == sum)
  {
    var sys := Run(log2, actions);
    AlwaysInv(log2, actions);
    PrefixTotals(log2, sys, |sys.db.solves|, challenge, ch);
    assert sys.db.solves[..|sys.db.solves|] == sys.db.solves;
  }

  /** Which rows carry their own price, under linear decay with any floor: those that were not
      raced, and those whose price no longer moved at the count their request had read. */
  lemma PaidExactlyWhen(log2: Log2, actions: seq<Action>, k: nat, ch: Scoring)
    requires ch.function_ != "logarithmic"
    requires k < |Run(log2, actions).db.solves|
    requires OneScoring(Run(log2, actions), Run(log2, actions).db.solves[k].challenge, ch)
    ensures var sys := Run(log2, actions);
            var j := CountSolves(sys.db.solves[..k], sys.db.solves[k].challenge);
            && |sys.awards| == |sys.db.solves|
            && var counted := sys.awards[k].counted;
            sys.db.solves[k].points == CurrentValue(ch, j, log2)
            <==> Unraced(sys, k) || FixedPrice(ch) || (counted >= 1 && ch.decay * counted >= Start(ch) - Least(ch))
  {
    var sys := Run(log2, actions);
    AlwaysInv(log2, actions);
    assert RowOk(log2, sys, k);
    StaleLinearPrice(ch, sys.awards[k].counted, CountSolves(sys.db.solves[..k], sys.db.solves[k].challenge), log2);
  }

  // --------------------------------------------------- one request, start to end

  /** How the five statements of one request end. */
  datatype Outcomes = Outcomes(record: Outcome, count: Outcome, award: Outcome, solved: Outcome, board: Outcome)

  function OutcomeAt(os: Outcomes, phase: Phase): Outcome {
    match phase
    case Checked(_) => os.record
    case Recorded => os.count
    case Counted(_) => os.award
    case Awarded(_) => os.solved
    case Announced(_) => os.board
    case Answered(_) => Fine
  }

  function Left(phase: Phase): nat {
    match phase
    case Checked(_) => 5
    case Recorded => 4
    case Counted(_) => 3
    case Awarded(_) => 2
    case Announced(_) => 1
    case Answered(_) => 0
  }

  /** A request run to its answer without interference. */
  function Complete(log2: Log2, db: Db, q: Request, os: Outcomes): (r: (Db, Request))
    ensures r.1.phase.Answered?
    decreases Left(q.phase)
  {
    if q.phase.Answered? then (db, q)
    else
      var (after, next) := Act(log2, db, q, OutcomeAt(os, q.phase));
      Complete(log2, after, next, os)
  }

  lemma CompleteStep(log2: Log2, db: Db, q: Request, os: Outcomes)
    requires !q.phase.Answered?
    ensures var (after, next) := Act(log2, db, q, OutcomeAt(os, q.phase));
            && Complete(log2, db, q, os) == Complete(log2, after, next, os)
            && (next.phase.Answered? ==> Complete(log2, db, q, os) == (after, next))
  {
  }

  /** Submit. The instance lookup, the JSON body and the trimmed flag come from outside; marking
      the instance solved is a foreign call without effect on the tables. */
  method Handle(log2: Log2, store: Store, team: string, user: string, lookup: Lookup, body: Body, instance: Instance,
                os: Outcomes) returns (reply: Reply)
    modifies store
    ensures var (db, q) := Complete(log2, old(store.State()), Admit(team, user, lookup, body, instance), os);
            store.State() == db && reply == q.phase.reply
  {
    if team == "" {
      return Refused(403);
    }
    if lookup.NoChallenge? || (lookup.Found? && lookup.ch.state != "visible") {
      return Refused(404);
    }
    if lookup.LookupFailed? {
      return Refused(500);
    }
    var ch := lookup.ch;
    if body.Malformed? {
      return Refused(400);
    }
    var submitted := body.flag;
    if submitted == "" {
      return Refused(400);
    }
    var correct := false;
    if ch.mode == "static" {
      if ch.staticFlag == "" {
        return Refused(409);
      }
      correct := submitted == ch.staticFlag;
    } else if instance.Running? {
      var i := 0;
      while i < |instance.flags| && !correct
        invariant 0 <= i <= |instance.flags|
        invariant correct <==> submitted in instance.flags[..i]
      {
        correct := submitted == instance.flags[i];
        i := i + 1;
      }
      assert correct <==> submitted in instance.flags;
    } else if instance.InstanceFailed? {
      return Refused(500);
    }
    ghost var q := Admit(team, user, lookup, body, instance);
    assert q == Request(team, user, ch, submitted, Checked(correct), None);
    reply := Score(log2, store, q, team, user, ch, submitted, correct, os);
  }

  /** The part of Submit that works on the tables. */
  method Score(log2: Log2, store: Store, ghost q: Request, team: string, user: string, ch: Challenge,
               submitted: string,
               correct: bool, os: Outcomes) returns (reply: Reply)
    requires q == Request(team, user, ch, submitted, Checked(correct), None)
    modifies store
    ensures store.State() == Complete(log2, old(store.State()), q, os).0
    ensures reply == Complete(log2, old(store.State()), q, os).1.phase.reply
  {
    ghost var goal, r := Complete(log2, store.State(), q, os), q;
    CompleteStep(log2, store.State(), r, os);
    var ok := store.RecordSubmission(team, user, ch.name, submitted, correct, os.record);
    if !ok {
      return Refused(500);
    }
    if !correct {
      return Result(false, 0);
    }
    r := r.(phase := Recorded);
    CompleteStep(log2, store.State(), r, os);
    var solveCount := store.Count(ch.name, os.count);
    if solveCount.None? {
      return Refused(500);
    }
    r := r.(phase := Counted(solveCount.value));
    CompleteStep(log2, store.State(), r, os);
    var points := CurrentValue(ch.scoring, solveCount.value, log2);
    var awarded := store.AwardSolve(team, ch.name, points, os.award);
    if awarded.None? {
      return Refused(500);
    }
    if !awarded.value {
      return Result(true, 0);
    }
    r := r.(phase := Awarded(points), award := Some(points));
    assert goal == Complete(log2, store.State(), r, os);
    CompleteStep(log2, store.State(), r, os);
    store.Publish(ChallengeSolved(team, ch.name, points), os.solved);
    r := r.(phase := Announced(points));
    CompleteStep(log2, store.State(), r, os);
    store.Publish(ScoreboardUpdated, os.board);
    reply := Result(true, points);
  }
}
