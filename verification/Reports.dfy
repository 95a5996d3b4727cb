/** One report per job: the migration that establishes it, and the racing mint that keeps it. */
module Reports {
  import opened Wrappers

  datatype Report = Report(job: Option<nat>, createdAt: int)

  type Table = map<nat, Report>

  predicate HasReport(t: Table, job: nat) { exists id :: id in t && t[id].job == Some(job) }

  /** The unique index on `reports.job_id`; rows without a job are all distinct to it. */
  predicate OnePerJob(t: Table) {
    forall a, b :: a in t && b in t && t[a].job.Some? && t[a].job == t[b].job ==> a == b
  }

  // ------------------------------------------------------- the dedupe DELETE

  /** `(created_at, id)` comes strictly first. */
  predicate Precedes(t: Table, a: nat, b: nat)
    requires a in t && b in t
  {
    t[a].createdAt < t[b].createdAt || (t[a].createdAt == t[b].createdAt && a < b)
  }

  /** An older report of the same job. */
  predicate Supersedes(t: Table, keep: nat, r: nat)
    requires keep in t && r in t
  {
    t[r].job.Some? && t[keep].job == t[r].job && Precedes(t, keep, r)
  }

  predicate Superseded(t: Table, r: nat)
    requires r in t
  {
    exists keep :: keep in t && Supersedes(t, keep, r)
  }

  /** Among the reports of one job one precedes all the others. */
  lemma {:induction false} OldestExists(t: Table, ids: set<nat>, some: nat) returns (oldest: nat)
    requires ids <= t.Keys && some in ids
    ensures oldest in ids && forall r :: r in ids && r != oldest ==> Precedes(t, oldest, r)
    decreases |ids|
  {
    if ids == {some} {
      oldest := some;
    } else {
      var other :| other in ids && other != some;
      var rest := OldestExists(t, ids - {some}, other);
      oldest := if Precedes(t, some, rest) then some else rest;
      assert Precedes(t, some, rest) || Precedes(t, rest, some);
      forall r | r in ids && r != oldest ensures Precedes(t, oldest, r) {
        assert r == some || r in ids - {some};
      }
    }
  }

  lemma SurvivorExists(t: Table, job: nat)
    requires HasReport(t, job)
    ensures exists id :: id in t && t[id].job == Some(job) && !Superseded(t, id)
  {
    var some :| some in t && t[some].job == Some(job);
    var ofJob := set id | id in t && t[id].job == Some(job);
    var oldest := OldestExists(t, ofJob, some);
    forall keep | keep in t ensures !Supersedes(t, keep, oldest) {
      if t[keep].job == Some(job) && keep != oldest {
        assert keep in ofJob && Precedes(t, oldest, keep);
      }
    }
  }

  class ReportsTable {
    var rows: Table

    constructor (rows: Table)
      ensures this.rows == rows
    {
      this.rows := rows;
    }

    /**
     The DELETE. Rows without a job are untouched; of each job's reports exactly the (created_at, id)-least is left,
     unchanged; so the unique index can be built, and running it again deletes nothing.
     */
    method DeleteDuplicates()
      modifies this
      ensures forall id :: id in rows ==> id in old(rows) && rows[id] == old(rows)[id]
      ensures forall id :: id in old(rows) && old(rows)[id].job.None? ==> id in rows
      ensures forall id :: id in old(rows) && old(rows)[id].job.Some? ==>
        (id in rows <==> forall r :: r in old(rows) && r != id && old(rows)[r].job == old(rows)[id].job ==>
            || old(rows)[id].createdAt < old(rows)[r].createdAt
            || (old(rows)[id].createdAt == old(rows)[r].createdAt && id < r))
      ensures forall job :: HasReport(old(rows), job) <==> HasReport(rows, job)
      ensures OnePerJob(rows)
      ensures forall id :: id in rows ==> !Superseded(rows, id)
    {
      var t := rows;
      rows := map id | id in t && !Superseded(t, id) :: t[id];
      forall id | id in t && t[id].job.Some?
        ensures id in rows <==> forall r :: r in t && r != id && t[r].job == t[id].job ==> Precedes(t, id, r)
      {
        if id in rows {
          forall r | r in t && r != id && t[r].job == t[id].job ensures Precedes(t, id, r) {
            assert !Supersedes(t, r, id);
          }
        }
      }
      forall job | HasReport(t, job) ensures HasReport(rows, job) {
        SurvivorExists(t, job);
      }
    }
  }

  // ------------------------------------------------------ ensure_report_for

  datatype Pc = Finding | Validating | Inserting | Recovering | Returned(id: nat) | RaisedInvalid | RaisedNotFound

  datatype Call = Call(job: nat, pc: Pc)

  datatype State = State(rows: Table, calls: seq<Call>)

  /** `find_by`: any report of the job, or none. */
  predicate Found(t: Table, job: nat, next: Pc) {
    next.Returned? && next.id in t && t[next.id].job == Some(job)
  }

  predicate Finds(s: State, c: Call, next: Pc) {
    c.pc.Finding? && if HasReport(s.rows, c.job) then Found(s.rows, c.job, next) else next == Validating
  }

  /** `create!` validates uniqueness first, and nothing rescues that failure. */
  predicate Validates(s: State, c: Call, next: Pc) {
    c.pc.Validating? && next == if HasReport(s.rows, c.job) then RaisedInvalid else Inserting
  }

  /** Losing the insert is rescued by finding the winner's row. */
  predicate LosesInsert(s: State, c: Call, next: Pc) {
    c.pc.Inserting? && HasReport(s.rows, c.job) && next == Recovering
  }

  ghost predicate WinsInsert(s: State, s': State, c: Call, next: Pc) {
    && c.pc.Inserting? && !HasReport(s.rows, c.job) && next.Returned? && next.id !in s.rows
    && exists at: int :: s'.rows == s.rows[next.id := Report(Some(c.job), at)]
  }

  predicate Recovers(s: State, c: Call, next: Pc) {
    c.pc.Recovering? && if HasReport(s.rows, c.job) then Found(s.rows, c.job, next) else next == RaisedNotFound
  }

  ghost predicate Step(s: State, s': State, i: nat) {
    && i < |s.calls| && |s'.calls| == |s.calls|
    && s'.calls == s.calls[i := s.calls[i].(pc := s'.calls[i].pc)]
    && var c, next := s.calls[i], s'.calls[i].pc;
    && (WinsInsert(s, s', c, next)
        || (s'.rows == s.rows
             && (Finds(s, c, next) || Validates(s, c, next) || LosesInsert(s, c, next) || Recovers(s, c, next))))
  }

  ghost predicate Next(s: State, s': State) { exists i: nat :: Step(s, s', i) }

  /** Callers start against a table the migration has deduplicated. */
  ghost predicate IsRun(run: seq<State>) {
    && run != [] && OnePerJob(run[0].rows) && (forall i :: 0 <= i < |run[0].calls| ==> run[0].calls[i].pc.Finding?)
    && forall k :: 0 < k < |run| ==> Next(run[k - 1], run[k])
  }

  predicate CallOk(t: Table, c: Call) {
    match c.pc
    case Finding => true
    case Validating => true
    case Inserting => true
    case Recovering => HasReport(t, c.job)
    case Returned(id) => id in t && t[id].job == Some(c.job)
    case RaisedInvalid => HasReport(t, c.job)
    case RaisedNotFound => false
  }

  predicate Inv(s: State) {
    OnePerJob(s.rows) && forall i :: 0 <= i < |s.calls| ==> CallOk(s.rows, s.calls[i])
  }

  lemma StepKeepsInv(s: State, s': State, i: nat)
    requires Inv(s) && Step(s, s', i)
    ensures Inv(s')
  {
    var c, next := s.calls[i], s'.calls[i].pc;
    assert CallOk(s.rows, c);
    forall j | 0 <= j < |s.calls| && j != i ensures CallOk(s'.rows, s.calls[j]) {
      assert CallOk(s.rows, s.calls[j]);
      if WinsInsert(s, s', c, next) && HasReport(s.rows, s.calls[j].job) {
        var id :| id in s.rows && s.rows[id].job == Some(s.calls[j].job);
        assert id in s'.rows && s'.rows[id] == s.rows[id];
      }
    }
  }

  lemma {:induction false} RunInvariant(run: seq<State>, k: nat)
    requires IsRun(run) && k < |run|
    ensures Inv(run[k])
  {
    if k == 0 {
    } else {
      RunInvariant(run, k - 1);
      var i: nat :| Step(run[k - 1], run[k], i);
      StepKeepsInv(run[k - 1], run[k], i);
    }
  }

  /** However the mints interleave, in every state every job has at most one report. */
  lemma AlwaysOnePerJob(run: seq<State>, k: nat)
    requires IsRun(run) && k < |run|
    ensures OnePerJob(run[k].rows)
  {
    RunInvariant(run, k);
  }

  /** Every call that returns yields its job's one report, so any two calls of a job agree. */
  lemma MintsAgree(run: seq<State>, k: nat, i: nat, j: nat)
    requires IsRun(run) && k < |run| && i < |run[k].calls| && j < |run[k].calls|
    requires run[k].calls[i].job == run[k].calls[j].job && run[k].calls[i].pc.Returned? && run[k].calls[j].pc.Returned?
    ensures var id := run[k].calls[i].pc.id;
      id == run[k].calls[j].pc.id && id in run[k].rows && run[k].rows[id].job == Some(run[k].calls[i].job)
  {
    RunInvariant(run, k);
    assert CallOk(run[k].rows, run[k].calls[i]) && CallOk(run[k].rows, run[k].calls[j]);
  }

  /** A mint that has ended, even by raising, leaves its job with a report; it never ends by finding none. */
  lemma EndedMintLeavesReport(run: seq<State>, k: nat, i: nat)
    requires IsRun(run) && k < |run| && i < |run[k].calls|
    ensures var c := run[k].calls[i];
      c.pc != RaisedNotFound && (c.pc.Returned? || c.pc.RaisedInvalid? ==> HasReport(run[k].rows, c.job))
  {
    RunInvariant(run, k);
    assert CallOk(run[k].rows, run[k].calls[i]);
  }

  /** Inserting, beaten to it, or home. */
  predicate PastValidation(pc: Pc) { pc.Inserting? || pc.Recovering? || pc.Returned? }

  lemma StepKeepsPastValidation(s: State, s': State, i: nat, j: nat)
    requires Inv(s) && Step(s, s', i) && j < |s.calls| && PastValidation(s.calls[j].pc)
    ensures j < |s'.calls| && PastValidation(s'.calls[j].pc)
  {
    assert CallOk(s.rows, s.calls[i]);
    hide OnePerJob;
  }

  /** A mint that has passed validation never raises: beaten to the insert, it finds the winner's report instead. */
  lemma {:induction false} ValidatedMintNeverRaises(run: seq<State>, k: nat, m: nat, i: nat)
    requires IsRun(run) && k <= m < |run| && i < |run[k].calls| && run[k].calls[i].pc.Inserting?
    ensures i < |run[m].calls| && PastValidation(run[m].calls[i].pc)
    decreases m
  {
    if k < m {
      ValidatedMintNeverRaises(run, k, m - 1, i);
      RunInvariant(run, m - 1);
      var moving: nat :| Step(run[m - 1], run[m], moving);
      hide IsRun, Inv, PastValidation, Step;
      StepKeepsPastValidation(run[m - 1], run[m], moving, i);
    }
  }

  // ------------------------------------------------- when a mint raises after all

  predicate WonBy(s: State, job: nat) {
    exists j :: 0 <= j < |s.calls| && s.calls[j].job == job && s.calls[j].pc.Returned?
  }

  /** What a state owes to the table and the calls the run started from. */
  ghost predicate Since(s0: State, s: State) {
    && |s.calls| == |s0.calls| && (forall i :: 0 <= i < |s.calls| ==> s.calls[i].job == s0.calls[i].job)
    && (forall job :: HasReport(s0.rows, job) ==> HasReport(s.rows, job))
    && (forall job :: HasReport(s.rows, job) && !HasReport(s0.rows, job) ==> WonBy(s, job))
    && (forall i :: 0 <= i < |s.calls| && HasReport(s0.rows, s.calls[i].job) ==>
         s.calls[i].pc.Finding? || s.calls[i].pc.Returned?)
  }

  lemma StepKeepsSince(s0: State, s: State, s': State, i: nat)
    requires Inv(s) && Since(s0, s) && Step(s, s', i)
    ensures Since(s0, s')
  {
    var c, next := s.calls[i], s'.calls[i].pc;
    forall job: nat | HasReport(s.rows, job) ensures HasReport(s'.rows, job) {
      var id :| id in s.rows && s.rows[id].job == Some(job);
      assert id in s'.rows && s'.rows[id] == s.rows[id];
    }
    forall job: nat | HasReport(s'.rows, job) && !HasReport(s0.rows, job) ensures WonBy(s', job) {
      var id :| id in s'.rows && s'.rows[id].job == Some(job);
      if id in s.rows && s.rows[id] == s'.rows[id] {
        assert WonBy(s, job);
        var j :| 0 <= j < |s.calls| && s.calls[j].job == job && s.calls[j].pc.Returned?;
        assert s'.calls[j] == s.calls[j];
      } else {
        assert s'.calls[i].job == job && s'.calls[i].pc.Returned?;
      }
    }
  }

  lemma {:induction false} RunSince(run: seq<State>, k: nat)
    requires IsRun(run) && k < |run|
    ensures Since(run[0], run[k])
  {
    if k == 0 {
    } else {
      RunSince(run, k - 1);
      RunInvariant(run, k - 1);
      assert Next(run[k - 1], run[k]);
      hide Since, IsRun;
      var i: nat :| Step(run[k - 1], run[k], i);
      StepKeepsSince(run[0], run[k - 1], run[k], i);
    }
  }

  /**
   A mint that has raised belongs to a job that had no report at the start, and another call of that job has returned.
   */
  lemma RaisedMeansOvertaken(run: seq<State>, k: nat, i: nat)
    requires IsRun(run) && k < |run| && i < |run[k].calls| && run[k].calls[i].pc.RaisedInvalid?
    ensures var job := run[k].calls[i].job;
      !HasReport(run[0].rows, job)
      && exists j :: 0 <= j < |run[k].calls| && j != i && run[k].calls[j].job == job && run[k].calls[j].pc.Returned?
  {
    RunSince(run, k);
    RunInvariant(run, k);
    var s := run[k];
    assert CallOk(s.rows, s.calls[i]) && WonBy(s, s.calls[i].job);
  }

  /** Calls that have not started, against a deduplicated table. */
  ghost predicate Fresh(s: State) {
    OnePerJob(s.rows) && forall i :: 0 <= i < |s.calls| ==> s.calls[i].pc.Finding?
  }

  ghost predicate RaisesIn(run: seq<State>, s: State, i: nat) {
    IsRun(run) && run[0] == s && i < |run[|run| - 1].calls| && run[|run| - 1].calls[i].pc.RaisedInvalid?
  }

  function Move(s: State, i: nat, next: Pc): State
    requires i < |s.calls|
  {
    s.(calls := s.calls[i := s.calls[i].(pc := next)])
  }

  lemma {:induction false} FreshId(ids: set<nat>) returns (id: nat)
    ensures forall i :: i in ids ==> i < id
  {
    if ids == {} {
      id := 0;
    } else {
      var some :| some in ids;
      var above := FreshId(ids - {some});
      id := if some < above then above else some + 1;
      assert ids == (ids - {some}) + {some};
    }
  }

  /** Against any table without a report of the job, two calls of the job suffice for one of them to raise. */
  lemma MintCanRaise(s: State, i: nat, j: nat) returns (run: seq<State>)
    requires Fresh(s) && i < |s.calls| && j < |s.calls| && i != j && s.calls[i].job == s.calls[j].job
    requires !HasReport(s.rows, s.calls[i].job)
    ensures RaisesIn(run, s, i)
  {
    var job := s.calls[i].job;
    var id := FreshId(s.rows.Keys);
    var s1 := Move(s, i, Validating);
    var s2 := Move(s1, j, Validating);
    var s3 := Move(s2, j, Inserting);
    var s4 := Move(s3, j, Returned(id)).(rows := s.rows[id := Report(Some(job), 0)]);
    var s5 := Move(s4, i, RaisedInvalid);
    assert Step(s, s1, i) && Step(s1, s2, j) && Step(s2, s3, j);
    assert WinsInsert(s3, s4, s3.calls[j], Returned(id));
    assert Step(s3, s4, j);
    assert HasReport(s4.rows, job) by { assert s4.rows[id].job == Some(job); }
    assert Step(s4, s5, i);
    assert Next(s, s1) && Next(s1, s2) && Next(s2, s3) && Next(s3, s4) && Next(s4, s5);
    hide Step, Next;
    run := [s, s1, s2, s3, s4, s5];
  }

  /** Another call for the same job is about. */
  predicate HasRival(s: State, i: nat)
    requires i < |s.calls|
  {
    exists j :: 0 <= j < |s.calls| && j != i && s.calls[j].job == s.calls[i].job
  }

  /**
   `ensure_report_for` can raise RecordInvalid in some run if and only if its job has no report yet and another call for
   the same job is about; with a report already there, or as the only call, it never does.
   */
  lemma MintCanRaiseIff(s: State, i: nat)
    requires Fresh(s) && i < |s.calls|
    ensures (exists run :: RaisesIn(run, s, i)) <==> !HasReport(s.rows, s.calls[i].job) && HasRival(s, i)
  {
    if run :| RaisesIn(run, s, i) {
      RaisedMeansOvertaken(run, |run| - 1, i);
      RunSince(run, |run| - 1);
    }
    if !HasReport(s.rows, s.calls[i].job) && HasRival(s, i) {
      var j: nat :| 0 <= j < |s.calls| && j != i && s.calls[j].job == s.calls[i].job;
      var run := MintCanRaise(s, i, j);
      assert RaisesIn(run, s, i);
    }
  }
}
