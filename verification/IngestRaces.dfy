/**
 Any number of ingest calls stepping through validate, insert, captures, commit and recovery, in any interleaving. A
 transaction's rows become visible when it commits; an insert of a session id waits while another open transaction
 holds it.
 */
module IngestRaces {
  import opened Wrappers
  import opened SessionManifest
  import opened CaptureIngest

  datatype Pc =
    | Validating
    | Inserting
    | InTransaction(id: nat, staged: seq<nat>)
    | FindingOwn
    | CheckingAny
    | Done(outcome: Outcome)

  datatype Proc = Proc(bundle: Bundle, pc: Pc)

  datatype State = State(sessions: Sessions, captures: map<nat, seq<nat>>, procs: seq<Proc>)

  predicate Holds(p: Proc, sessionId: string) { p.pc.InTransaction? && p.bundle.sessionId == sessionId }

  predicate IdInUse(s: State, id: nat) {
    id in s.sessions || exists q :: 0 <= q < |s.procs| && s.procs[q].pc.InTransaction? && s.procs[q].pc.id == id
  }

  // ------------------------------------------------------------------- steps

  /** `save!` validates: the uniqueness check reads committed rows, and its verdict comes before any other. */
  predicate Validate(s: State, p: Proc, next: Pc) {
    p.pc.Validating?
    && next == if Taken(s.sessions, p.bundle.sessionId) then FindingOwn
               else if p.bundle.valid then Inserting else Done(Invalid)
  }

  /** The INSERT: waits for any open holder of the session id, then trips on a committed one or goes ahead. */
  predicate Insert(s: State, p: Proc, next: Pc) {
    p.pc.Inserting?
    && (forall q :: 0 <= q < |s.procs| ==> !Holds(s.procs[q], p.bundle.sessionId))
    && (if Taken(s.sessions, p.bundle.sessionId) then next == FindingOwn
        else next.InTransaction? && next.staged == [] && !IdInUse(s, next.id))
  }

  /** One capture row; a repeated index rolls the whole transaction back. */
  predicate InsertCapture(p: Proc, next: Pc) {
    && p.pc.InTransaction? && |p.pc.staged| < |p.bundle.indices|
    && var index := p.bundle.indices[|p.pc.staged|];
    && next == if index in p.pc.staged then FindingOwn else p.pc.(staged := p.pc.staged + [index])
  }

  predicate Commits(p: Proc, next: Pc) {
    p.pc.InTransaction? && |p.pc.staged| == |p.bundle.indices| && next == Done(Created(p.pc.id))
  }

  predicate FindOwn(s: State, p: Proc, next: Pc) {
    p.pc.FindingOwn?
    && (if exists id :: id in s.sessions && OwnSession(s.sessions, p.bundle, id)
        then next.Done? && next.outcome.Existing? && OwnSession(s.sessions, p.bundle, next.outcome.id)
        else next == CheckingAny)
  }

  predicate CheckAny(s: State, p: Proc, next: Pc) {
    p.pc.CheckingAny? && next == Done(if Taken(s.sessions, p.bundle.sessionId) then Conflict else Inconsistent)
  }

  /** The store can fail at any moment; an open transaction is rolled back. */
  predicate Fails(p: Proc, next: Pc) { !p.pc.Done? && next == Done(StoreFailed) }

  predicate Moves(s: State, p: Proc, next: Pc) {
    || Validate(s, p, next) || Insert(s, p, next) || InsertCapture(p, next) || FindOwn(s, p, next)
       || CheckAny(s, p, next)
    || Fails(p, next)
  }

  ghost predicate Step(s: State, s': State, i: nat) {
    && i < |s.procs| && |s'.procs| == |s.procs|
    && var p, next := s.procs[i], s'.procs[i].pc;
    && s'.procs == s.procs[i := p.(pc := next)]
    && (if p.pc.InTransaction? && Commits(p, next)
        then s'.sessions == s.sessions[p.pc.id := SessionRow(p.bundle.job, p.bundle.sessionId)]
             && s'.captures == s.captures[p.pc.id := p.pc.staged]
        else s'.sessions == s.sessions && s'.captures == s.captures && Moves(s, p, next))
  }

  ghost predicate Init(s: State) {
    && UniqueSessions(s.sessions) && s.captures.Keys == s.sessions.Keys
    && forall i :: 0 <= i < |s.procs| ==> s.procs[i].pc.Validating?
  }

  ghost predicate Next(s: State, s': State) { exists i: nat :: Step(s, s', i) }

  ghost predicate IsRun(run: seq<State>) {
    run != [] && Init(run[0]) && forall k :: 0 < k < |run| ==> Next(run[k - 1], run[k])
  }

  // --------------------------------------------------------------- invariant

  /** What one call may rely on, given the committed rows; a repeated capture index voids the duplicate's guarantees. */
  predicate ProcOk(sessions: Sessions, captures: map<nat, seq<nat>>, p: Proc) {
    match p.pc
    case Validating => true
    case Inserting => p.bundle.valid
    case InTransaction(id, staged) =>
      && p.bundle.valid && id !in sessions && id !in captures && !Taken(sessions, p.bundle.sessionId)
      && staged <= p.bundle.indices
    case FindingOwn => Taken(sessions, p.bundle.sessionId) || !Distinct(p.bundle.indices)
    case CheckingAny => TakenByAnother(sessions, p.bundle) || !Distinct(p.bundle.indices)
    case Done(Created(id)) =>
      p.bundle.valid && OwnSession(sessions, p.bundle, id) && id in captures && captures[id] == p.bundle.indices
    case Done(Existing(id)) => OwnSession(sessions, p.bundle, id)
    case Done(Conflict) =>
      Taken(sessions, p.bundle.sessionId) && (TakenByAnother(sessions, p.bundle) || !Distinct(p.bundle.indices))
    case Done(Inconsistent) => !Distinct(p.bundle.indices)
    case Done(Invalid) => !p.bundle.valid
    case Done(_) => true
  }

  predicate TakenByAnother(sessions: Sessions, b: Bundle) {
    exists id :: id in sessions && sessions[id].sessionId == b.sessionId && sessions[id].job != b.job
  }

  predicate ProcsOk(sessions: Sessions, captures: map<nat, seq<nat>>, procs: seq<Proc>) {
    forall i :: 0 <= i < |procs| ==> ProcOk(sessions, captures, procs[i])
  }

  /** Two calls never hold the same session id or row id, nor both have created the same row. */
  predicate Apart(p: Proc, q: Proc) {
    && (p.pc.InTransaction? && q.pc.InTransaction? ==> p.pc.id != q.pc.id && p.bundle.sessionId != q.bundle.sessionId)
    && (p.pc.Done? && q.pc.Done? && p.pc.outcome.Created? && q.pc.outcome.Created? ==>
         p.pc.outcome.id != q.pc.outcome.id)
  }

  predicate AllApart(procs: seq<Proc>) {
    forall i, j :: 0 <= i < |procs| && 0 <= j < |procs| && i != j ==> Apart(procs[i], procs[j])
  }

  predicate Inv(s: State) {
    && UniqueSessions(s.sessions) && s.captures.Keys == s.sessions.Keys
    && ProcsOk(s.sessions, s.captures, s.procs) && AllApart(s.procs)
  }

  /** The moving call keeps its promise when the tables do not change. */
  lemma MoveKeepsProc(s: State, p: Proc, next: Pc)
    requires UniqueSessions(s.sessions) && s.captures.Keys == s.sessions.Keys
    requires ProcOk(s.sessions, s.captures, p) && Moves(s, p, next)
    ensures ProcOk(s.sessions, s.captures, p.(pc := next))
  {
    if InsertCapture(p, next) {
      var n := |p.pc.staged|;
      assert p.pc.staged == p.bundle.indices[..n];
      assert next.InTransaction? ==> p.bundle.indices[..n + 1] == next.staged;
      assert forall k :: 0 <= k < n ==> p.pc.staged[k] == p.bundle.indices[k];
    } else if FindOwn(s, p, next) && next.CheckingAny? {
      assert forall id :: id in s.sessions && s.sessions[id].sessionId == p.bundle.sessionId ==>
          !OwnSession(s.sessions, p.bundle, id);
    }
  }

  /** The committing call keeps its promise in the new tables. */
  lemma CommitKeepsCommitter(s: State, p: Proc, next: Pc)
    requires s.captures.Keys == s.sessions.Keys && ProcOk(s.sessions, s.captures, p) && Commits(p, next)
    ensures var sessions := s.sessions[p.pc.id := SessionRow(p.bundle.job, p.bundle.sessionId)];
      ProcOk(sessions, s.captures[p.pc.id := p.pc.staged], p.(pc := next))
  {
    assert p.pc.staged == p.bundle.indices;
  }

  /** Everybody else keeps theirs. */
  lemma CommitKeepsOther(s: State, p: Proc, q: Proc)
    requires p.pc.InTransaction? && ProcOk(s.sessions, s.captures, p) && ProcOk(s.sessions, s.captures, q)
        && Apart(q, p)
    ensures var sessions := s.sessions[p.pc.id := SessionRow(p.bundle.job, p.bundle.sessionId)];
      ProcOk(sessions, s.captures[p.pc.id := p.pc.staged], q)
  {
    var sessions := s.sessions[p.pc.id := SessionRow(p.bundle.job, p.bundle.sessionId)];
    assert forall id :: id in s.sessions ==> id in sessions && sessions[id] == s.sessions[id];
  }

  lemma StepKeepsInv(s: State, s': State, i: nat)
    requires Inv(s) && Step(s, s', i)
    ensures Inv(s')
  {
    var p, next := s.procs[i], s'.procs[i].pc;
    assert ProcOk(s.sessions, s.captures, p);
    if p.pc.InTransaction? && Commits(p, next) {
      CommitKeepsCommitter(s, p, next);
      forall j | 0 <= j < |s.procs| && j != i ensures ProcOk(s'.sessions, s'.captures, s.procs[j]) {
        assert ProcOk(s.sessions, s.captures, s.procs[j]) && Apart(s.procs[j], p);
        CommitKeepsOther(s, p, s.procs[j]);
      }
    } else {
      MoveKeepsProc(s, p, next);
    }
    MoverStaysApart(s, s', i);
    hide Step, ProcOk, Apart, Moves;
    assert forall j :: 0 <= j < |s.procs| && j != i ==> s'.procs[j] == s.procs[j];
  }

  lemma MoverStaysApart(s: State, s': State, i: nat)
    requires Inv(s) && Step(s, s', i)
    ensures forall j :: 0 <= j < |s.procs| && j != i ==>
        Apart(s'.procs[i], s'.procs[j]) && Apart(s'.procs[j], s'.procs[i])
    ensures UniqueSessions(s'.sessions) && s'.captures.Keys == s'.sessions.Keys
  {
    var p, next := s.procs[i], s'.procs[i].pc;
    forall j | 0 <= j < |s.procs| && j != i
      ensures Apart(s'.procs[i], s'.procs[j]) && Apart(s'.procs[j], s'.procs[i])
    {
      var q := s.procs[j];
      assert s'.procs[j] == q && Apart(p, q) && Apart(q, p) && ProcOk(s.sessions, s.captures, q);
      assert ProcOk(s.sessions, s.captures, p);
    }
    assert ProcOk(s.sessions, s.captures, p);
  }

  lemma {:induction false} RunInvariant(run: seq<State>, k: nat)
    requires IsRun(run) && k < |run|
    ensures Inv(run[k])
  {
    if k == 0 {
    } else {
      RunInvariant(run, k - 1);
      var i :| Step(run[k - 1], run[k], i);
      StepKeepsInv(run[k - 1], run[k], i);
    }
  }

  // ---------------------------------------------------------------- theorems

  /** At most one call per session id reports a new session, so fusion is enqueued at most once for it. */
  lemma CreatedOnce(run: seq<State>, k: nat, i: nat, j: nat)
    requires IsRun(run) && k < |run| && i < |run[k].procs| && j < |run[k].procs| && i != j
    requires run[k].procs[i].bundle.sessionId == run[k].procs[j].bundle.sessionId
    requires run[k].procs[i].pc.Done? && run[k].procs[i].pc.outcome.Created?
    ensures run[k].procs[j].pc.Done? ==> !run[k].procs[j].pc.outcome.Created?
  {
    RunInvariant(run, k);
    var s := run[k];
    assert ProcOk(s.sessions, s.captures, s.procs[i]) && ProcOk(s.sessions, s.captures, s.procs[j]);
    assert Apart(s.procs[i], s.procs[j]);
  }

  /**
   Calls for one session id agree: a call resolves to the one row only if its job owns it, and gets a conflict only if
   another job does.
   */
  lemma ResolutionsAgree(run: seq<State>, k: nat, i: nat, id: nat)
    requires IsRun(run) && k < |run| && i < |run[k].procs| && run[k].procs[i].pc.Done? && id in run[k].sessions
    requires run[k].procs[i].bundle.sessionId == run[k].sessions[id].sessionId
    ensures var s := run[k]; var p := s.procs[i];
      && (p.pc.outcome.Created? ==> p.pc.outcome.id == id && p.bundle.job == s.sessions[id].job)
      && (p.pc.outcome.Existing? ==> p.pc.outcome.id == id && p.bundle.job == s.sessions[id].job)
      && (p.pc.outcome.Conflict? && Distinct(p.bundle.indices) ==> p.bundle.job != s.sessions[id].job)
  {
    RunInvariant(run, k);
    var s := run[k];
    assert ProcOk(s.sessions, s.captures, s.procs[i]);
  }

  /**
   The final raise, of a tripped constraint with no row behind it, takes a repeated index: no validated manifest gets
   there.
   */
  lemma NeverInconsistent(run: seq<State>, k: nat, i: nat, manifest: Json)
    requires IsRun(run) && k < |run| && i < |run[k].procs|
    requires WellFormed(manifest) && run[k].procs[i].bundle.indices == CaptureIndices(manifest)
    ensures run[k].procs[i].pc != Done(Inconsistent)
  {
    RunInvariant(run, k);
    ValidatedIndicesAreDistinct(manifest);
    hide WellFormed, CaptureIndices, IsRun;
    assert ProcOk(run[k].sessions, run[k].captures, run[k].procs[i]);
  }

  /** A session that a call created exists with exactly the captures of its bundle, in their order. */
  lemma CreatedWithAllCaptures(run: seq<State>, k: nat, i: nat)
    requires IsRun(run) && k < |run| && i < |run[k].procs|
    requires run[k].procs[i].pc.Done? && run[k].procs[i].pc.outcome.Created?
    ensures var s := run[k]; var p := s.procs[i]; var id := p.pc.outcome.id;
      p.bundle.valid && OwnSession(s.sessions, p.bundle, id) && id in s.captures && s.captures[id] == p.bundle.indices
  {
    RunInvariant(run, k);
    assert ProcOk(run[k].sessions, run[k].captures, run[k].procs[i]);
  }

  /** A refusal has its cause: an invalid bundle, a stored session, or a repeated index. */
  lemma RefusedForCause(run: seq<State>, k: nat, i: nat)
    requires IsRun(run) && k < |run| && i < |run[k].procs| && run[k].procs[i].pc.Done?
    ensures var s := run[k]; var p := s.procs[i];
      && (p.pc.outcome.Invalid? ==> !p.bundle.valid)
      && (p.pc.outcome.Conflict? ==>
            exists id :: id in s.sessions && s.sessions[id].sessionId == p.bundle.sessionId
              && (s.sessions[id].job != p.bundle.job || !Distinct(p.bundle.indices)))
      && (p.pc.outcome.Inconsistent? ==> !Distinct(p.bundle.indices))
  {
    RunInvariant(run, k);
    assert ProcOk(run[k].sessions, run[k].captures, run[k].procs[i]);
    hide Distinct, IsRun;
  }

  /**
   A session that was there from the start is untouched; any other was created, with all its captures, by one of the
   calls.
   */
  ghost predicate Accounted(run: seq<State>, k: nat, id: nat)
    requires k < |run| && run != [] && id in run[k].sessions
  {
    || (id in run[0].sessions && run[0].sessions[id] == run[k].sessions[id]
        && id in run[0].captures && id in run[k].captures && run[0].captures[id] == run[k].captures[id])
    || exists i: nat :: CreatedBy(run[k], i, id)
  }

  predicate CreatedBy(s: State, i: nat, id: nat) {
    && i < |s.procs| && s.procs[i].pc == Done(Created(id)) && OwnSession(s.sessions, s.procs[i].bundle, id)
    && id in s.captures && s.captures[id] == s.procs[i].bundle.indices
  }

  lemma CreatedStays(s: State, s': State, step: nat, i: nat, id: nat)
    requires Inv(s) && Step(s, s', step) && CreatedBy(s, i, id)
    ensures CreatedBy(s', i, id)
  {
    assert ProcOk(s.sessions, s.captures, s.procs[step]);
    hide ProcOk, Apart;
  }

  /** A session exists only with all its captures, in every state of every run, whoever is still under way. */
  lemma {:induction false} EverySessionIsComplete(run: seq<State>, k: nat, id: nat)
    requires IsRun(run) && k < |run| && id in run[k].sessions
    ensures Accounted(run, k, id)
  {
    if k == 0 {
    } else {
      var s, s' := run[k - 1], run[k];
      RunInvariant(run, k - 1);
      RunInvariant(run, k);
      var step: nat :| Step(s, s', step);
      var p := s.procs[step];
      if id in s.sessions {
        EverySessionIsComplete(run, k - 1, id);
        if i: nat :| CreatedBy(s, i, id) {
          CreatedStays(s, s', step, i, id);
        } else {
          assert ProcOk(s.sessions, s.captures, p);
        }
      } else {
        assert ProcOk(s'.sessions, s'.captures, s'.procs[step]);
        assert CreatedBy(s', step, id);
      }
    }
  }

  // ------------------------------------------------------------------ retries

  /**
   What can become of a call whose session id was stored, as row `id`, before any call started: the owner's call ends
   with that row, another job's call with a conflict, and either may only fail with the store. Nothing is inserted or
   rejected.
   */
  predicate RetryPc(p: Proc, id: nat, owner: nat) {
    || p.pc.Validating? || p.pc.FindingOwn? || p.pc == Done(StoreFailed)
    || (p.bundle.job == owner && p.pc == Done(Existing(id)))
    || (p.bundle.job != owner && (p.pc.CheckingAny? || p.pc == Done(Conflict)))
  }

  ghost predicate RetriesOk(s: State, id: nat, stored: SessionRow) {
    && id in s.sessions && s.sessions[id] == stored
    && forall i :: 0 <= i < |s.procs| && s.procs[i].bundle.sessionId == stored.sessionId ==>
         RetryPc(s.procs[i], id, stored.job)
  }

  lemma StepKeepsRetries(s: State, s': State, i: nat, id: nat, stored: SessionRow)
    requires Inv(s) && Step(s, s', i) && RetriesOk(s, id, stored)
    ensures RetriesOk(s', id, stored)
  {
    var p := s.procs[i];
    assert ProcOk(s.sessions, s.captures, p);
    assert Taken(s.sessions, stored.sessionId);
    assert p.bundle.sessionId == stored.sessionId && p.bundle.job == stored.job ==>
        OwnSession(s.sessions, p.bundle, id);
    hide AllApart, ProcsOk, Apart, ProcOk;
    assert forall j :: 0 <= j < |s.procs| && j != i ==> s'.procs[j] == s.procs[j];
  }

  lemma {:induction false} RunKeepsRetries(run: seq<State>, k: nat, id: nat)
    requires IsRun(run) && k < |run| && id in run[0].sessions
    ensures RetriesOk(run[k], id, run[0].sessions[id])
  {
    if k == 0 {
    } else {
      RunInvariant(run, k - 1);
      RunKeepsRetries(run, k - 1, id);
      var i: nat :| Step(run[k - 1], run[k], i);
      hide IsRun, Inv, RetriesOk, Step;
      StepKeepsRetries(run[k - 1], run[k], i, id, run[0].sessions[id]);
    }
  }

  /** A retry of a stored bundle is idempotent: its job gets that very row back, any other job a conflict. */
  lemma RetryIsIdempotent(run: seq<State>, k: nat, i: nat, id: nat)
    requires IsRun(run) && k < |run| && i < |run[k].procs| && id in run[0].sessions
    requires run[k].procs[i].bundle.sessionId == run[0].sessions[id].sessionId && run[k].procs[i].pc.Done?
    ensures var p := run[k].procs[i];
      p.pc.outcome == StoreFailed
      || p.pc.outcome == if p.bundle.job == run[0].sessions[id].job then Existing(id) else Conflict
  {
    RunKeepsRetries(run, k, id);
  }
}
