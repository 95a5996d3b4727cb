/** Idempotent ingest of a validated capture bundle: one call, in one transaction (`CaptureSessionIngester`). */
module CaptureIngest {
  import opened Wrappers
  import opened SessionManifest

  datatype SessionRow = SessionRow(job: nat, sessionId: string)

  /** What ingest reads of a bundle; `valid` says whether the row passes every validation but uniqueness. */
  datatype Bundle = Bundle(job: nat, sessionId: string, indices: seq<nat>, valid: bool)

  type Sessions = map<nat, SessionRow>

  datatype Outcome = Created(id: nat) | Existing(id: nat) | Conflict | Invalid | Inconsistent | StoreFailed

  predicate Taken(sessions: Sessions, sessionId: string) {
    exists id :: id in sessions && sessions[id].sessionId == sessionId
  }

  predicate OwnSession(sessions: Sessions, b: Bundle, id: nat) {
    id in sessions && sessions[id] == SessionRow(b.job, b.sessionId)
  }

  /** The unique index on `capture_sessions.session_id`. */
  predicate UniqueSessions(sessions: Sessions) {
    forall a, b :: a in sessions && b in sessions && sessions[a].sessionId == sessions[b].sessionId ==> a == b
  }

  /** A bundle whose manifest validates has distinct capture indices. */
  lemma ValidatedIndicesAreDistinct(manifest: Json)
    requires WellFormed(manifest)
    ensures Distinct(CaptureIndices(manifest))
  {
  }

  /** The two tables; `captures` holds, per session, the sequence indices of its rows. */
  class CaptureStore {
    var sessions: Sessions
    var captures: map<nat, seq<nat>>

    ghost predicate Valid()
      reads this
    {
      UniqueSessions(sessions) && captures.Keys == sessions.Keys && forall id :: id in captures ==>
          Distinct(captures[id])
    }

    constructor ()
      ensures Valid() && sessions == map[]
    {
      sessions, captures := map[], map[];
    }
  }

  class CaptureSessionIngester {
    const store: CaptureStore
    const bundle: Bundle

    constructor (store: CaptureStore, bundle: Bundle)
      ensures this.store == store && this.bundle == bundle
    {
      this.store, this.bundle := store, bundle;
    }

    /** Whether and how the retry resolves: the job's own row, somebody else's, or no row at all. */
    method ResolveDuplicate() returns (o: Outcome)
      ensures o.Existing? ==> OwnSession(store.sessions, bundle, o.id)
      ensures o.Existing? <==> exists id :: OwnSession(store.sessions, bundle, id)
      ensures o.Conflict? <==> Taken(store.sessions, bundle.sessionId) && !o.Existing?
      ensures o.Inconsistent? <==> !Taken(store.sessions, bundle.sessionId)
    {
      if exists id :: id in store.sessions && OwnSession(store.sessions, bundle, id) {
        var id :| id in store.sessions && OwnSession(store.sessions, bundle, id);
        return Existing(id);
      }
      o := if Taken(store.sessions, bundle.sessionId) then Conflict else Inconsistent;
    }

    /** Inserts the captures one by one; a repeated index trips the unique index on (session, sequence). */
    method BuildCaptures(id: nat) returns (unique: bool)
      requires id in store.captures && store.captures[id] == []
      modifies store`captures
      ensures unique <==> Distinct(bundle.indices)
      ensures unique ==> store.captures == old(store.captures)[id := bundle.indices]
    {
      for i := 0 to |bundle.indices|
        invariant store.captures == old(store.captures)[id := bundle.indices[..i]]
        invariant Distinct(bundle.indices[..i])
      {
        var index := bundle.indices[i];
        if index in store.captures[id] {
          var k :| 0 <= k < i && bundle.indices[k] == index;
          return false;
        }
        assert bundle.indices[..i + 1] == bundle.indices[..i] + [index];
        store.captures := store.captures[id := store.captures[id] + [index]];
      }
      assert bundle.indices[..|bundle.indices|] == bundle.indices;
      unique := true;
    }

    /**
     A fresh session id is stored with all its captures or not at all. A taken one changes nothing: the same job gets
     its row back, another job a conflict. The last, inconsistent outcome needs a repeated capture index.
     */
    method Persist(id: nat) returns (o: Outcome)
      requires store.Valid() && id !in store.sessions
      modifies store
      ensures store.Valid()
      ensures o.Created? <==> !old(Taken(store.sessions, bundle.sessionId)) && bundle.valid && Distinct(bundle.indices)
      ensures if o.Created?
              then o.id == id && store.sessions == old(store.sessions)[id := SessionRow(bundle.job, bundle.sessionId)]
                   && store.captures == old(store.captures)[id := bundle.indices]
              else store.sessions == old(store.sessions) && store.captures == old(store.captures)
      ensures o.Existing? ==> OwnSession(old(store.sessions), bundle, o.id)
      ensures o.Existing? ==>
        var row := old(store.sessions)[o.id]; row.job == bundle.job && row.sessionId == bundle.sessionId
      ensures o.Existing? <==> exists mine :: OwnSession(old(store.sessions), bundle, mine)
      ensures o.Conflict? <==> old(Taken(store.sessions, bundle.sessionId)) && !o.Existing?
      ensures o.Invalid? <==> !old(Taken(store.sessions, bundle.sessionId)) && !bundle.valid
      ensures o.Inconsistent? <==>
          !old(Taken(store.sessions, bundle.sessionId)) && bundle.valid && !Distinct(bundle.indices)
      ensures !o.StoreFailed?
    {
      if Taken(store.sessions, bundle.sessionId) {
        // The model's uniqueness validation trips first, whatever else is wrong with the row.
        o := ResolveDuplicate();
        return;
      }
      if !bundle.valid {
        return Invalid;
      }
      var sessions, captures := store.sessions, store.captures;
      store.sessions := sessions[id := SessionRow(bundle.job, bundle.sessionId)];
      store.captures := captures[id := []];
      var unique := BuildCaptures(id);
      if !unique {
        // Roll back, then resolve.
        store.sessions, store.captures := sessions, captures;
        o := ResolveDuplicate();
        return;
      }
      o := Created(id);
    }
  }
}
