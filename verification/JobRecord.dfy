/** The job row and what hangs off it (`Job`), with a ghost log of the machine states it has passed through. */
module JobRecord {
  import opened Wrappers
  import opened PipelineTypes
  import opened MeasurementAssembler
  import opened MeasurementSystem
  import opened SystemInvariants

  /** What can be raised out of the pipeline's Ruby code. */
  datatype Thrown =
    | FromSidecar(fault: Fault)
    | Geometric(message: string)
    | TerminalGuard
    | BroadcastDown
    | KeyMissing
    | StoreDown
    | ReportDown

  type Outcome<T> = Result<T, Thrown>

  /** A status broadcast is deferred by the caller, delivered, or raises. */
  datatype Broadcast = Deferred | Delivered | Lost

  function Sent(b: Broadcast): Outcome<()> {
    if b.Lost? then Failure(BroadcastDown) else Success(())
  }

  class Job {
    const address: string
    const selection: int
    const threshold: real
    var status: Status
    var lastError: Note
    var rows: seq<Row>
    var overlays: map<nat, Overlay>
    var report: bool
    var now: int

    /** Every status value written, in order. */
    ghost var written: seq<Status>
    ghost var geo: GeoPc
    ghost var fus: FusPc
    ghost var origins: map<nat, Origin>
    /** The machine states passed through so far, ending in the current one. */
    ghost var run: seq<System>

    ghost function State(): System
      reads this
    {
      System(World(status, lastError, rows, overlays, report), geo, fus, origins, now, threshold)
    }

    /** The fields are the last state of a run of the measurement machine. */
    ghost predicate Valid()
      reads this
    {
      IsRun(run) && run[|run| - 1] == State() && Inv(State())
    }

    constructor (address: string, selection: int, threshold: real, now: int)
      ensures Valid() && Init(State())
      ensures this.address == address && this.selection == selection && this.threshold == threshold && this.now == now
      ensures written == []
    {
      this.address, this.selection, this.threshold, this.now := address, selection, threshold, now;
      status, lastError, rows, overlays, report := Pending, NoNote, [], map[], false;
      written, geo, fus, origins := [], GeoIdle, FusIdle, map[];
      run := [System(World(Pending, NoNote, [], map[], false), GeoIdle, FusIdle, map[], now, threshold)];
    }

    /** Records that the fields just moved by one step of the machine. */
    ghost method Took(before: System)
      requires IsRun(run) && run[|run| - 1] == before && Inv(before) && Next(before, State())
      modifies `run
      ensures Valid() && run == old(run) + [State()]
    {
      NextPreserves(before, State());
      run := run + [State()];
    }

    /** A terminal job is refused; otherwise the status is written and then broadcast. */
    method AdvanceTo(s: Status, broadcast: Broadcast) returns (r: Outcome<()>)
      modifies `status, `written
      ensures old(status) in {Ready, Failed} ==>
        r == Failure(TerminalGuard) && status == old(status) && written == old(written)
      ensures old(status) !in {Ready, Failed} ==>
        && status == s && written == old(written) + [s]
        && r == if broadcast == Lost then Failure(BroadcastDown) else Success(())
    {
      if Terminal(status) {
        return Failure(TerminalGuard);
      }
      status := s;
      written := written + [s];
      r := Sent(broadcast);
    }

    method FailWith(note: Note, broadcast: Broadcast) returns (r: Outcome<()>)
      modifies `status, `lastError, `written
      ensures status == Failed && lastError == note && written == old(written) + [Failed] && r == Sent(broadcast)
    {
      status, lastError := Failed, note;
      written := written + [Failed];
      r := Sent(broadcast);
    }

    method ResetForRerun()
      modifies `status, `written
      ensures status == Pending && written == old(written) + [Pending]
    {
      status := Pending;
      written := written + [Pending];
    }

    /** A reading of the strictly increasing clock, `elapsed` ticks or more after the last one. */
    method Tick(elapsed: nat) returns (t: int)
      modifies `now
      ensures now == t == old(now) + 1 + elapsed
    {
      now := now + 1 + elapsed;
      t := now;
    }

    /** A row of the history that none is newer than, or nothing when there is no history. */
    method LatestMeasurement() returns (latest: Option<Snap>)
      ensures latest.None? <==> rows == []
      ensures latest.Some? ==>
        InHistory(rows, latest.value) && forall i :: 0 <= i < |rows| ==>
            rows[i].generatedAt <= latest.value.row.generatedAt
      ensures latest == Snapshot(rows)
    {
      var i := LatestIndex(rows);
      latest := if i.None? then None else Some(Snap(i.value, rows[i.value]));
    }
  }
}
