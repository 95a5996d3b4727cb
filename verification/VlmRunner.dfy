/** The detector thread's lifecycle and the shared warnings buffer (`VlmRunner`). */
module VlmRunner {
  import opened Wrappers
  import opened PipelineTypes
  import opened MeasurementAssembler

  const VLM_JOIN_GRACE_SECONDS := 5

  /** A spawned thread: when it would end by itself, if ever, and with what. */
  datatype Thread = Thread(id: nat, endsAt: Option<nat>, detection: Detection)

  /** The thread was started at `clock` to behave as `script` says. */
  predicate Started(t: Thread, script: VlmScript, clock: nat) {
    t.detection == script.detection && t.endsAt == if script.runsFor.None? then None
      else Some(clock + script.runsFor.value)
  }

  class VlmRunner {
    var warnings: seq<string>
    var thread: Option<Thread>
    /** Seconds on the clock that the threads run against. */
    var clock: nat
    var spawned: seq<Thread>
    var killed: set<nat>

    predicate Alive(t: Thread)
      reads this
    {
      t.id !in killed && (t.endsAt.Some? ==> clock < t.endsAt.value)
    }

    /** Only the held thread can be running. */
    ghost predicate Valid()
      reads this
    {
      && (forall i :: 0 <= i < |spawned| ==> spawned[i].id == i)
      && (forall id :: id in killed ==> id < |spawned|)
      && (thread.Some? ==> thread.value in spawned && thread.value.id !in killed)
      && forall t :: t in spawned && Alive(t) ==> thread == Some(t)
    }

    /** No thread is held, and none that was ever spawned is running. */
    ghost predicate Quiet()
      reads this
    {
      thread.None? && forall t :: t in spawned ==> !Alive(t)
    }

    ghost predicate Unused()
      reads this
    {
      Valid() && thread.None? && warnings == []
    }

    constructor ()
      ensures Unused() && Quiet()
    {
      warnings, thread, clock, spawned, killed := [], None, 0, [], {};
    }

    method AddWarning(message: string)
      modifies `warnings
      ensures warnings == old(warnings) + [message]
    {
      warnings := warnings + [message];
    }

    /** The foreground works for a while; threads whose time comes end by themselves. */
    method Elapse(seconds: nat)
      requires Valid()
      modifies `clock
      ensures Valid() && clock == old(clock) + seconds
    {
      clock := clock + seconds;
    }

    method Start(script: VlmScript)
      requires Valid() && thread.None?
      modifies `thread, `spawned
      ensures Valid() && thread.Some? && Started(thread.value, script, clock)
    {
      var endsAt := if script.runsFor.None? then None else Some(clock + script.runsFor.value);
      var t := Thread(|spawned|, endsAt, script.detection);
      thread := Some(t);
      spawned := spawned + [t];
    }

    /** `Thread#join` with a limit: waits until the thread ends or the limit is up, and says which. */
    method Wait(t: Thread, limit: nat) returns (ended: bool)
      modifies `clock
      ensures ended <==> !Alive(t)
      ensures ended <==> !old(Alive(t)) || (t.endsAt.Some? && t.endsAt.value <= old(clock) + limit)
      ensures old(clock) <= clock <= old(clock) + limit && (!ended ==> clock == old(clock) + limit)
    {
      if !Alive(t) {
        return true;
      }
      ended := t.endsAt.Some? && t.endsAt.value <= clock + limit;
      clock := if ended then t.endsAt.value else clock + limit;
    }

    method Kill(t: Thread)
      modifies `killed
      ensures killed == old(killed) + {t.id} && !Alive(t)
    {
      killed := killed + {t.id};
    }

    /** The thread is given the grace period to end by itself, and killed if it has not. */
    method Unwind(t: Thread)
      requires t in spawned && (forall i :: 0 <= i < |spawned| ==> spawned[i].id == i)
      requires forall id :: id in killed ==> id < |spawned|
      modifies `clock, `killed
      ensures !Alive(t) && forall id :: id in killed ==> id < |spawned|
      ensures old(killed) <= killed && old(clock) <= clock <= old(clock) + 5
      ensures killed != old(killed) ==> old(Alive(t)) && (t.endsAt.Some? ==> t.endsAt.value > clock)
    {
      var ended := Wait(t, VLM_JOIN_GRACE_SECONDS);
      if !ended {
        Kill(t);
      }
    }

    /**
     Consumes the held thread. Its features count only if it ends within the join timeout and did not raise; otherwise
     there are none and a warning says why. A late thread gets the grace period, then the kill, so none is left running.
     */
    method Join(ghost script: VlmScript, ghost startedAt: nat) returns (features: seq<Feature>)
      requires Valid() && thread.Some?
      requires Started(thread.value, script, startedAt) && clock == startedAt + script.foreground
      modifies `thread, `clock, `killed, `warnings
      ensures Valid() && Quiet()
      ensures features == VlmFeatures(script) && warnings == old(warnings) + VlmNote(script)
    {
      var t := thread.value;
      thread := None;
      var ended := Wait(t, VLM_JOIN_TIMEOUT_SECONDS);
      if !ended {
        Unwind(t);
        AddWarning("vlm_failed: detection timed out after 60s");
        return [];
      }
      if t.detection.DetectorRaised? {
        AddWarning("vlm_failed: " + t.detection.message);
        return [];
      }
      features := t.detection.features;
    }

    /**
     Runs on every exit of the pipeline: a thread still alive then gets the grace period, and is killed if it outlasts
     it.
     */
    method Cleanup()
      requires Valid()
      modifies `thread, `clock, `killed
      ensures Valid() && Quiet()
    {
      var held := thread;
      thread := None;
      if held.None? {
        return;
      }
      if !Alive(held.value) {
        return;
      }
      Unwind(held.value);
    }
  }
}
